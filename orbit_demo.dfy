/** The demo with orbit camera controls (main.js): only the left mouse button picks a box,
    the orbit controls are switched off for the length of a drag, and the arrow keys nudge
    the last-selected box one grid step along the camera's forward or right direction
    projected onto the floor. */
module OrbitDemo {

  import opened Options
  import opened Placement

  function Negate(v: Vec2): Vec2 {
    Vec2(-v.x, -v.z)
  }

  /** The sideways step `camera.up x forward`: for a forward direction flattened onto the
      floor this is (forward.z, -forward.x), which points to the camera's left. */
  function UpCross(forward: Vec2): Vec2 {
    Vec2(forward.z, -forward.x)
  }

  /** `moveVec` of the key handler. `forward` is the camera's viewing direction flattened
      onto the floor and scaled by the grid size; it comes from the camera. Up/down go along
      `forward`, left along `camera.up x forward` and right against it. */
  function CameraOffset(key: string, forward: Vec2): (r: Option<Vec2>)
    ensures r.Some? <==> IsArrowKey(key)
    ensures r.Some? ==> r.value == forward || r.value == Negate(forward) ||
                        r.value == UpCross(forward) || r.value == Negate(UpCross(forward))
  {
    if key == "ArrowUp" then Some(forward)
    else if key == "ArrowDown" then Some(Negate(forward))
    else if key == "ArrowLeft" then Some(UpCross(forward))
    else if key == "ArrowRight" then Some(Negate(UpCross(forward)))
    else None
  }

  lemma NegateOnGrid(v: Vec2)
    requires v.x % GridSize == 0 && v.z % GridSize == 0
    ensures Negate(v).x % GridSize == 0 && Negate(v).z % GridSize == 0
  {
    assert -v.x == (-(v.x / GridSize)) * GridSize;
    assert -v.z == (-(v.z / GridSize)) * GridSize;
  }

  /** Opposite arrows give opposite displacements; up is the forward step, and left is
      perpendicular to it, as long as it, and turned to the camera's left (the 2-D cross
      product forward x left, with y up, is non-negative and zero only for a zero step). */
  lemma ArrowDirections(forward: Vec2)
    ensures var up, down := CameraOffset("ArrowUp", forward).value, CameraOffset("ArrowDown", forward).value;
            up == forward && up.x + down.x == 0 && up.z + down.z == 0
    ensures var left, rt := CameraOffset("ArrowLeft", forward).value, CameraOffset("ArrowRight", forward).value;
            left.x + rt.x == 0 && left.z + rt.z == 0 &&
            left.x * forward.x + left.z * forward.z == 0 &&
            left.x * left.x + left.z * left.z == forward.x * forward.x + forward.z * forward.z &&
            forward.z * left.x - forward.x * left.z == forward.x * forward.x + forward.z * forward.z
  {
    var left := CameraOffset("ArrowLeft", forward).value;
    assert left == Vec2(forward.z, -forward.x);
    assert left.x * forward.x + left.z * forward.z == forward.z * forward.x - forward.x * forward.z;
    assert forward.z * left.x - forward.x * left.z == forward.z * forward.z + forward.x * forward.x;
  }

  /** With the camera looking straight towards -z (forward step (0, -10)), the left arrow
      moves towards -x: the screen's left. */
  lemma LeftArrowExample()
    ensures CameraOffset("ArrowLeft", Vec2(0, -GridSize)) == Some(Vec2(-GridSize, 0))
  {
  }

  /** A nudge of a grid-aligned shape moves it by the snapped camera step, for any step. */
  lemma NudgeMovesBySnappedStep(shapes: seq<Shape>, sel: nat, key: string, forward: Vec2)
    requires sel < |shapes| && IsArrowKey(key)
    requires shapes[sel].x % GridSize == 0 && shapes[sel].z % GridSize == 0
    ensures var o := CameraOffset(key, forward).value;
            var s := Place(shapes, sel, shapes[sel].x + o.x, shapes[sel].z + o.z)[sel];
            s.x == shapes[sel].x + Snap(o.x) && s.z == shapes[sel].z + Snap(o.z)
  {
    var o := CameraOffset(key, forward).value;
    var x, z := shapes[sel].x, shapes[sel].z;
    var s := Place(shapes, sel, x + o.x, z + o.z)[sel];
    assert s.x == Snap(x + o.x) && s.z == Snap(z + o.z);
    SnapShift(x, o.x);
    SnapShift(z, o.z);
  }

  /** When the camera step is itself on the grid, the nudge moves the shape by exactly it. */
  lemma NudgeOnGridMovesByStep(shapes: seq<Shape>, sel: nat, key: string, forward: Vec2)
    requires sel < |shapes| && IsArrowKey(key)
    requires shapes[sel].x % GridSize == 0 && shapes[sel].z % GridSize == 0
    requires forward.x % GridSize == 0 && forward.z % GridSize == 0
    ensures var o := CameraOffset(key, forward).value;
            var s := Place(shapes, sel, shapes[sel].x + o.x, shapes[sel].z + o.z)[sel];
            s.x == shapes[sel].x + o.x && s.z == shapes[sel].z + o.z
  {
    var o := CameraOffset(key, forward).value;
    NegateOnGrid(forward);
    NegateOnGrid(UpCross(forward));
    NegateOnGrid(Negate(forward));
    assert o.x % GridSize == 0 && o.z % GridSize == 0;
    NudgeMovesBySnappedStep(shapes, sel, key, forward);
    SnapOnGrid(o.x);
    SnapOnGrid(o.z);
  }

  /** The page state: the boxes, the two selection references (as indices into `shapes`),
      the drag flag, the drag offset and whether the orbit controls are enabled. */
  class Session {
    var shapes: seq<Shape>
    var selected: Option<nat>
    var lastSelected: Option<nat>
    var isDragging: bool
    var dragOffset: Vec2
    var controlsEnabled: bool

    /** Both references point into `shapes`, a drag is in progress exactly when a shape is
        selected and exactly when the orbit controls are off, and the selected shape is also
        the last selected one. */
    ghost predicate Valid()
      reads this
    {
      && AllWellFormed(shapes)
      && (selected.Some? ==> selected.value < |shapes|)
      && (lastSelected.Some? ==> lastSelected.value < |shapes|)
      && (isDragging <==> selected.Some?)
      && (controlsEnabled <==> !isDragging)
      && (selected.Some? ==> lastSelected == selected)
    }

    constructor(initial: seq<Shape>)
      requires AllWellFormed(initial)
      ensures Valid()
      ensures shapes == initial && selected == None && lastSelected == None
      ensures !isDragging && controlsEnabled && dragOffset == Vec2(0, 0)
    {
      shapes := initial;
      selected := None;
      lastSelected := None;
      isDragging := false;
      dragOffset := Vec2(0, 0);
      controlsEnabled := true;
    }

    /** `button` is the event's button number (0 is the left button), `hit` what the ray
        cast returned (the index of the nearest box hit, if any), and `press` the ray's
        intersection with the horizontal plane through the box. */
    method PointerDown(button: int, hit: Option<nat>, press: Option<Vec2>)
      requires Valid()
      requires hit.Some? ==> hit.value < |shapes|
      modifies this
      ensures Valid()
      ensures shapes == old(shapes)
      ensures !(button == 0 && hit.Some?) ==>
                selected == old(selected) && lastSelected == old(lastSelected) &&
                isDragging == old(isDragging) && dragOffset == old(dragOffset) &&
                controlsEnabled == old(controlsEnabled)
      ensures button == 0 && hit.Some? ==>
                selected == hit && lastSelected == hit && isDragging && !controlsEnabled &&
                dragOffset == GrabOffset(press, old(dragOffset), shapes[hit.value])
    {
      if button == 0 {
        if hit.Some? {
          selected := hit;
          lastSelected := selected;
          isDragging := true;
          dragOffset := GrabOffset(press, dragOffset, shapes[hit.value]);
          controlsEnabled := false;
        }
      }
    }

    /** `point` is the ray's intersection with the drag plane, None when there is none. */
    method PointerMove(point: Option<Vec2>)
      requires Valid()
      modifies this
      ensures Valid()
      ensures selected == old(selected) && lastSelected == old(lastSelected)
      ensures isDragging == old(isDragging) && dragOffset == old(dragOffset)
      ensures controlsEnabled == old(controlsEnabled)
      ensures shapes == if isDragging && selected.Some? && point.Some?
                        then Place(old(shapes), selected.value, point.value.x - dragOffset.x,
                                   point.value.z - dragOffset.z)
                        else old(shapes)
    {
      if !isDragging || selected.None? {
        return;
      }
      if point.Some? {
        var i := selected.value;
        var x := Snap(point.value.x - dragOffset.x);
        var z := Snap(point.value.z - dragOffset.z);
        var maxY := FindRestingHeight(shapes, i, x, z);
        PlacePreservesWellFormed(shapes, i, point.value.x - dragOffset.x, point.value.z - dragOffset.z);
        shapes := shapes[i := shapes[i].(x := x, z := z, y := maxY)];
      }
    }

    method PointerUp()
      requires Valid()
      modifies this
      ensures Valid()
      ensures !isDragging && selected == None && controlsEnabled
      ensures shapes == old(shapes) && lastSelected == old(lastSelected) && dragOffset == old(dragOffset)
    {
      isDragging := false;
      selected := None;
      controlsEnabled := true;
    }

    /** `forward` is the camera's flattened viewing direction scaled by the grid size.
        Arrow keys move the last-selected shape by the camera-relative step and re-stack it
        exactly as a drag to that target would; other keys, or no last-selected shape,
        change nothing. */
    method KeyDown(key: string, forward: Vec2)
      requires Valid()
      modifies this
      ensures Valid()
      ensures selected == old(selected) && lastSelected == old(lastSelected)
      ensures isDragging == old(isDragging) && dragOffset == old(dragOffset)
      ensures controlsEnabled == old(controlsEnabled)
      ensures shapes == if lastSelected.Some? && IsArrowKey(key)
                        then var i, o := lastSelected.value, CameraOffset(key, forward).value;
                             Place(old(shapes), i, old(shapes)[i].x + o.x, old(shapes)[i].z + o.z)
                        else old(shapes)
    {
      if lastSelected.None? {
        return;
      }
      var moveVec := CameraOffset(key, forward);
      if moveVec.Some? {
        var i := lastSelected.value;
        var tx, tz := shapes[i].x + moveVec.value.x, shapes[i].z + moveVec.value.z;
        var x, z := Snap(tx), Snap(tz);
        var maxY := FindRestingHeight(shapes, i, x, z);
        PlacePreservesWellFormed(shapes, i, tx, tz);
        ghost var placed := Place(shapes, i, tx, tz);
        shapes := shapes[i := shapes[i].(x := x, z := z, y := maxY)];
        assert shapes == placed;
      }
    }
  }

  /** After the pointer is released, moving it leaves every shape where it is, and the
      orbit controls are back on. */
  method ReleaseThenMove(s: Session, point: Option<Vec2>)
    requires s.Valid()
    modifies s
    ensures s.Valid() && s.shapes == old(s.shapes) && s.lastSelected == old(s.lastSelected)
    ensures s.controlsEnabled
  {
    s.PointerUp();
    s.PointerMove(point);
  }

  /** The nine boxes the page starts with. */
  function InitialShapes(): (r: seq<Shape>)
    ensures |r| == 9 && AllWellFormed(r)
  {
    [ Shape(-75, 50, -300, 100, 100, 100), Shape(75, 50, -300, 100, 100, 100), Shape(0, 50, 350, 100, 100, 100),
      Shape(-350, 100, -300, 200, 200, 100), Shape(-350, 100, 0, 100, 200, 200), Shape(-350, 50, 350, 200, 100, 200),
      Shape(350, 100, -300, 200, 200, 100), Shape(350, 100, 0, 100, 200, 200), Shape(350, 50, 350, 200, 100, 200) ]
  }

  /** The two top cubes start off the grid (x = -75 and x = 75). A drag move or nudge
      whose target is the cube's own position snaps it half up: to -70 and to 80. */
  lemma FirstSnapMovesStartingCubes()
    ensures Place(InitialShapes(), 0, -75, -300)[0].x == -70
    ensures Place(InitialShapes(), 1, 75, -300)[1].x == 80
  {
  }
}
