/** The earlier demo (backup/main.js): any mouse button picks a box, and the arrow keys
    nudge the last-selected box by one grid step along the world x or z axis. */
module AxisDemo {

  import opened Options
  import opened Placement

  /** `dx`/`dz` of the key handler's `switch`: None for any key that is not an arrow. */
  function ArrowOffset(key: string): (r: Option<Vec2>)
    ensures r.Some? <==> IsArrowKey(key)
    ensures r.Some? ==> (Abs(r.value.x) == GridSize && r.value.z == 0) ||
                        (r.value.x == 0 && Abs(r.value.z) == GridSize)
  {
    if key == "ArrowLeft" then Some(Vec2(-GridSize, 0))
    else if key == "ArrowRight" then Some(Vec2(GridSize, 0))
    else if key == "ArrowUp" then Some(Vec2(0, -GridSize))
    else if key == "ArrowDown" then Some(Vec2(0, GridSize))
    else None
  }

  /** Left moves towards -x and up towards -z (away from the camera); opposite arrows undo
      each other, and left/right never touch z nor up/down x. */
  lemma ArrowDirections()
    ensures ArrowOffset("ArrowLeft").value.x < 0 && ArrowOffset("ArrowUp").value.z < 0
    ensures ArrowOffset("ArrowLeft").value.x + ArrowOffset("ArrowRight").value.x == 0
    ensures ArrowOffset("ArrowUp").value.z + ArrowOffset("ArrowDown").value.z == 0
    ensures ArrowOffset("ArrowLeft").value.z == 0 && ArrowOffset("ArrowUp").value.x == 0
  {
  }

  /** A nudge of a grid-aligned shape moves it by exactly one grid step along exactly one
      axis; the stacking rule then sets its height. */
  lemma NudgeMovesOneGridStep(shapes: seq<Shape>, sel: nat, key: string)
    requires sel < |shapes| && IsArrowKey(key)
    requires shapes[sel].x % GridSize == 0 && shapes[sel].z % GridSize == 0
    ensures var o := ArrowOffset(key).value;
            var s := Place(shapes, sel, shapes[sel].x + o.x, shapes[sel].z + o.z)[sel];
            (Abs(s.x - shapes[sel].x) == GridSize && s.z == shapes[sel].z) ||
            (s.x == shapes[sel].x && Abs(s.z - shapes[sel].z) == GridSize)
  {
    var o := ArrowOffset(key).value;
    PlaceKeepsGridTarget(shapes, sel, shapes[sel].x + o.x, shapes[sel].z + o.z);
  }

  /** The page state: the boxes, the two selection references (as indices into `shapes`),
      the drag flag and the drag offset. */
  class Session {
    var shapes: seq<Shape>
    var selected: Option<nat>
    var lastSelected: Option<nat>
    var isDragging: bool
    var dragOffset: Vec2

    /** Both references point into `shapes`, a drag is in progress exactly when a shape is
        selected, and the selected shape is also the last selected one. */
    ghost predicate Valid()
      reads this
    {
      && AllWellFormed(shapes)
      && (selected.Some? ==> selected.value < |shapes|)
      && (lastSelected.Some? ==> lastSelected.value < |shapes|)
      && (isDragging <==> selected.Some?)
      && (selected.Some? ==> lastSelected == selected)
    }

    constructor(initial: seq<Shape>)
      requires AllWellFormed(initial)
      ensures Valid()
      ensures shapes == initial && selected == None && lastSelected == None
      ensures !isDragging && dragOffset == Vec2(0, 0)
    {
      shapes := initial;
      selected := None;
      lastSelected := None;
      isDragging := false;
      dragOffset := Vec2(0, 0);
    }

    /** `hit` is what the ray cast returned (the index of the nearest box hit, if any), and
        `press` is the ray's intersection with the horizontal plane through the box. */
    method PointerDown(hit: Option<nat>, press: Option<Vec2>)
      requires Valid()
      requires hit.Some? ==> hit.value < |shapes|
      modifies this
      ensures Valid()
      ensures shapes == old(shapes)
      ensures hit.None? ==> selected == old(selected) && lastSelected == old(lastSelected) &&
                            isDragging == old(isDragging) && dragOffset == old(dragOffset)
      ensures hit.Some? ==> selected == hit && lastSelected == hit && isDragging &&
                            dragOffset == GrabOffset(press, old(dragOffset), shapes[hit.value])
    {
      if hit.Some? {
        selected := hit;
        lastSelected := selected;
        isDragging := true;
        dragOffset := GrabOffset(press, dragOffset, shapes[hit.value]);
      }
    }

    /** `point` is the ray's intersection with the drag plane, None when there is none. */
    method PointerMove(point: Option<Vec2>)
      requires Valid()
      modifies this
      ensures Valid()
      ensures selected == old(selected) && lastSelected == old(lastSelected)
      ensures isDragging == old(isDragging) && dragOffset == old(dragOffset)
      ensures shapes == if isDragging && selected.Some? && point.Some?
                        then Place(old(shapes), selected.value, point.value.x - dragOffset.x,
                                   point.value.z - dragOffset.z)
                        else old(shapes)
    {
      if !isDragging || selected.None? {
        return;
      }
      if point.Some? {
        var i := selected.value;
        var x := Snap(point.value.x - dragOffset.x);
        var z := Snap(point.value.z - dragOffset.z);
        var maxY := FindRestingHeight(shapes, i, x, z);
        PlacePreservesWellFormed(shapes, i, point.value.x - dragOffset.x, point.value.z - dragOffset.z);
        shapes := shapes[i := shapes[i].(x := x, z := z, y := maxY)];
      }
    }

    method PointerUp()
      requires Valid()
      modifies this
      ensures Valid()
      ensures !isDragging && selected == None
      ensures shapes == old(shapes) && lastSelected == old(lastSelected) && dragOffset == old(dragOffset)
    {
      isDragging := false;
      selected := None;
    }

    /** Arrow keys move the last-selected shape one grid step and re-stack it exactly as a
        drag to that target would; other keys, or no last-selected shape, change nothing. */
    method KeyDown(key: string)
      requires Valid()
      modifies this
      ensures Valid()
      ensures selected == old(selected) && lastSelected == old(lastSelected)
      ensures isDragging == old(isDragging) && dragOffset == old(dragOffset)
      ensures shapes == if lastSelected.Some? && IsArrowKey(key)
                        then var i, o := lastSelected.value, ArrowOffset(key).value;
                             Place(old(shapes), i, old(shapes)[i].x + o.x, old(shapes)[i].z + o.z)
                        else old(shapes)
    {
      if lastSelected.None? {
        return;
      }
      var offset := ArrowOffset(key);
      if offset.Some? {
        var i := lastSelected.value;
        var x := Snap(shapes[i].x + offset.value.x);
        var z := Snap(shapes[i].z + offset.value.z);
        var maxY := FindRestingHeight(shapes, i, x, z);
        PlacePreservesWellFormed(shapes, i, shapes[i].x + offset.value.x, shapes[i].z + offset.value.z);
        shapes := shapes[i := shapes[i].(x := x, z := z, y := maxY)];
      }
    }
  }

  /** After the pointer is released, moving it leaves every shape where it is. */
  method ReleaseThenMove(s: Session, point: Option<Vec2>)
    requires s.Valid()
    modifies s
    ensures s.Valid() && s.shapes == old(s.shapes) && s.lastSelected == old(s.lastSelected)
  {
    s.PointerUp();
    s.PointerMove(point);
  }

  /** The nine boxes the page starts with. */
  function InitialShapes(): (r: seq<Shape>)
    ensures |r| == 9 && AllWellFormed(r)
  {
    [ Shape(-250, 50, 0, 100, 100, 100), Shape(0, 50, 0, 100, 100, 100), Shape(250, 50, 0, 100, 100, 100),
      Shape(0, 100, 250, 200, 200, 100), Shape(200, 100, 250, 200, 200, 100),
      Shape(350, 100, -250, 100, 200, 200), Shape(550, 100, -250, 100, 200, 200),
      Shape(-350, 50, -250, 200, 100, 200), Shape(-550, 50, -250, 200, 100, 200) ]
  }

  /** Dragging the first cube onto the middle one rests it on that cube's top: 100 + 50. */
  lemma StackingExample()
    ensures Place(InitialShapes(), 0, 0, 0)[0].y == 150
  {
    var s := InitialShapes();
    assert IsCandidate(s, 0, 0, 0, 1);
    assert forall i :: 2 <= i < 9 ==> !IsCandidate(s, 0, 0, 0, i);
  }

  /** Moving the first cube to x = -100 makes it touch the middle cube face to face:
      centres 100 apart, half-widths 50 + 50. It stays on the floor. */
  lemma EdgeTouchingExample()
    ensures Place(InitialShapes(), 0, -100, 0)[0].y == 50
  {
    var s := InitialShapes();
    assert 2 * Abs(s[1].x - -100) == s[0].w + s[1].w;
    forall i | 0 <= i < 9 ensures !IsCandidate(s, 0, -100, 0, i) {
      if i == 1 {
      } else if i == 2 {
      } else if i == 3 {
      } else if i == 4 {
      } else if i == 5 {
      } else if i == 6 {
      } else if i == 7 {
      } else if i == 8 {
      }
    }
  }
}
