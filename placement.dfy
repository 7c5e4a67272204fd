/** The grid-snapped stacking rule that both demo variants apply when a box is dragged
    or nudged: snap the target x/z to the 10-unit grid, then rest the box on the highest
    top surface among the other boxes that it overlaps strictly on both x and z, or on the
    floor when there is none.

    Positions and extents are integers. Every box of the demos has even extents, so the
    halves `h / 2` used below are exact (see `WellFormed`). */
module Placement {

  import opened Options

  /** Snap granularity of both drag and keyboard movement. */
  const GridSize: int := 10

  /** A box: centre position (y is up) and full extents along x (w), y (h) and z (d).
      Boxes are never rotated, so the extents are also the size of the bounding box. */
  datatype Shape = Shape(x: int, y: int, z: int, w: int, h: int, d: int)

  /** A point or a displacement in the horizontal (x, z) plane. */
  datatype Vec2 = Vec2(x: int, z: int)

  predicate WellFormed(s: Shape) {
    s.w > 0 && s.h > 0 && s.d > 0 && s.h % 2 == 0
  }

  predicate AllWellFormed(shapes: seq<Shape>) {
    forall i :: 0 <= i < |shapes| ==> WellFormed(shapes[i])
  }

  predicate SameExtents(a: Shape, b: Shape) {
    a.w == b.w && a.h == b.h && a.d == b.d
  }

  function Abs(v: int): (r: nat)
    ensures r == v || r == -v
  {
    if v < 0 then -v else v
  }

  function Max(a: int, b: int): (r: int)
    ensures r >= a && r >= b && (r == a || r == b)
  {
    if a < b then b else a
  }

  /** `Math.round(v / gridSize) * gridSize` for an integer `v`: `Math.round` rounds a half
      up (towards +infinity), which for a positive divisor is `floor((v + 5) / 10)`, and
      Dafny's `/` floors when the divisor is positive. The result is the multiple of the
      grid within (v - 5, v + 5]; `SnapUnique` shows there is only one. */
  function Snap(v: int): (r: int)
    ensures r % GridSize == 0
    ensures v - GridSize / 2 < r <= v + GridSize / 2
  {
    (v + GridSize / 2) / GridSize * GridSize
  }

  /** Horizontal overlap of the moving box, centred at (x, z), with `other`. Both tests are
      strict: boxes whose faces only touch do not overlap. `|dx| < (w1 + w2) / 2` is written
      with the distance doubled. */
  predicate Overlaps(moving: Shape, x: int, z: int, other: Shape) {
    2 * Abs(other.x - x) < moving.w + other.w && 2 * Abs(other.z - z) < moving.d + other.d
  }

  /** Where the moving box rests when there is nothing under it: its own half-height. */
  function FloorHeight(moving: Shape): int {
    moving.h / 2
  }

  /** The centre height of the moving box when it sits on top of `other`. */
  function StackedHeight(moving: Shape, other: Shape): int {
    other.y + other.h / 2 + moving.h / 2
  }

  /** Shape `i` is a stacking candidate for the selected shape `sel` moved to (x, z): it is
      another shape (the selected one is skipped by identity) and it overlaps. */
  predicate IsCandidate(shapes: seq<Shape>, sel: nat, x: int, z: int, i: nat)
    requires sel < |shapes| && i < |shapes|
  {
    i != sel && Overlaps(shapes[sel], x, z, shapes[i])
  }

  /** The running maximum after the scan has visited the first `n` shapes. */
  function ScanHeight(shapes: seq<Shape>, sel: nat, x: int, z: int, n: nat): (r: int)
    requires sel < |shapes| && n <= |shapes|
    ensures r >= FloorHeight(shapes[sel])
    ensures forall i :: 0 <= i < n && IsCandidate(shapes, sel, x, z, i) ==>
              r >= StackedHeight(shapes[sel], shapes[i])
    ensures r == FloorHeight(shapes[sel]) ||
            exists i :: 0 <= i < n && IsCandidate(shapes, sel, x, z, i) &&
                        r == StackedHeight(shapes[sel], shapes[i])
  {
    if n == 0 then FloorHeight(shapes[sel])
    else
      var m := ScanHeight(shapes, sel, x, z, n - 1);
      if IsCandidate(shapes, sel, x, z, n - 1) then Max(m, StackedHeight(shapes[sel], shapes[n - 1]))
      else m
  }

  /** The resting height of shape `sel` at the grid position (x, z): never below the floor,
      never below the top of any candidate, and equal to the floor or to one candidate's top. */
  function RestingHeight(shapes: seq<Shape>, sel: nat, x: int, z: int): (r: int)
    requires sel < |shapes|
    ensures r >= FloorHeight(shapes[sel])
    ensures forall i :: 0 <= i < |shapes| && IsCandidate(shapes, sel, x, z, i) ==>
              r >= StackedHeight(shapes[sel], shapes[i])
    ensures r == FloorHeight(shapes[sel]) ||
            exists i :: 0 <= i < |shapes| && IsCandidate(shapes, sel, x, z, i) &&
                        r == StackedHeight(shapes[sel], shapes[i])
  {
    ScanHeight(shapes, sel, x, z, |shapes|)
  }

  /** The `forEach` scan of the event handlers: a loop over all shapes that raises `maxY`
      for every other shape overlapping the snapped position. */
  method FindRestingHeight(shapes: seq<Shape>, sel: nat, x: int, z: int) returns (maxY: int)
    requires sel < |shapes|
    ensures maxY == RestingHeight(shapes, sel, x, z)
    ensures maxY >= FloorHeight(shapes[sel])
  {
    var size := shapes[sel];
    maxY := size.h / 2;
    for i := 0 to |shapes|
      invariant maxY == ScanHeight(shapes, sel, x, z, i)
    {
      if i != sel {
        var shape := shapes[i];
        var dx := Abs(shape.x - x);
        var dz := Abs(shape.z - z);
        if 2 * dx < size.w + shape.w && 2 * dz < size.d + shape.d {
          maxY := Max(maxY, shape.y + shape.h / 2 + size.h / 2);
        }
      }
    }
  }

  /** The whole placement step: snap the target, compute the resting height, and write
      x, z and y into the selected shape only. */
  function Place(shapes: seq<Shape>, sel: nat, tx: int, tz: int): (r: seq<Shape>)
    requires sel < |shapes|
    ensures |r| == |shapes|
    ensures forall i :: 0 <= i < |shapes| && i != sel ==> r[i] == shapes[i]
    ensures SameExtents(r[sel], shapes[sel])
    ensures r[sel].x % GridSize == 0 && r[sel].z % GridSize == 0
    ensures r[sel].x == Snap(tx) && r[sel].z == Snap(tz)
    ensures r[sel].y == RestingHeight(shapes, sel, Snap(tx), Snap(tz))
  {
    var x := Snap(tx);
    var z := Snap(tz);
    shapes[sel := shapes[sel].(x := x, y := RestingHeight(shapes, sel, x, z), z := z)]
  }

  /** Placement keeps every shape well formed: it changes positions only. */
  lemma PlacePreservesWellFormed(shapes: seq<Shape>, sel: nat, tx: int, tz: int)
    requires sel < |shapes| && AllWellFormed(shapes)
    ensures AllWellFormed(Place(shapes, sel, tx, tz))
  {
    var r := Place(shapes, sel, tx, tz);
    forall i | 0 <= i < |r| ensures WellFormed(r[i]) {
      assert WellFormed(shapes[i]);
    }
  }

  /** The offset recorded at pointer-down between the press point on the drag plane and
      the shape's position. When the ray misses the plane, three.js leaves the target vector
      as it was, so the previous offset has the position subtracted from it. */
  function GrabOffset(press: Option<Vec2>, previous: Vec2, s: Shape): Vec2 {
    match press
    case Some(p) => Vec2(p.x - s.x, p.z - s.z)
    case None => Vec2(previous.x - s.x, previous.z - s.z)
  }

  predicate IsArrowKey(key: string) {
    key == "ArrowLeft" || key == "ArrowRight" || key == "ArrowUp" || key == "ArrowDown"
  }

  // ----- Snapping -----

  /** `Snap(v)` is the only multiple of the grid in (v - 5, v + 5]: rounding half up. */
  lemma SnapUnique(v: int, m: int)
    requires m % GridSize == 0 && v - GridSize / 2 < m <= v + GridSize / 2
    ensures m == Snap(v)
  {
    var r := Snap(v);
    assert m == m / GridSize * GridSize;
    assert r == r / GridSize * GridSize;
    assert -GridSize < m - r < GridSize;
    assert m / GridSize == r / GridSize;
  }

  /** Grid points are fixed points of snapping. */
  lemma SnapOnGrid(v: int)
    requires v % GridSize == 0
    ensures Snap(v) == v
  {
    SnapUnique(v, v);
  }

  lemma SnapIdempotent(v: int)
    ensures Snap(Snap(v)) == Snap(v)
  {
    SnapOnGrid(Snap(v));
  }

  lemma SumOnGrid(a: int, b: int)
    requires a % GridSize == 0 && b % GridSize == 0
    ensures (a + b) % GridSize == 0
  {
    assert a + b == (a / GridSize + b / GridSize) * GridSize;
  }

  /** Snapping commutes with a shift by a grid multiple: moving a grid-aligned coordinate
      by any step lands on the coordinate plus the snapped step. */
  lemma SnapShift(x: int, step: int)
    requires x % GridSize == 0
    ensures Snap(x + step) == x + Snap(step)
  {
    SumOnGrid(x, Snap(step));
    SnapUnique(x + step, x + Snap(step));
  }

  // ----- Resting height -----

  lemma {:induction false} ScanHeightIgnoresSelf(shapes: seq<Shape>, sel: nat, x: int, z: int, n: nat, s: Shape)
    requires sel < |shapes| && n <= |shapes| && SameExtents(s, shapes[sel])
    ensures ScanHeight(shapes[sel := s], sel, x, z, n) == ScanHeight(shapes, sel, x, z, n)
  {
    if n > 0 {
      ScanHeightIgnoresSelf(shapes, sel, x, z, n - 1, s);
    }
  }

  /** The selected shape is never its own candidate: its current position (and any other
      state of it but its extents) has no effect on where it comes to rest. */
  lemma RestingHeightIgnoresSelf(shapes: seq<Shape>, sel: nat, x: int, z: int, s: Shape)
    requires sel < |shapes| && SameExtents(s, shapes[sel])
    ensures RestingHeight(shapes[sel := s], sel, x, z) == RestingHeight(shapes, sel, x, z)
  {
    ScanHeightIgnoresSelf(shapes, sel, x, z, |shapes|, s);
  }

  lemma {:induction false} ScanHeightIgnoresNonCandidate(shapes: seq<Shape>, sel: nat, x: int, z: int, n: nat, j: nat, t: Shape)
    requires sel < |shapes| && n <= |shapes| && j < |shapes| && j != sel
    requires !Overlaps(shapes[sel], x, z, shapes[j]) && !Overlaps(shapes[sel], x, z, t)
    ensures ScanHeight(shapes[j := t], sel, x, z, n) == ScanHeight(shapes, sel, x, z, n)
  {
    if n > 0 {
      ScanHeightIgnoresNonCandidate(shapes, sel, x, z, n - 1, j, t);
    }
  }

  /** Overlap is strict: another shape whose centre is exactly the half-extent sum away on
      x or on z only touches the moved box, and its height, whatever it is, does not
      influence the resting height. */
  lemma EdgeContactDoesNotRaise(shapes: seq<Shape>, sel: nat, x: int, z: int, j: nat, y: int)
    requires sel < |shapes| && j < |shapes| && j != sel
    requires 2 * Abs(shapes[j].x - x) == shapes[sel].w + shapes[j].w ||
             2 * Abs(shapes[j].z - z) == shapes[sel].d + shapes[j].d
    ensures RestingHeight(shapes[j := shapes[j].(y := y)], sel, x, z) == RestingHeight(shapes, sel, x, z)
  {
    ScanHeightIgnoresNonCandidate(shapes, sel, x, z, |shapes|, j, shapes[j].(y := y));
  }

  /** With no other shape overlapping, the moved shape rests on the floor, whatever the
      heights of the others. */
  lemma NoOverlapRestsOnFloor(shapes: seq<Shape>, sel: nat, x: int, z: int)
    requires sel < |shapes|
    requires forall i :: 0 <= i < |shapes| && i != sel ==> !Overlaps(shapes[sel], x, z, shapes[i])
    ensures RestingHeight(shapes, sel, x, z) == FloorHeight(shapes[sel])
  {
  }

  /** Any value that is at least the floor and every candidate top, and is attained by one
      of them, is the resting height: the scan computes exactly the maximum. */
  lemma RestingHeightIsMaximum(shapes: seq<Shape>, sel: nat, x: int, z: int, m: int)
    requires sel < |shapes|
    requires m >= FloorHeight(shapes[sel])
    requires forall i :: 0 <= i < |shapes| && IsCandidate(shapes, sel, x, z, i) ==>
               m >= StackedHeight(shapes[sel], shapes[i])
    requires m == FloorHeight(shapes[sel]) ||
             exists i :: 0 <= i < |shapes| && IsCandidate(shapes, sel, x, z, i) &&
                         m == StackedHeight(shapes[sel], shapes[i])
    ensures m == RestingHeight(shapes, sel, x, z)
  {
  }

  // ----- Placement -----

  /** A target already on the grid is kept as it is. */
  lemma PlaceKeepsGridTarget(shapes: seq<Shape>, sel: nat, tx: int, tz: int)
    requires sel < |shapes| && tx % GridSize == 0 && tz % GridSize == 0
    ensures Place(shapes, sel, tx, tz)[sel].x == tx && Place(shapes, sel, tx, tz)[sel].z == tz
  {
    SnapOnGrid(tx);
    SnapOnGrid(tz);
  }

  /** Placing a shape again where it was just placed, with the other shapes unchanged,
      changes nothing. */
  lemma PlaceIdempotent(shapes: seq<Shape>, sel: nat, tx: int, tz: int)
    requires sel < |shapes|
    ensures var r := Place(shapes, sel, tx, tz);
            Place(r, sel, r[sel].x, r[sel].z) == r
  {
    var r := Place(shapes, sel, tx, tz);
    var x, z := Snap(tx), Snap(tz);
    SnapIdempotent(tx);
    SnapIdempotent(tz);
    assert r == shapes[sel := r[sel]];
    RestingHeightIgnoresSelf(shapes, sel, x, z, r[sel]);
  }

  /** A press and a move at the same point put the target back on the shape's own
      position, so the drag does not jump to the pointer; on the grid it stays put. */
  lemma GrabWithoutMotionStaysPut(shapes: seq<Shape>, sel: nat, p: Vec2, previous: Vec2)
    requires sel < |shapes|
    requires shapes[sel].x % GridSize == 0 && shapes[sel].z % GridSize == 0
    ensures var off := GrabOffset(Some(p), previous, shapes[sel]);
            var r := Place(shapes, sel, p.x - off.x, p.z - off.z);
            r[sel].x == shapes[sel].x && r[sel].z == shapes[sel].z
  {
    PlaceKeepsGridTarget(shapes, sel, shapes[sel].x, shapes[sel].z);
  }
}
