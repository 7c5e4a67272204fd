# Cube puzzle: grid-snapped stacking placement

Two browser demos (`main.js` and the earlier `backup/main.js`) show nine boxes on a
floor. You pick a box with the pointer and drag it across the floor. Arrow keys nudge the
last-selected box by one grid step. After every drag move or nudge, the box's target x/z
is snapped to the 10-unit grid. The box then rests on the highest top surface among the
other boxes it overlaps on both x and z, or on the floor when there is none.

This project models that placement rule and the selection/drag/nudge state machine
around it:

- `options.dfy`: module `Options`. The `Option` datatype stands for the nullable
  selection references, a hit test that finds nothing, and a missing ray/plane
  intersection.
- `placement.dfy`: module `Placement`. This is the rule both files share:
  - `Snap` is `Math.round(v / 10) * 10`.
  - `Overlaps` is the strict overlap test.
  - `ScanHeight` and `RestingHeight` give the maximum top surface.
  - `FindRestingHeight` is the handlers' `forEach` loop.
  - `Place` writes the new position into the selected shape.
  - The module also holds the lemmas about these.
- `axis_demo.dfy`: module `AxisDemo`, for `backup/main.js`. Its class `Session` holds the
  page state. Pointer-down reacts to any button. Arrow keys move ±10 along the world x or
  z axis. The file also holds the initial boxes and two worked examples.
- `orbit_demo.dfy`: module `OrbitDemo`, for `main.js`. It adds `controlsEnabled`. Only
  the left button starts a drag. Arrow keys move by a camera-relative step: the caller
  supplies the forward step, and the sideways step is derived from it as `camera.up x forward`.

Positions and extents are integers. Every box has even extents, and the session invariant
requires even heights, so `h / 2` is exact. The shapes are a `seq<Shape>` field that the
handlers reassign, and a selection reference is an index into it. The source's identity
test `shape !== selectedShape` becomes an index comparison. Distances are compared doubled
(`2 * |dx| < w1 + w2`), so no halves appear in the overlap test.

For an integer `v`, `Math.round(v / 10)` rounds a half up. That equals `(v + 5) / 10`
under Dafny's flooring division. So in `main.js`, a drag move or nudge whose target is the
position of one of the two top cubes (x = -75 and x = 75) snaps it to -70 and 80
(`FirstSnapMovesStartingCubes`). Snapping happens only in pointer-move and key-down, never
in pointer-down or pointer-up.

`Shape` stores full extents `w, h, d`, because the code builds boxes from full sizes and
halves them.

No invariant that every shape's y equals its resting height is claimed:
- moving a box writes only that box's position, so boxes stacked on it are not re-settled;
- the starting layout is never resolved.

Each placement's own height is characterised instead.

## Model

| member | source | states |
|---|---|---|
| Placement.Snap | main.js:122-123 | the snapped coordinate is a multiple of the grid size 10 and lies in (v - 5, v + 5] |
| Placement.SnapUnique | backup/main.js:98-99 | any multiple of 10 in (v - 5, v + 5] is `Snap(v)`: rounding to the nearest grid line, halves upwards |
| Placement.SnapOnGrid | backup/main.js:146-147 | a coordinate already on the grid is not moved by snapping |
| Placement.SnapIdempotent | backup/main.js:98-99 | snapping twice is snapping once |
| Placement.SnapShift | main.js:194-195 | for a grid-aligned coordinate, snapping the coordinate plus any step gives the coordinate plus the snapped step |
| Placement.ScanHeight | backup/main.js:102-117 | after visiting the first n shapes the running maximum is at least the floor height and every candidate's stacked height among them, and equals the floor height or one of those |
| Placement.RestingHeight | main.js:124-139 | the resting y is at least the moved shape's half-height and at least `other.y + other.h/2 + own.h/2` for every other strictly overlapping shape, and equals the floor value or one of those candidates |
| Placement.FindRestingHeight | main.js:124-139 | the `forEach` loop's `maxY` equals the resting height, so it is never below the floor height |
| Placement.Place | main.js:122-142 | only the selected shape changes; its x and z are grid multiples (the snapped target), its y the resting height, its extents unchanged, every other shape identical |
| Placement.PlacePreservesWellFormed | main.js:140-142 | placing changes positions only, so every shape keeps positive extents and an even height |
| Placement.ScanHeightIgnoresSelf | main.js:126 | at every step of the scan, the selected shape's own position does not matter |
| Placement.RestingHeightIgnoresSelf | main.js:126 | the selected shape is never its own candidate: replacing it by any shape of the same extents leaves the resting height unchanged |
| Placement.ScanHeightIgnoresNonCandidate | main.js:130-137 | a shape that does not overlap the target, before or after a change, does not affect the scan |
| Placement.EdgeContactDoesNotRaise | main.js:132-135 | overlap is strict: a shape whose centre is exactly the half-extent sum away on x or z leaves the resting height unchanged whatever its own height |
| Placement.NoOverlapRestsOnFloor | backup/main.js:102-117 | with no other shape overlapping, the moved shape rests at its own half-height regardless of the others' heights |
| Placement.RestingHeightIsMaximum | main.js:124-139 | a value that bounds the floor and every candidate and is attained by one of them is the resting height (the scan computes exactly the maximum) |
| Placement.PlaceKeepsGridTarget | backup/main.js:146-147 | a grid-aligned target is kept exactly |
| Placement.PlaceIdempotent | backup/main.js:98-121 | re-placing a shape at the position it was just placed at, others unchanged, changes nothing |
| Placement.GrabWithoutMotionStaysPut | main.js:100-123 | pressing and moving at the same point targets the shape's own position, so a grid-aligned shape keeps its x and z |
| AxisDemo.ArrowOffset | backup/main.js:133-140 | an offset exists exactly for the four arrow keys; it is ±10 on one axis and 0 on the other |
| AxisDemo.ArrowDirections | backup/main.js:136-139 | left is -x and up is -z; right undoes left and down undoes up |
| AxisDemo.NudgeMovesOneGridStep | backup/main.js:146-147 | for a grid-aligned shape a nudge changes exactly one of x, z by exactly 10 and leaves the other |
| AxisDemo.Session.constructor | backup/main.js:56-60 | nothing selected, not dragging |
| AxisDemo.Session.PointerDown | backup/main.js:70-83 | a miss changes nothing; a hit with any button selects the hit shape as selected and last selected, starts dragging and records the drag offset; shapes unchanged; the session invariant is kept |
| AxisDemo.Session.PointerMove | backup/main.js:87-123 | without a drag or without an intersection nothing changes; otherwise the shapes become `Place` of the intersection minus the offset; selection unchanged |
| AxisDemo.Session.PointerUp | backup/main.js:125-128 | dragging stops and the selection is cleared; the last-selected shape and all shapes are kept |
| AxisDemo.Session.KeyDown | backup/main.js:131-170 | without a last-selected shape or for a non-arrow key nothing changes; otherwise the last-selected shape is placed at its position plus the arrow offset, by the same `Place` as a drag |
| AxisDemo.ReleaseThenMove | backup/main.js:87-128 | a pointer-move after pointer-up leaves every shape where it was |
| AxisDemo.InitialShapes | backup/main.js:33-47 | the nine starting boxes, all with positive extents and even heights |
| AxisDemo.StackingExample | backup/main.js:98-121 | dragging the first cube onto the middle cube rests it at y = 150 |
| AxisDemo.EdgeTouchingExample | backup/main.js:110-113 | a cube moved face to face against another (centres 100 apart, widths 100) stays on the floor at y = 50 |
| OrbitDemo.CameraOffset | main.js:169-189 | a displacement exists exactly for the four arrow keys; it is the forward step, the sideways step `camera.up x forward`, or the negation of one |
| OrbitDemo.ArrowDirections | main.js:173-188 | up is the forward step and down its negation; right is the negation of left; left is perpendicular to forward, of the same length, and turned to the camera's left |
| OrbitDemo.LeftArrowExample | main.js:181-183 | with the camera looking towards -z, the left arrow moves towards -x |
| OrbitDemo.NudgeMovesBySnappedStep | main.js:190-195 | for a grid-aligned shape and any camera step, a nudge moves the shape by the snapped step |
| OrbitDemo.NudgeOnGridMovesByStep | main.js:190-195 | for a grid-aligned shape and a grid-aligned camera step, a nudge moves the shape by exactly that step |
| OrbitDemo.Session.constructor | main.js:77-81 | nothing selected, not dragging, orbit controls enabled |
| OrbitDemo.Session.PointerDown | main.js:93-110 | only the left button on a hit changes state: selected and last selected become the hit, dragging starts, controls are disabled, the offset is recorded; shapes unchanged; the session invariant (dragging iff selected iff controls off) is kept |
| OrbitDemo.Session.PointerMove | main.js:112-144 | without a drag or without an intersection nothing changes; otherwise the shapes become `Place` of the intersection minus the offset |
| OrbitDemo.Session.PointerUp | main.js:146-151 | dragging stops, the selection is cleared, controls are re-enabled; the last-selected shape and all shapes are kept |
| OrbitDemo.Session.KeyDown | main.js:158-218 | without a last-selected shape or for a non-arrow key nothing changes; otherwise the shape is placed at its position plus the camera-relative step, by the same `Place` as a drag |
| OrbitDemo.ReleaseThenMove | main.js:112-151 | a pointer-move after pointer-up leaves every shape where it was, with controls enabled |
| OrbitDemo.InitialShapes | main.js:44-57 | the nine starting boxes, all with positive extents and even heights |
| OrbitDemo.FirstSnapMovesStartingCubes | main.js:45-46 | a placement whose target is the starting position of the cubes at x = -75 and x = 75 puts them at -70 and 80 |

## Left out

- Rendering and scene setup are not modelled, because they only produce pixels: scene, renderer, floor, grey square, lights, colours and the `animate` loop. The starting boxes appear only as fixtures (`InitialShapes`).
- Hit-testing (`getIntersectedShape`) is three.js ray casting. It becomes an input: the index of the box hit, if any.
- The ray/plane intersection is floating-point library maths. The drag plane itself is not modelled either. The intersection point becomes an integer input, and a failed intersection is `None`. At pointer-down a failed intersection leaves three.js's target vector untouched, which `GrabOffset` reproduces. Only the x and z components of the drag offset are kept, because only they are used.
- OrbitDemo.Session.KeyDown does not compute the camera's viewing direction (`getWorldDirection`, flattening, normalisation). This is floating-point vector maths. The grid-scaled forward step is an integer input; the sideways step is derived from it as `camera.up x forward`, and its normalisation is not modelled.
- `Box3.setFromObject` / `getSize` are not modelled, because boxes are never rotated. A box's size is its stored extents.
- Floating point in general is not modelled. Positions are integers, so a non-integer pointer position is not represented.
- OrbitControls (damping, pan, rotate), pointer normalisation and context-menu suppression are library and UI wiring. Only the `controls.enabled` flag is kept.
- The source's handlers run to completion one at a time. The model assumes this and has no concurrency.
