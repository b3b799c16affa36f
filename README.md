# Wireframe viewer engine, modelled in Dafny

`main.js` is a canvas wireframe viewer. It shows a cube at start-up, loads
meshes written in a subset of the Wavefront OBJ format, normalises them to a
unit-sized box around the origin and draws their edges in perspective. The
user turns the model by dragging (with momentum afterwards), pans with the
secondary button or two fingers, and zooms with the wheel or a pinch. All of
this works on one mutable state record.

This project models that engine in four modules:

- `Geometry` (geometry.dfy): points and boxes over `real`.
  - The bounding-box fold, as a loop (`BoundingBox`) proved against a
    recursive definition (`Bounds`).
  - The normaliser's re-centring and rescaling (`Normalized`).
  - The start-up cube.
  - The two rotations, with the cosine and sine passed in.
  - The perspective projection.
- `ObjLoader` (objloader.dfy): the mesh loader.
  - Lines arrive already tokenised.
  - `ScanLines` is the loader's loop, with its edge key set.
  - It is proved to compute exactly `ParsedVertices` and `ParsedEdges`:
    the face edges walked cyclically, then deduplicated by unordered pair
    with the first occurrence kept.
  - The cyclic successor of a face index is written with a comparison and
    proved equal to the source's `(i + 1) % k` (`NextIsMod`).
- `Controls` (controls.dfy): the camera and input part of the state as a
  value (`View`).
  - One function per handler: press, move, release, wheel, touch start,
    touch move, fit, reset, and the physics of one frame.
  - The zoom clamp.
  - Closed forms for many idle frames.
  - An event-sequence invariant: the camera distance never leaves the zoom
    range.
- `Engine` (engine.dfy): class `Viewer`, the state record itself.
  - Each handler is a method that updates the fields in place, like the
    source. Its `modifies` clause names exactly the fields it writes.
  - Its `ensures` ties the new state to the `Controls` function of the old
    state.
  - `Valid`, the class invariant, is set up by the constructor and kept by
    every method: the camera distance is in the zoom range and the model
    is normalised to radius 1.

Behaviour of the code that the model keeps, and that a reader might not
expect:
- The physics step has no threshold that snaps a small velocity to zero:
  momentum shrinks by 5% per frame forever (`Controls.MomentumNeverRests`).
- Auto-rotation is part of the physics block, so it is skipped while
  dragging.
- A drag uses a speed of 0.01 per pixel. A drag of (10, 15) pixels turns the
  model by 0.15 about x and 0.1 about y, and sets the velocity to (0.15, 0.1)
  (`Controls.DragReleaseExample`).
- A face line with a single index yields the self-edge (i-1, i-1). A face
  line with no index yields nothing.
- The input state is two independent flags, not one mode, so both can be set
  at once.
  - A secondary press during a drag leaves both set. A pointer move, or a
    one-finger move, then rotates without panning
    (`Controls.DragWinsOverPan`, `Controls.OneFingerMoveEffect`).
  - A two-finger start during a drag also leaves both set. A two-finger
    move then pans and pinch-zooms but never rotates
    (`Controls.TwoFingerMoveEffect`).

## Model

| member | source | states |
|---|---|---|
| Geometry.BoundsSpec | main.js:67-73 | the folded box encloses every vertex and touches each of its six faces at some vertex |
| Geometry.BoundsUnique | main.js:67-73 | any box that encloses all vertices and is tight on every face is the folded box |
| Geometry.TightBoxesEqual | main.js:67-73 | two boxes that both enclose the vertices and touch them on all six faces are the same box |
| Geometry.BoundingBox | main.js:65-73 | the min/max loop over a non-empty vertex list returns exactly the enclosing tight box |
| Geometry.Normalized | main.js:64-87 | the normaliser keeps the vertex count; an empty list is returned unchanged |
| Geometry.AffineBounds | main.js:74-85 | re-centring and a positive scale map the bounding box corner to corner |
| Geometry.NormalizedBox | main.js:74-85 | after normalising, the box is centred on the origin on every axis and its largest extent is 2, or 0 when all vertices coincide |
| Geometry.ScaledAboutCenterBox | main.js:74-85 | scaling a box about its own centre by s > 0 centres it on the origin on every axis and multiplies its largest extent by s |
| Geometry.NormalizedDegenerate | main.js:79-85 | when all vertices coincide, so the size 0 is replaced by 1, every vertex is sent to the origin |
| Geometry.NormalizedFixedOrigin | main.js:79-85 | a list of vertices that are all the origin is left unchanged |
| Geometry.NormalizedFixedUnit | main.js:74-85 | a list whose box is centred on the origin with largest extent 2 is left unchanged |
| Geometry.NormalizedIdempotent | main.js:64-87 | normalising twice gives the same vertices as normalising once |
| Geometry.CubeBounds | main.js:104-117 | the start-up cube's bounding box runs from -1 to 1 on every axis |
| Geometry.CubeIsNormalized | main.js:104-117 | the start-up cube is a fixed point of the normaliser |
| Geometry.RotateX | main.js:144-147 | rotation about x leaves the x coordinate alone |
| Geometry.RotateY | main.js:149-152 | rotation about y leaves the y coordinate alone |
| Geometry.RotateXKeepsLength | main.js:144-147 | with a genuine cosine/sine pair, the distance from the x axis is preserved |
| Geometry.RotateYKeepsLength | main.js:149-152 | with a genuine cosine/sine pair, the distance from the y axis is preserved |
| Geometry.Project | main.js:130-142 | a point at or behind the camera plane goes to (0,0); otherwise the screen position minus centre and offset, times the depth, equals the coordinate times the field of view |
| Geometry.ProjectRoundTrip | main.js:130-142 | for a point in front of the camera, un-projecting at its depth gives the point back |
| Geometry.ProjectPans | main.js:139-140 | adding d to the pan offset moves every visible projected point by d |
| Geometry.ViewPointAtRest | main.js:401-404 | at angle zero the per-vertex pipeline (rotate about x, then y, then project) is the bare projection |
| Geometry.RotationOrderMatters | main.js:401-404 | rotating about x then y differs from y then x: with quarter turns the pipeline puts (0,1,0) at (-Fov/4, 0) from distance 4, while the other order would put it at (0, 0) |
| ObjLoader.Key | main.js:301 | the key has the smaller index first and is either the edge or its reverse |
| ObjLoader.KeyIsUnorderedPair | main.js:301 | two edges share a key exactly when they join the same two indices in either orientation |
| ObjLoader.AddEdgeSpec | main.js:300-305 | the key set grows by the edge's key; the list is kept as a prefix and grows by at most one; the edge is appended as given exactly when its key was new; uniqueness is preserved |
| ObjLoader.DedupKeys | main.js:300-305 | the kept list has no repeated unordered pair and has the same key set as the candidates |
| ObjLoader.DedupKeepsOnlyFirstOccurrences | main.js:300-305 | every kept edge is the first candidate with its key, in that candidate's orientation |
| ObjLoader.DedupKeepsEveryFirstOccurrence | main.js:300-305 | every candidate that is the first with its key is kept |
| ObjLoader.DedupGrows | main.js:300-305 | an edge kept from the candidates before the last one is still kept once the last one is added |
| ObjLoader.DedupKeepsFreshLast | main.js:300-305 | a last candidate whose key was not seen before is kept |
| ObjLoader.DedupPrefix | main.js:300-305 | what is kept from a prefix of the candidates is a prefix of what is kept from all of them, so kept edges stay in order of first appearance |
| ObjLoader.DedupOfUnique | main.js:300-305 | a candidate list with no repeated unordered pair is kept whole |
| ObjLoader.DedupIdempotent | main.js:300-305 | deduplicating the kept list again changes nothing |
| ObjLoader.ZeroBased | main.js:315 | each face index is turned from 1-based to 0-based |
| ObjLoader.FaceEdges | main.js:317-319 | a face of k indices contributes k edges, consecutive pairs then last to first |
| ObjLoader.NextIsMod | main.js:317-318 | the cyclic successor, written as a comparison, is (i + 1) mod k |
| ObjLoader.FaceEdgesAt | main.js:317-319 | the i-th face edge joins index i and index (i+1) mod k |
| ObjLoader.SingleIndexFaceIsSelfEdge | main.js:317-319 | a face with one index i yields the self-edge (i-1, i-1) |
| ObjLoader.RawEdgeHasLine | main.js:307-321 | every candidate edge comes from the face edges of some line |
| ObjLoader.LineEdgeIsRaw | main.js:307-321 | every edge of every face line is a candidate edge |
| ObjLoader.RawEdgesPrefix | main.js:307-321 | the candidates of a prefix of the lines are candidates of all the lines |
| ObjLoader.RawEdgesFromLines | main.js:307-321 | a candidate edge comes from some face line, and every face line's edges are candidates |
| ObjLoader.NoVertexWithoutVertexLine | main.js:311-312 | no vertex is read exactly when no line is a vertex line |
| ObjLoader.ParsedVerticesFromLines | main.js:311-312 | every vertex line's point is in the vertex list, and every listed vertex comes from a vertex line |
| ObjLoader.ParsedVertexCount | main.js:311-312 | a load reads exactly one vertex per vertex line |
| ObjLoader.ParsedVertexPositions | main.js:311-315 | the vertex line with j vertex lines before it gives vertex j, the one a face index of j + 1 refers to |
| ObjLoader.ParsedEdgesAreFacePairs | main.js:307-321 | every cyclic face pair of every face line is present by key, and every kept edge is such a pair in that face's orientation |
| ObjLoader.AddFaceEdges | main.js:314-319 | walking one face adds its edges to the running list and key set exactly as deduplicating the longer candidate list would |
| ObjLoader.ScanLines | main.js:295-321 | the line loop returns exactly the parsed vertices and the deduplicated edges |
| ObjLoader.TriangleLoad | main.js:294-321 | three vertex lines and the face 1 2 3 give three vertices and edges (0,1), (1,2), (2,0) |
| ObjLoader.SharedSideKeptOnce | main.js:294-321 | faces 1 2 3 and 3 2 4 give five edges; the shared side is kept once, as the first face walked it |
| Controls.Clamp | main.js:217-220 | the result is in [0.5, 50], equals the input when it is in range, and equals the nearer bound otherwise |
| Controls.ClampMonotone | main.js:217-220 | the clamp preserves order |
| Controls.ClampIdempotent | main.js:217-220 | clamping twice is clamping once |
| Controls.WheelZoom | main.js:216-221 | the distance after a wheel event is d + deltaY * 0.005 when that is in [0.5, 50], and the nearer bound otherwise |
| Controls.WheelZoomExample | main.js:216-221 | from distance 4, a wheel delta of 1000 gives 9, -1000 gives 0.5 and 100000 gives 50 |
| Controls.WheelZoomMonotone | main.js:216-221 | scrolling further down never gives a smaller distance |
| Controls.WheelZoomUndo | main.js:216-221 | an unclamped wheel step is undone by the opposite step |
| Controls.PinchZoom | main.js:277-285 | with no previous finger distance the camera stays put; otherwise the distance is d - (cur - last) * 0.1 when that is in [0.5, 50], and the nearer bound otherwise |
| Controls.PinchZoomExample | main.js:277-285 | from distance 4, fingers spreading from 100 to 110 apart give 3; with no previous distance nothing moves |
| Controls.PinchDirection | main.js:277-285 | spreading the fingers never moves the camera away, and pinching them never moves it closer |
| Controls.PinchZoomComposes | main.js:277-287 | two unclamped pinch steps equal one step over the whole change |
| Controls.HandleStartEffect | main.js:156-165 | a primary press sets dragging, records the point and zeroes velocity; a secondary press sets panning and records the point; neither touches the angle, distance, offset or the other flag |
| Controls.DragSetsMomentum | main.js:171-184 | a drag move sets velocity to (dy * 0.01, dx * 0.01) and adds exactly that to the angle, leaving the pan untouched |
| Controls.DragMovesCompose | main.js:171-184 | two drag moves turn the model as far as one move to the same point; the velocity reflects only the last step |
| Controls.PanFollowsPointer | main.js:185-193 | a pan move without a drag shifts the offset by the pointer's motion and leaves rotation and velocity alone |
| Controls.PanMovesCompose | main.js:185-193 | two pan moves equal one pan move to the final point |
| Controls.MoveAfterEndIsIgnored | main.js:167-201 | after a release, a pointer move changes nothing |
| Controls.DragWinsOverPan | main.js:156-193 | a secondary press during a drag leaves both flags set, and a move then rotates without panning |
| Controls.TouchStartEffect | main.js:227-245 | one finger is a primary press; two fingers set panning at their midpoint and record their distance without clearing a drag; other counts do nothing |
| Controls.TwoFingerMoveEffect | main.js:257-288 | a two-finger move records the new finger distance, pinch-zooms only if a previous distance is known, pans by the midpoint's motion only while panning, and never rotates |
| Controls.OneFingerMoveEffect | main.js:255-256 | one finger moves like the pointer while dragging and does nothing otherwise |
| Controls.TwoFingerHoldIsStill | main.js:229-288 | touching down with two fingers and moving them nowhere leaves distance, offset and angle as they were |
| Controls.ResetViewEffect | main.js:435-440 | reset zeroes angle, velocity and offset and puts the camera at distance 4; resetting twice is resetting once |
| Controls.PhysicsStepEffect | main.js:385-393 | while dragging a frame changes nothing; otherwise the angle advances by the velocity (plus the auto-rotate speed about y) and the velocity is multiplied by 0.95 |
| Controls.IdleFramesCoast | main.js:385-393 | n frames without a drag change only the angle and the velocity, and change them as n coasting steps with the auto-rotate speed as the turn about y |
| Controls.CoastVelocity | main.js:391-392 | after n coasting steps the velocity is v0 * 0.95^n on both axes |
| Controls.CoastAngle | main.js:386-390 | after n coasting steps the angle has moved by v0 * (1 + 0.95 + ... + 0.95^(n-1)), plus n turns about y |
| Controls.CoastPitch | main.js:386 | the x-angle part of Controls.CoastAngle |
| Controls.CoastYaw | main.js:387-390 | the y-angle part of Controls.CoastAngle, including the auto-rotate turns |
| Controls.PowBounds | main.js:391-392 | the decay factor after n frames lies in (0, 1], and is below 1 once a frame has passed |
| Controls.GeomSumClosedForm | main.js:385-393 | the sum of the decay factors over n frames is 20 * (1 - 0.95^n) |
| Controls.GeomSumBounds | main.js:385-393 | the sum of the decay factors over n frames is in [0, 20) |
| Controls.MomentumNeverRests | main.js:385-393 | without a snap to zero, a non-zero velocity stays non-zero after any number of frames, keeps its sign and never grows |
| Controls.CoastingIsBounded | main.js:385-393 | however many idle frames pass, momentum turns the model about x by at most 20 times the release velocity, in its direction; with auto-rotate off the same holds about y |
| Controls.CoastPitchBounded | main.js:386-392 | the x-angle after n coasting steps lies between the start and the start plus 20 times the x velocity |
| Controls.CoastYawBounded | main.js:387-392 | with no turn, the y-angle after n coasting steps lies between the start and the start plus 20 times the y velocity |
| Controls.DragReleaseExample | main.js:156-201 | from rest, a drag of (10,15) gives angle (0.15, 0.1); after release, one frame gives angle (0.3, 0.21) and velocity (0.1425, 0.095) |
| Controls.ApplyKeepsZoomRange | main.js:214-288 | any single event, reset or frame keeps the camera distance in [0.5, 50] |
| Controls.RunKeepsZoomRange | main.js:214-288 | whatever sequence of presses, moves, releases, wheel and touch events, resets and frames arrives, the camera distance stays in [0.5, 50] |
| Engine.Viewer.constructor | main.js:34-59 | the initial state: the unit cube with its twelve edges, angle and velocity zero, distance 4, no pan, auto-rotate on at 0.01, no gesture |
| Engine.Viewer.InitCube | main.js:104-118 | after installing the cube and normalising it, the vertices are the cube's corners and the radius is 1 |
| Engine.Viewer.NormalizeGeometry | main.js:64-87 | the vertices become the normalised list; the radius becomes 1 unless the list was empty |
| Engine.Viewer.FitToView | main.js:89-97 | distance becomes clamp(4 * radius), which is 4 for the normalised model, and offset and angle become zero |
| Engine.Viewer.ParseObj | main.js:294-332 | without a vertex line nothing changes; otherwise the vertices become the normalised parsed vertices, the edges the deduplicated face edges, angle and offset zero, distance 4, and the velocity is kept |
| Engine.Viewer.Install | main.js:323-328 | the success branch of the loader installs, normalises and fits |
| Engine.Viewer.HandleStart | main.js:156-165 | the fields change as Controls.HandleStart says |
| Engine.Viewer.HandleMove | main.js:167-195 | the fields change as Controls.HandleMove says |
| Engine.Viewer.HandleEnd | main.js:197-201 | both flags and the pinch distance are cleared |
| Engine.Viewer.Wheel | main.js:216-221 | the distance changes as Controls.Wheel says and stays in range |
| Engine.Viewer.TouchStart | main.js:227-245 | the fields change as Controls.TouchStart says |
| Engine.Viewer.TouchMove | main.js:250-289 | the fields change as Controls.TouchMove says and the distance stays in range |
| Engine.Viewer.ResetView | main.js:435-440 | the fields change as Controls.ResetView says |
| Engine.Viewer.Step | main.js:385-393 | angle and velocity change as Controls.PhysicsStep says |

## Left out

- DOM lookups, listener registration, `preventDefault`, canvas clearing and stroking, `resize`, the colour, thickness, background and panel controls, and the info text: host plumbing with no effect on the engine's state beyond the canvas size, which is a constructor parameter.
- The mousemove listener's guard: it calls `handleMove` only while a flag is set, and `handleMove` already does nothing otherwise.
- The zoom slider, auto-rotate checkbox, auto-rotate speed input and fit button listeners: each assigns one field straight from a form control. The fit button's body is `Engine.Viewer.FitToView`.
- Reading a file with `FileReader` and the preset mesh button with its `alert`: I/O and an external resource. `ParseObj` is what both feed.
- Tokenising the text and `parseFloat`/`parseInt`, including `NaN` from malformed numbers: lines arrive as `ObjLine` records with numbers already read. A `v` line with missing coordinates is not representable.
- Face indices are not checked against the vertex count, and negative or zero indices (which the OBJ format allows as relative references) become negative 0-based indices, as in the source. The drawing loop that would read those indices is not part of this model.
- `Math.cos` and `Math.sin`: the rotations take the cosine and sine as parameters. `Math.hypot`: the two-finger handlers take the finger distance as a parameter.
- IEEE floating point: coordinates and camera values are `real`, so rounding, overflow, `Infinity` and `NaN` are not modelled. The bounding-box fold starts from the first vertex instead of from plus and minus infinity, which gives the same box for a non-empty list (the source returns early on an empty one).
- The drawing part of each frame and `requestAnimationFrame`: one frame's physics is `Engine.Viewer.Step`, and the per-vertex projection is `Geometry.ViewPoint`.
- Engine.Viewer.constructor: installs the cube's edges directly with the initial state rather than inside `InitCube`; the source sets them in the same function as the cube's corners, and the result is the same.
