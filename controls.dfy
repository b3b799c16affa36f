/** The viewer's camera and input state and what each input event and each
    animation frame does to it, as pure functions on values. The class in
    engine.dfy performs the same updates in place on its fields. */
module Controls {
  import opened Geometry

  const ZoomMin: real := 0.5
  const ZoomMax: real := 50.0
  const ZoomSpeed: real := 0.005
  const PinchSpeed: real := 0.1
  const Friction: real := 0.95
  const DraggingSpeed: real := 0.01
  const InitialCamera: real := 4.0

  /** The transform and input parts of the viewer state: rotation angles
      (about x and about y), angular velocity, camera distance and pan
      offset, the auto-rotate setting, and the pointer bookkeeping. */
  datatype View = View(
    angle: Vec2,
    velocity: Vec2,
    distance: real,
    offset: Vec2,
    autoRotate: bool,
    autoRotateSpeed: real,
    isDragging: bool,
    isPanning: bool,
    lastMouse: Vec2,
    lastPan: Vec2,
    lastTouchDist: real)

  const InitialView: View :=
    View(Zero2, Zero2, InitialCamera, Zero2, true, 0.01, false, false, Zero2, Zero2, 0.0)

  /** Every zoom writes the camera distance through this clamp. */
  predicate InZoomRange(d: real) { ZoomMin <= d <= ZoomMax }

  function Clamp(d: real): (r: real)
    ensures InZoomRange(r)
    ensures InZoomRange(d) ==> r == d
    ensures d < ZoomMin ==> r == ZoomMin
    ensures d > ZoomMax ==> r == ZoomMax
  {
    Max(ZoomMin, Min(ZoomMax, d))
  }

  lemma ClampMonotone(a: real, b: real)
    requires a <= b
    ensures Clamp(a) <= Clamp(b)
  {
  }

  lemma ClampIdempotent(d: real)
    ensures Clamp(Clamp(d)) == Clamp(d)
  {
  }

  // ---------------------------------------------------------------------
  // Zoom

  /** The wheel moves the camera by deltaY * ZoomSpeed, then clamps. */
  function WheelZoom(d: real, deltaY: real): (r: real)
    ensures InZoomRange(r)
    ensures InZoomRange(d + deltaY * ZoomSpeed) ==> r == d + deltaY * ZoomSpeed
    ensures d + deltaY * ZoomSpeed < ZoomMin ==> r == ZoomMin
    ensures d + deltaY * ZoomSpeed > ZoomMax ==> r == ZoomMax
  {
    Clamp(d + deltaY * ZoomSpeed)
  }

  /** One notch of 1000 scroll units from the start-up distance moves the camera
      from 4 to 9; a huge scroll stops at the far end of the range. */
  lemma WheelZoomExample()
    ensures WheelZoom(InitialCamera, 1000.0) == 9.0
    ensures WheelZoom(InitialCamera, -1000.0) == ZoomMin
    ensures WheelZoom(InitialCamera, 100000.0) == ZoomMax
  {
  }

  /** Scrolling further down never brings the camera closer. */
  lemma WheelZoomMonotone(d: real, dy1: real, dy2: real)
    requires dy1 <= dy2
    ensures WheelZoom(d, dy1) <= WheelZoom(d, dy2)
  {
    ClampMonotone(d + dy1 * ZoomSpeed, d + dy2 * ZoomSpeed);
  }

  /** A wheel step that stays inside the range is undone by the opposite step. */
  lemma WheelZoomUndo(d: real, deltaY: real)
    requires InZoomRange(d) && InZoomRange(d + deltaY * ZoomSpeed)
    ensures WheelZoom(WheelZoom(d, deltaY), -deltaY) == d
  {
  }

  /** Pinch zoom: only when a previous finger distance is known (last > 0),
      the camera moves by -(cur - last) * PinchSpeed and is clamped. */
  function PinchZoom(d: real, last: real, cur: real): (r: real)
    ensures last <= 0.0 ==> r == d
    ensures last > 0.0 ==> InZoomRange(r)
    ensures last > 0.0 && InZoomRange(d - (cur - last) * PinchSpeed) ==> r == d - (cur - last) * PinchSpeed
    ensures last > 0.0 && d - (cur - last) * PinchSpeed < ZoomMin ==> r == ZoomMin
    ensures last > 0.0 && d - (cur - last) * PinchSpeed > ZoomMax ==> r == ZoomMax
    ensures InZoomRange(d) ==> InZoomRange(r)
  {
    if last > 0.0 then Clamp(d - (cur - last) * PinchSpeed) else d
  }

  /** Fingers 100 apart that spread to 110 bring the camera from 4 to 3. */
  lemma PinchZoomExample()
    ensures PinchZoom(InitialCamera, 100.0, 110.0) == 3.0
    ensures PinchZoom(InitialCamera, 0.0, 110.0) == InitialCamera
  {
  }

  /** Spreading the fingers moves the camera closer, pinching them moves it away. */
  lemma PinchDirection(d: real, last: real, cur: real)
    requires InZoomRange(d) && last > 0.0
    ensures cur >= last ==> PinchZoom(d, last, cur) <= d
    ensures cur <= last ==> PinchZoom(d, last, cur) >= d
  {
    if cur >= last {
      ClampMonotone(d - (cur - last) * PinchSpeed, d);
    } else {
      ClampMonotone(d, d - (cur - last) * PinchSpeed);
    }
  }

  /** Two pinch steps that stay inside the range add up to one. */
  lemma PinchZoomComposes(d: real, l: real, c1: real, c2: real)
    requires l > 0.0 && c1 > 0.0
    requires InZoomRange(d - (c1 - l) * PinchSpeed)
    requires InZoomRange(d - (c2 - l) * PinchSpeed)
    ensures PinchZoom(PinchZoom(d, l, c1), c1, c2) == PinchZoom(d, l, c2)
  {
    var d1 := d - (c1 - l) * PinchSpeed;
    assert PinchZoom(d, l, c1) == d1;
    assert d1 - (c2 - c1) * PinchSpeed == d - (c2 - l) * PinchSpeed;
  }

  // ---------------------------------------------------------------------
  // Pointer handlers

  /** Press: the secondary button starts a pan, any other a drag that
      also stops the momentum. */
  function HandleStart(v: View, p: Vec2, rightClick: bool): View
  {
    if rightClick then v.(isPanning := true, lastPan := p)
    else v.(isDragging := true, lastMouse := p, velocity := Zero2)
  }

  /** Move: a drag rotates (horizontal motion turns about y, vertical about x)
      and records that step as the velocity; a pan moves the offset; a drag
      takes priority when both flags are set. */
  function HandleMove(v: View, p: Vec2): View
  {
    if v.isDragging then
      var dx := p.x - v.lastMouse.x;
      var dy := p.y - v.lastMouse.y;
      v.(lastMouse := p,
         angle := Vec2(v.angle.x + dy * DraggingSpeed, v.angle.y + dx * DraggingSpeed),
         velocity := Vec2(dy * DraggingSpeed, dx * DraggingSpeed))
    else if v.isPanning then
      v.(lastPan := p, offset := Add2(v.offset, Sub2(p, v.lastPan)))
    else
      v
  }

  /** Release: both gestures end and the pinch distance is forgotten. */
  function HandleEnd(v: View): View
  {
    v.(isDragging := false, isPanning := false, lastTouchDist := 0.0)
  }

  function Wheel(v: View, deltaY: real): View
  {
    v.(distance := WheelZoom(v.distance, deltaY))
  }

  /** Touch start: one finger is a left press; two fingers start a pan at
      their midpoint and remember their distance; other counts do nothing. */
  function TouchStart(v: View, touches: seq<Vec2>, pinchDist: real): View
  {
    if |touches| == 1 then HandleStart(v, touches[0], false)
    else if |touches| == 2 then
      v.(isPanning := true, lastPan := Midpoint(touches[0], touches[1]), lastTouchDist := pinchDist)
    else v
  }

  /** Touch move: one finger while dragging is a pointer move; two fingers
      pan by their midpoint (while panning) and pinch-zoom. */
  function TouchMove(v: View, touches: seq<Vec2>, pinchDist: real): View
  {
    if |touches| == 1 && v.isDragging then HandleMove(v, touches[0])
    else if |touches| == 2 then
      var mid := Midpoint(touches[0], touches[1]);
      var v1 := if v.isPanning then v.(offset := Add2(v.offset, Sub2(mid, v.lastPan)), lastPan := mid) else v;
      v1.(distance := PinchZoom(v1.distance, v1.lastTouchDist, pinchDist), lastTouchDist := pinchDist)
    else v
  }

  /** Fit: camera at four model radii (clamped), no pan, no rotation. */
  function FitToView(v: View, radius: real): View
  {
    v.(distance := Clamp(radius * 4.0), offset := Zero2, angle := Zero2)
  }

  function ResetView(v: View, radius: real): View
  {
    FitToView(v.(angle := Zero2, velocity := Zero2, offset := Zero2), radius)
  }

  /** One animation frame: unless dragging, the angle advances by the
      velocity (plus the auto-rotate speed about y) and the velocity decays
      by the friction factor. There is no threshold below which it stops. */
  function PhysicsStep(v: View): View
  {
    if v.isDragging then v
    else
      var a := Vec2(v.angle.x + v.velocity.x, v.angle.y + v.velocity.y);
      var a' := if v.autoRotate then a.(y := a.y + v.autoRotateSpeed) else a;
      v.(angle := a', velocity := Vec2(v.velocity.x * Friction, v.velocity.y * Friction))
  }

  // ---------------------------------------------------------------------
  // Properties of the handlers

  /** Only the pointer fields the press names change. */
  lemma HandleStartEffect(v: View, p: Vec2, rightClick: bool)
    ensures var w := HandleStart(v, p, rightClick);
      && w.angle == v.angle && w.distance == v.distance && w.offset == v.offset
      && (rightClick ==> w.isPanning && w.lastPan == p && w.isDragging == v.isDragging && w.velocity == v.velocity)
      && (!rightClick ==> w.isDragging && w.lastMouse == p && w.velocity == Zero2 && w.isPanning == v.isPanning)
  {
  }

  /** While dragging, the angle moves by exactly the new velocity: letting
      go continues the last motion. */
  lemma DragSetsMomentum(v: View, p: Vec2)
    requires v.isDragging
    ensures var w := HandleMove(v, p);
      && w.velocity == Vec2((p.y - v.lastMouse.y) * DraggingSpeed, (p.x - v.lastMouse.x) * DraggingSpeed)
      && w.angle == Add2(v.angle, w.velocity) && w.offset == v.offset && w.lastPan == v.lastPan
  {
  }

  /** Two drag moves turn the model as far as one move over the same total
      distance; the velocity comes from the last step only. */
  lemma DragMovesCompose(v: View, p: Vec2, q: Vec2)
    requires v.isDragging
    ensures HandleMove(HandleMove(v, p), q).angle == HandleMove(v, q).angle
    ensures HandleMove(HandleMove(v, p), q).velocity
         == Vec2((q.y - p.y) * DraggingSpeed, (q.x - p.x) * DraggingSpeed)
  {
    var w := HandleMove(v, p);
    assert w.lastMouse == p;
    assert w.angle.x + (q.y - p.y) * DraggingSpeed == v.angle.x + (q.y - v.lastMouse.y) * DraggingSpeed;
    assert w.angle.y + (q.x - p.x) * DraggingSpeed == v.angle.y + (q.x - v.lastMouse.x) * DraggingSpeed;
  }

  /** A pan follows the pointer: the offset moves with it, and rotation is
      untouched. */
  lemma PanFollowsPointer(v: View, p: Vec2)
    requires !v.isDragging && v.isPanning
    ensures var w := HandleMove(v, p);
      && Sub2(w.offset, v.offset) == Sub2(p, v.lastPan)
      && w.angle == v.angle && w.velocity == v.velocity && w.lastPan == p
  {
  }

  lemma PanMovesCompose(v: View, p: Vec2, q: Vec2)
    requires !v.isDragging && v.isPanning
    ensures HandleMove(HandleMove(v, p), q) == HandleMove(v, q)
  {
    var w := HandleMove(v, p);
    assert Add2(w.offset, Sub2(q, p)) == Add2(v.offset, Sub2(q, v.lastPan));
  }

  /** After a release, moving the pointer changes nothing. */
  lemma MoveAfterEndIsIgnored(v: View, p: Vec2)
    ensures HandleMove(HandleEnd(v), p) == HandleEnd(v)
  {
  }

  /** Touching down with two fingers and moving them nowhere leaves the
      camera where it was. */
  lemma TwoFingerHoldIsStill(v: View, t1: Vec2, t2: Vec2, dist: real)
    requires InZoomRange(v.distance)
    ensures var w := TouchMove(TouchStart(v, [t1, t2], dist), [t1, t2], dist);
      w.distance == v.distance && w.offset == v.offset && w.angle == v.angle
  {
    var s := TouchStart(v, [t1, t2], dist);
    assert s.isPanning && s.lastPan == Midpoint(t1, t2);
    assert Add2(v.offset, Sub2(Midpoint(t1, t2), Midpoint(t1, t2))) == v.offset;
  }

  /** A right press while dragging leaves the drag on, and a move then
      rotates rather than pans. */
  lemma DragWinsOverPan(v: View, p: Vec2, q: Vec2, r: Vec2)
    ensures var both := HandleStart(HandleStart(v, p, false), q, true);
      && both.isDragging && both.isPanning
      && HandleMove(both, r).offset == v.offset
      && HandleMove(both, r).angle
         == Vec2(v.angle.x + (r.y - p.y) * DraggingSpeed, v.angle.y + (r.x - p.x) * DraggingSpeed)
  {
  }

  /** One finger is a primary press; two fingers start a pan at their
      midpoint without ending a drag already under way; other counts do
      nothing. */
  lemma TouchStartEffect(v: View, touches: seq<Vec2>, pinchDist: real)
    ensures |touches| == 1 ==> TouchStart(v, touches, pinchDist) == HandleStart(v, touches[0], false)
    ensures |touches| == 2 ==>
      var w := TouchStart(v, touches, pinchDist);
      && w.isPanning && w.isDragging == v.isDragging
      && w.lastPan == Midpoint(touches[0], touches[1]) && w.lastTouchDist == pinchDist
      && w.velocity == v.velocity && w.angle == v.angle
    ensures |touches| != 1 && |touches| != 2 ==> TouchStart(v, touches, pinchDist) == v
  {
  }

  /** A two-finger move always records the new finger distance; it zooms
      only if a previous distance is known, and pans by the midpoint's motion
      only while panning. Rotation is never touched. */
  lemma TwoFingerMoveEffect(v: View, touches: seq<Vec2>, pinchDist: real)
    requires |touches| == 2
    ensures var w := TouchMove(v, touches, pinchDist);
      && w.lastTouchDist == pinchDist
      && w.distance == PinchZoom(v.distance, v.lastTouchDist, pinchDist)
      && (v.lastTouchDist <= 0.0 ==> w.distance == v.distance)
      && (v.isPanning ==> Sub2(w.offset, v.offset) == Sub2(Midpoint(touches[0], touches[1]), v.lastPan))
      && (!v.isPanning ==> w.offset == v.offset)
      && w.angle == v.angle && w.velocity == v.velocity
  {
  }

  /** One finger moves like the pointer while dragging and does nothing
      otherwise. */
  lemma OneFingerMoveEffect(v: View, t: Vec2, pinchDist: real)
    ensures TouchMove(v, [t], pinchDist) == (if v.isDragging then HandleMove(v, t) else v)
  {
  }

  /** Reset: no rotation, no momentum, no pan, camera at four radii. */
  lemma ResetViewEffect(v: View)
    ensures var w := ResetView(v, 1.0);
      && w.angle == Zero2 && w.velocity == Zero2 && w.offset == Zero2
      && w.distance == InitialCamera
      && w.isDragging == v.isDragging && w.isPanning == v.isPanning
    ensures ResetView(ResetView(v, 1.0), 1.0) == ResetView(v, 1.0)
  {
  }

  /** While dragging a frame changes nothing; otherwise the angle advances by
      the old velocity and the velocity shrinks by the friction factor. */
  lemma PhysicsStepEffect(v: View)
    ensures v.isDragging ==> PhysicsStep(v) == v
    ensures !v.isDragging ==>
      var w := PhysicsStep(v);
      && w.velocity == Vec2(v.velocity.x * Friction, v.velocity.y * Friction)
      && w.angle.x == v.angle.x + v.velocity.x
      && w.angle.y == v.angle.y + v.velocity.y + (if v.autoRotate then v.autoRotateSpeed else 0.0)
      && w.distance == v.distance && w.offset == v.offset
  {
  }

  // ---------------------------------------------------------------------
  // Momentum over many frames

  function Pow(b: real, n: nat): real
  {
    if n == 0 then 1.0 else Pow(b, n - 1) * b
  }

  /** Sum of Friction^k for k < n: how many velocities' worth the angle
      travels in n idle frames. */
  function GeomSum(n: nat): real
  {
    if n == 0 then 0.0 else GeomSum(n - 1) + Pow(Friction, n - 1)
  }

  function IdleFrames(v: View, n: nat): View
  {
    if n == 0 then v else PhysicsStep(IdleFrames(v, n - 1))
  }

  /** The part of the state an idle frame changes. */
  datatype Spin = Spin(angle: Vec2, velocity: Vec2)

  /** The yaw auto-rotation adds in each idle frame. */
  function AutoStep(v: View): real
  {
    if v.autoRotate then v.autoRotateSpeed else 0.0
  }

  /** n idle frames on the angle and velocity alone, `turn` being the
      auto-rotation per frame. */
  function Coast(s: Spin, turn: real, n: nat): Spin
  {
    if n == 0 then s
    else
      var c := Coast(s, turn, n - 1);
      Spin(Vec2(c.angle.x + c.velocity.x, c.angle.y + c.velocity.y + turn),
           Vec2(c.velocity.x * Friction, c.velocity.y * Friction))
  }

  /** Idle frames change only the angle and the velocity, and change them
      as Coast does. */
  lemma {:induction false} IdleFramesCoast(v: View, n: nat)
    requires !v.isDragging
    ensures var c := Coast(Spin(v.angle, v.velocity), AutoStep(v), n);
      IdleFrames(v, n) == v.(angle := c.angle, velocity := c.velocity)
  {
    if n > 0 {
      IdleFramesCoast(v, n - 1);
    }
  }

  lemma MulAssoc(a: real, b: real, c: real)
    ensures a * b * c == a * (b * c)
  {
  }

  lemma MulAddStep(a: real, g: real, p: real)
    ensures a * g + a * p == a * (g + p)
  {
  }

  lemma {:induction false} CoastVelocity(s: Spin, turn: real, n: nat)
    ensures Coast(s, turn, n).velocity == Vec2(s.velocity.x * Pow(Friction, n), s.velocity.y * Pow(Friction, n))
  {
    if n > 0 {
      CoastVelocity(s, turn, n - 1);
      MulAssoc(s.velocity.x, Pow(Friction, n - 1), Friction);
      MulAssoc(s.velocity.y, Pow(Friction, n - 1), Friction);
    }
  }

  lemma CoastAngle(s: Spin, turn: real, n: nat)
    ensures Coast(s, turn, n).angle.x == s.angle.x + s.velocity.x * GeomSum(n)
    ensures Coast(s, turn, n).angle.y == s.angle.y + s.velocity.y * GeomSum(n) + (n as real) * turn
  {
    CoastPitch(s, turn, n);
    CoastYaw(s, turn, n);
  }

  lemma {:induction false} CoastPitch(s: Spin, turn: real, n: nat)
    ensures Coast(s, turn, n).angle.x == s.angle.x + s.velocity.x * GeomSum(n)
  {
    if n > 0 {
      CoastPitch(s, turn, n - 1);
      CoastVelocity(s, turn, n - 1);
      MulAddStep(s.velocity.x, GeomSum(n - 1), Pow(Friction, n - 1));
    }
  }

  lemma {:induction false} CoastYaw(s: Spin, turn: real, n: nat)
    ensures Coast(s, turn, n).angle.y == s.angle.y + s.velocity.y * GeomSum(n) + (n as real) * turn
  {
    if n > 0 {
      CoastYaw(s, turn, n - 1);
      CoastVelocity(s, turn, n - 1);
      MulAddStep(s.velocity.y, GeomSum(n - 1), Pow(Friction, n - 1));
      MulAddStep(turn, (n - 1) as real, 1.0);
    }
  }

  lemma {:induction false} PowBounds(n: nat)
    ensures 0.0 < Pow(Friction, n) <= 1.0
    ensures n > 0 ==> Pow(Friction, n) < 1.0
  {
    if n > 0 {
      PowBounds(n - 1);
    }
  }

  /** 1 + 0.95 + ... + 0.95^(n-1) = 20 * (1 - 0.95^n). */
  lemma {:induction false} GeomSumClosedForm(n: nat)
    ensures GeomSum(n) == 20.0 * (1.0 - Pow(Friction, n))
  {
    if n > 0 {
      GeomSumClosedForm(n - 1);
    }
  }

  lemma GeomSumBounds(n: nat)
    ensures 0.0 <= GeomSum(n) < 20.0
  {
    GeomSumClosedForm(n);
    PowBounds(n);
  }

  lemma SignOfScaled(a: real, p: real)
    requires 0.0 < p <= 1.0
    ensures a != 0.0 <==> a * p != 0.0
    ensures a >= 0.0 ==> 0.0 <= a * p <= a
    ensures a <= 0.0 ==> a <= a * p <= 0.0
  {
    if a > 0.0 {
      assert a * p <= a * 1.0;
    } else if a < 0.0 {
      assert a * p >= a * 1.0;
    }
  }

  lemma ScaledBetween(a: real, g: real)
    requires 0.0 <= g <= 20.0
    ensures a >= 0.0 ==> 0.0 <= a * g <= 20.0 * a
    ensures a <= 0.0 ==> 20.0 * a <= a * g <= 0.0
  {
    if a >= 0.0 {
      assert a * g <= a * 20.0;
    } else {
      assert a * g >= a * 20.0;
    }
  }

  /** Momentum decays but never reaches zero: each frame keeps 95% of it,
      with its sign. */
  lemma MomentumNeverRests(v: View, n: nat)
    requires !v.isDragging
    ensures var w := IdleFrames(v, n);
      && (v.velocity.x != 0.0 <==> w.velocity.x != 0.0)
      && (v.velocity.y != 0.0 <==> w.velocity.y != 0.0)
      && (v.velocity.x >= 0.0 ==> 0.0 <= w.velocity.x <= v.velocity.x)
      && (v.velocity.x <= 0.0 ==> v.velocity.x <= w.velocity.x <= 0.0)
      && (v.velocity.y >= 0.0 ==> 0.0 <= w.velocity.y <= v.velocity.y)
      && (v.velocity.y <= 0.0 ==> v.velocity.y <= w.velocity.y <= 0.0)
  {
    var s := Spin(v.angle, v.velocity);
    var c := Coast(s, AutoStep(v), n);
    IdleFramesCoast(v, n);
    assert IdleFrames(v, n).velocity == c.velocity;
    CoastVelocity(s, AutoStep(v), n);
    PowBounds(n);
    SignOfScaled(v.velocity.x, Pow(Friction, n));
    SignOfScaled(v.velocity.y, Pow(Friction, n));
  }

  /** However long the model coasts, momentum alone turns it about x by at
      most twenty times the release velocity, and, with auto-rotate off,
      about y as well. */
  lemma CoastingIsBounded(v: View, n: nat)
    requires !v.isDragging
    ensures var w := IdleFrames(v, n);
      && (v.velocity.x >= 0.0 ==> v.angle.x <= w.angle.x <= v.angle.x + 20.0 * v.velocity.x)
      && (v.velocity.x <= 0.0 ==> v.angle.x + 20.0 * v.velocity.x <= w.angle.x <= v.angle.x)
    ensures var w := IdleFrames(v, n);
      && (!v.autoRotate && v.velocity.y >= 0.0 ==> v.angle.y <= w.angle.y <= v.angle.y + 20.0 * v.velocity.y)
      && (!v.autoRotate && v.velocity.y <= 0.0 ==> v.angle.y + 20.0 * v.velocity.y <= w.angle.y <= v.angle.y)
  {
    var s := Spin(v.angle, v.velocity);
    IdleFramesCoast(v, n);
    assert IdleFrames(v, n).angle == Coast(s, AutoStep(v), n).angle;
    CoastPitchBounded(s, AutoStep(v), n);
    if !v.autoRotate {
      assert AutoStep(v) == 0.0;
      CoastYawBounded(s, n);
    }
  }

  lemma CoastPitchBounded(s: Spin, turn: real, n: nat)
    ensures var a := Coast(s, turn, n).angle.x;
      && (s.velocity.x >= 0.0 ==> s.angle.x <= a <= s.angle.x + 20.0 * s.velocity.x)
      && (s.velocity.x <= 0.0 ==> s.angle.x + 20.0 * s.velocity.x <= a <= s.angle.x)
  {
    CoastPitch(s, turn, n);
    GeomSumBounds(n);
    ScaledBetween(s.velocity.x, GeomSum(n));
  }

  /** With no turn, the yaw obeys the same bound as the pitch. */
  lemma CoastYawBounded(s: Spin, n: nat)
    ensures var a := Coast(s, 0.0, n).angle.y;
      && (s.velocity.y >= 0.0 ==> s.angle.y <= a <= s.angle.y + 20.0 * s.velocity.y)
      && (s.velocity.y <= 0.0 ==> s.angle.y + 20.0 * s.velocity.y <= a <= s.angle.y)
  {
    CoastYaw(s, 0.0, n);
    var vy, g := s.velocity.y, GeomSum(n);
    assert (n as real) * 0.0 == 0.0;
    assert Coast(s, 0.0, n).angle.y == s.angle.y + vy * g;
    GeomSumBounds(n);
    ScaledBetween(vy, g);
  }

  /** A drag of (10, 15) pixels from rest turns the model by 0.15 about x and
      0.1 about y; after release, one frame with auto-rotate adds the same
      step again plus 0.01 about y and keeps 95% of the velocity. */
  lemma DragReleaseExample()
    ensures var pressed := HandleStart(InitialView, Vec2(100.0, 100.0), false);
      var moved := HandleMove(pressed, Vec2(110.0, 115.0));
      var coasting := PhysicsStep(HandleEnd(moved));
      && moved.angle == Vec2(0.15, 0.1) && moved.velocity == Vec2(0.15, 0.1)
      && coasting.angle == Vec2(0.3, 0.21) && coasting.velocity == Vec2(0.1425, 0.095)
  {
  }

  // ---------------------------------------------------------------------
  // Event sequences

  /** The events the viewer listens to, with the inputs they carry. */
  datatype Event =
    | Press(p: Vec2, rightClick: bool)
    | Move(p: Vec2)
    | Release
    | Scroll(deltaY: real)
    | Touch(touches: seq<Vec2>, pinchDist: real)
    | TouchDrag(touches: seq<Vec2>, pinchDist: real)
    | Reset
    | Frame

  function Apply(v: View, e: Event, radius: real): View
  {
    match e
    case Press(p, right) => HandleStart(v, p, right)
    case Move(p) => HandleMove(v, p)
    case Release => HandleEnd(v)
    case Scroll(dy) => Wheel(v, dy)
    case Touch(ts, d) => TouchStart(v, ts, d)
    case TouchDrag(ts, d) => TouchMove(v, ts, d)
    case Reset => ResetView(v, radius)
    case Frame => PhysicsStep(v)
  }

  function Run(v: View, es: seq<Event>, radius: real): View
  {
    if |es| == 0 then v else Apply(Run(v, es[..|es| - 1], radius), es[|es| - 1], radius)
  }

  lemma ApplyKeepsZoomRange(v: View, e: Event, radius: real)
    requires InZoomRange(v.distance)
    ensures InZoomRange(Apply(v, e, radius).distance)
  {
  }

  /** Whatever events arrive, the camera distance stays within the zoom range. */
  lemma {:induction false} RunKeepsZoomRange(v: View, es: seq<Event>, radius: real)
    requires InZoomRange(v.distance)
    ensures InZoomRange(Run(v, es, radius).distance)
  {
    if |es| > 0 {
      RunKeepsZoomRange(v, es[..|es| - 1], radius);
      ApplyKeepsZoomRange(Run(v, es[..|es| - 1], radius), es[|es| - 1], radius);
    }
  }
}
