/** Points, the axis-aligned bounding box, the geometry normaliser and the
    per-vertex transform pipeline (rotation and perspective projection) of the
    wireframe viewer. Coordinates are real numbers. */
module Geometry {

  datatype Vec3 = Vec3(x: real, y: real, z: real)
  datatype Vec2 = Vec2(x: real, y: real)

  const Origin: Vec3 := Vec3(0.0, 0.0, 0.0)
  const Zero2: Vec2 := Vec2(0.0, 0.0)

  /** Focal length of the perspective projection, in pixels. */
  const Fov: real := 350.0

  function Min(a: real, b: real): real { if a <= b then a else b }
  function Max(a: real, b: real): real { if a >= b then a else b }

  function Add2(a: Vec2, b: Vec2): Vec2 { Vec2(a.x + b.x, a.y + b.y) }
  function Sub2(a: Vec2, b: Vec2): Vec2 { Vec2(a.x - b.x, a.y - b.y) }
  function Midpoint(a: Vec2, b: Vec2): Vec2 { Vec2((a.x + b.x) / 2.0, (a.y + b.y) / 2.0) }

  // ---------------------------------------------------------------------------
  // Bounding box
  // ---------------------------------------------------------------------------

  datatype Box = Box(lo: Vec3, hi: Vec3)

  /** Every vertex lies inside `b` on every axis. */
  predicate Encloses(b: Box, vs: seq<Vec3>)
  {
    forall i :: 0 <= i < |vs| ==>
      b.lo.x <= vs[i].x <= b.hi.x && b.lo.y <= vs[i].y <= b.hi.y && b.lo.z <= vs[i].z <= b.hi.z
  }

  /** Each of the six faces of `b` touches some vertex, so no smaller box encloses `vs`. */
  predicate Tight(b: Box, vs: seq<Vec3>)
  {
    && (exists i :: 0 <= i < |vs| && vs[i].x == b.lo.x)
    && (exists i :: 0 <= i < |vs| && vs[i].y == b.lo.y)
    && (exists i :: 0 <= i < |vs| && vs[i].z == b.lo.z)
    && (exists i :: 0 <= i < |vs| && vs[i].x == b.hi.x)
    && (exists i :: 0 <= i < |vs| && vs[i].y == b.hi.y)
    && (exists i :: 0 <= i < |vs| && vs[i].z == b.hi.z)
  }

  /** One step of the min/max fold: widen `b` so that it also holds `v`. */
  function Include(b: Box, v: Vec3): Box
  {
    Box(Vec3(Min(b.lo.x, v.x), Min(b.lo.y, v.y), Min(b.lo.z, v.z)),
        Vec3(Max(b.hi.x, v.x), Max(b.hi.y, v.y), Max(b.hi.z, v.z)))
  }

  /** The min/max fold over the vertices, in order. */
  function Bounds(vs: seq<Vec3>): Box
    requires |vs| > 0
    decreases |vs|
  {
    if |vs| == 1 then Box(vs[0], vs[0])
    else Include(Bounds(vs[..|vs| - 1]), vs[|vs| - 1])
  }

  /** The fold yields an enclosing box that touches the vertices on all six
      faces. */
  lemma {:induction false} BoundsSpec(vs: seq<Vec3>)
    requires |vs| > 0
    ensures Encloses(Bounds(vs), vs) && Tight(Bounds(vs), vs)
    decreases |vs|
  {
    if |vs| > 1 {
      var prefix := vs[..|vs| - 1];
      BoundsSpec(prefix);
      assert vs == prefix + [vs[|vs| - 1]];
      IncludeEncloses(Bounds(prefix), prefix, vs[|vs| - 1]);
      IncludeTight(Bounds(prefix), prefix, vs[|vs| - 1]);
    }
  }

  lemma IncludeEncloses(b: Box, vs: seq<Vec3>, v: Vec3)
    requires Encloses(b, vs)
    ensures Encloses(Include(b, v), vs + [v])
  {
    var nb, ws := Include(b, v), vs + [v];
    forall i | 0 <= i < |ws|
      ensures nb.lo.x <= ws[i].x <= nb.hi.x && nb.lo.y <= ws[i].y <= nb.hi.y && nb.lo.z <= ws[i].z <= nb.hi.z
    {
      if i < |vs| {
        assert ws[i] == vs[i];
      }
    }
  }

  lemma IncludeTight(b: Box, vs: seq<Vec3>, v: Vec3)
    requires Tight(b, vs)
    ensures Tight(Include(b, v), vs + [v])
  {
    var ws := vs + [v];
    assert ws[|vs|] == v;
    assert forall i :: 0 <= i < |vs| ==> ws[i] == vs[i];
  }

  /** A box that encloses the vertices and touches them on all six faces is the
      one the fold computes. */
  lemma BoundsUnique(b: Box, vs: seq<Vec3>)
    requires |vs| > 0 && Encloses(b, vs) && Tight(b, vs)
    ensures b == Bounds(vs)
  {
    BoundsSpec(vs);
    TightBoxesEqual(b, Bounds(vs), vs);
  }

  /** Two enclosing boxes that both touch the vertices on all six faces are equal. */
  lemma TightBoxesEqual(b: Box, c: Box, vs: seq<Vec3>)
    requires Encloses(b, vs) && Tight(b, vs) && Encloses(c, vs) && Tight(c, vs)
    ensures b == c
  {
    TightLowCorner(b, c, vs);
    TightLowCorner(c, b, vs);
    TightHighCorner(b, c, vs);
    TightHighCorner(c, b, vs);
  }

  lemma TightLowCorner(b: Box, c: Box, vs: seq<Vec3>)
    requires Encloses(b, vs) && Tight(c, vs)
    ensures b.lo.x <= c.lo.x && b.lo.y <= c.lo.y && b.lo.z <= c.lo.z
  {
    var i :| 0 <= i < |vs| && vs[i].x == c.lo.x;
    var j :| 0 <= j < |vs| && vs[j].y == c.lo.y;
    var k :| 0 <= k < |vs| && vs[k].z == c.lo.z;
  }

  lemma TightHighCorner(b: Box, c: Box, vs: seq<Vec3>)
    requires Encloses(b, vs) && Tight(c, vs)
    ensures c.hi.x <= b.hi.x && c.hi.y <= b.hi.y && c.hi.z <= b.hi.z
  {
    var i :| 0 <= i < |vs| && vs[i].x == c.hi.x;
    var j :| 0 <= j < |vs| && vs[j].y == c.hi.y;
    var k :| 0 <= k < |vs| && vs[k].z == c.hi.z;
  }

  /** The loop of the normaliser that folds Math.min/Math.max over every
      vertex. The source starts from +/-Infinity; starting from the first vertex
      gives the same box because the list is not empty here. */
  method BoundingBox(vs: seq<Vec3>) returns (box: Box)
    requires |vs| > 0
    ensures box == Bounds(vs)
  {
    var lo, hi := vs[0], vs[0];
    var i := 1;
    while i < |vs|
      invariant 1 <= i <= |vs|
      invariant Box(lo, hi) == Bounds(vs[..i])
    {
      var v := vs[i];
      assert vs[..i + 1][..i] == vs[..i];
      lo := Vec3(Min(lo.x, v.x), Min(lo.y, v.y), Min(lo.z, v.z));
      hi := Vec3(Max(hi.x, v.x), Max(hi.y, v.y), Max(hi.z, v.z));
      i := i + 1;
    }
    assert vs[..i] == vs;
    box := Box(lo, hi);
  }

  function Center(b: Box): Vec3
  {
    Vec3((b.lo.x + b.hi.x) / 2.0, (b.lo.y + b.hi.y) / 2.0, (b.lo.z + b.hi.z) / 2.0)
  }

  /** The largest axis extent of the box. */
  function Size(b: Box): real
  {
    Max(b.hi.x - b.lo.x, Max(b.hi.y - b.lo.y, b.hi.z - b.lo.z))
  }

  /** `size || 1`: a zero size is replaced by 1 so that the scale stays finite. */
  function Divisor(b: Box): real
  {
    if Size(b) == 0.0 then 1.0 else Size(b)
  }

  // ---------------------------------------------------------------------------
  // Normaliser
  // ---------------------------------------------------------------------------

  function AffinePoint(v: Vec3, c: Vec3, s: real): Vec3
  {
    Vec3((v.x - c.x) * s, (v.y - c.y) * s, (v.z - c.z) * s)
  }

  /** `vertices.map(v => (v - c) * s)`. */
  function Affine(vs: seq<Vec3>, c: Vec3, s: real): (r: seq<Vec3>)
    ensures |r| == |vs|
  {
    seq(|vs|, i requires 0 <= i < |vs| => AffinePoint(vs[i], c, s))
  }

  /** The vertex list the normaliser leaves behind: unchanged when empty,
      otherwise re-centred on the bounding-box midpoint and scaled by 2 / size. */
  function Normalized(vs: seq<Vec3>): (r: seq<Vec3>)
    ensures |r| == |vs|
  {
    if |vs| == 0 then vs
    else
      var b := Bounds(vs);
      Affine(vs, Center(b), 2.0 / Divisor(b))
  }

  lemma MulMono(a: real, b: real, s: real)
    requires a <= b && s > 0.0
    ensures a * s <= b * s
  {}

  /** `v -> (v - c) * s` with positive `s` keeps a point between two others,
      axis by axis. */
  lemma AffinePointBetween(lo: Vec3, v: Vec3, hi: Vec3, c: Vec3, s: real)
    requires lo.x <= v.x <= hi.x && lo.y <= v.y <= hi.y && lo.z <= v.z <= hi.z && s > 0.0
    ensures var l, w, h := AffinePoint(lo, c, s), AffinePoint(v, c, s), AffinePoint(hi, c, s);
      l.x <= w.x <= h.x && l.y <= w.y <= h.y && l.z <= w.z <= h.z
  {
    AxisBetween(lo.x, v.x, hi.x, c.x, s);
    AxisBetween(lo.y, v.y, hi.y, c.y, s);
    AxisBetween(lo.z, v.z, hi.z, c.z, s);
  }

  lemma AxisBetween(lo: real, v: real, hi: real, c: real, s: real)
    requires lo <= v <= hi && s > 0.0
    ensures (lo - c) * s <= (v - c) * s <= (hi - c) * s
  {
    MulMono(lo - c, v - c, s);
    MulMono(v - c, hi - c, s);
  }

  lemma AffineEncloses(vs: seq<Vec3>, b: Box, c: Vec3, s: real)
    requires Encloses(b, vs) && s > 0.0
    ensures Encloses(Box(AffinePoint(b.lo, c, s), AffinePoint(b.hi, c, s)), Affine(vs, c, s))
  {
    var ws := Affine(vs, c, s);
    var nb := Box(AffinePoint(b.lo, c, s), AffinePoint(b.hi, c, s));
    forall i | 0 <= i < |ws|
      ensures nb.lo.x <= ws[i].x <= nb.hi.x && nb.lo.y <= ws[i].y <= nb.hi.y && nb.lo.z <= ws[i].z <= nb.hi.z
    {
      AffinePointBetween(b.lo, vs[i], b.hi, c, s);
    }
  }

  /** A vertex on a face of `b` is sent onto the same face of the image box. */
  lemma AffineTight(vs: seq<Vec3>, b: Box, c: Vec3, s: real)
    requires Tight(b, vs)
    ensures Tight(Box(AffinePoint(b.lo, c, s), AffinePoint(b.hi, c, s)), Affine(vs, c, s))
  {
    var ws := Affine(vs, c, s);
    var lo, hi := AffinePoint(b.lo, c, s), AffinePoint(b.hi, c, s);
    var i0 :| 0 <= i0 < |vs| && vs[i0].x == b.lo.x;
    var i1 :| 0 <= i1 < |vs| && vs[i1].y == b.lo.y;
    var i2 :| 0 <= i2 < |vs| && vs[i2].z == b.lo.z;
    var j0 :| 0 <= j0 < |vs| && vs[j0].x == b.hi.x;
    var j1 :| 0 <= j1 < |vs| && vs[j1].y == b.hi.y;
    var j2 :| 0 <= j2 < |vs| && vs[j2].z == b.hi.z;
    AffineSameAxes(vs[i0], b.lo, c, s);
    AffineSameAxes(vs[i1], b.lo, c, s);
    AffineSameAxes(vs[i2], b.lo, c, s);
    AffineSameAxes(vs[j0], b.hi, c, s);
    AffineSameAxes(vs[j1], b.hi, c, s);
    AffineSameAxes(vs[j2], b.hi, c, s);
    assert ws[i0].x == lo.x && ws[i1].y == lo.y && ws[i2].z == lo.z;
    assert ws[j0].x == hi.x && ws[j1].y == hi.y && ws[j2].z == hi.z;
  }

  /** Points that agree on an axis still agree there after the map. */
  lemma AffineSameAxes(u: Vec3, v: Vec3, c: Vec3, s: real)
    ensures u.x == v.x ==> AffinePoint(u, c, s).x == AffinePoint(v, c, s).x
    ensures u.y == v.y ==> AffinePoint(u, c, s).y == AffinePoint(v, c, s).y
    ensures u.z == v.z ==> AffinePoint(u, c, s).z == AffinePoint(v, c, s).z
  {}

  /** A map `v -> (v - c) * s` with positive `s` moves the tight box along with
      the vertices. */
  lemma AffineBounds(vs: seq<Vec3>, c: Vec3, s: real)
    requires |vs| > 0 && s > 0.0
    ensures Bounds(Affine(vs, c, s)) == Box(AffinePoint(Bounds(vs).lo, c, s), AffinePoint(Bounds(vs).hi, c, s))
  {
    var b := Bounds(vs);
    BoundsSpec(vs);
    AffineEncloses(vs, b, c, s);
    AffineTight(vs, b, c, s);
    BoundsUnique(Box(AffinePoint(b.lo, c, s), AffinePoint(b.hi, c, s)), Affine(vs, c, s));
  }

  lemma MaxScale(a: real, b: real, s: real)
    requires s > 0.0
    ensures Max(a * s, b * s) == Max(a, b) * s
  {
    if a <= b { MulMono(a, b, s); } else { MulMono(b, a, s); }
  }

  /** On one axis: mapping [lo, hi] through `v -> (v - mid) * s` gives an
      interval centred on 0 whose length is scaled by `s`. */
  lemma AxisCentred(lo: real, hi: real, s: real)
    ensures var c := (lo + hi) / 2.0;
      && (lo - c) * s + (hi - c) * s == 0.0
      && (hi - c) * s - (lo - c) * s == (hi - lo) * s
  {
    var c := (lo + hi) / 2.0;
    assert (lo - c) * s + (hi - c) * s == (lo + hi - 2.0 * c) * s;
    assert (hi - c) * s - (lo - c) * s == (hi - lo) * s;
  }

  lemma ScaleToTwo(size: real)
    requires size > 0.0
    ensures size * (2.0 / size) == 2.0
  {}

  /** The box the normaliser maps the bounding box `b` to. */
  function NormalizedBoxOf(b: Box): Box
  {
    var c := Center(b);
    var s := 2.0 / Divisor(b);
    Box(AffinePoint(b.lo, c, s), AffinePoint(b.hi, c, s))
  }

  /** The image of `b` under `v -> (v - Center(b)) * s`. */
  function ScaledAboutCenter(b: Box, s: real): Box
  {
    Box(AffinePoint(b.lo, Center(b), s), AffinePoint(b.hi, Center(b), s))
  }

  lemma ScaledAboutCenterBox(b: Box, s: real)
    requires s > 0.0
    ensures var nb := ScaledAboutCenter(b, s);
      && nb.lo.x + nb.hi.x == 0.0 && nb.lo.y + nb.hi.y == 0.0 && nb.lo.z + nb.hi.z == 0.0
      && Size(nb) == Size(b) * s
  {
    AxisCentred(b.lo.x, b.hi.x, s);
    AxisCentred(b.lo.y, b.hi.y, s);
    AxisCentred(b.lo.z, b.hi.z, s);
    ScaledSize(b, s);
  }

  lemma ScaledSize(b: Box, s: real)
    requires s > 0.0
    ensures Size(ScaledAboutCenter(b, s)) == Size(b) * s
  {
    var nb := ScaledAboutCenter(b, s);
    var ex, ey, ez := b.hi.x - b.lo.x, b.hi.y - b.lo.y, b.hi.z - b.lo.z;
    var sx, sy, sz := nb.hi.x - nb.lo.x, nb.hi.y - nb.lo.y, nb.hi.z - nb.lo.z;
    AxisCentred(b.lo.x, b.hi.x, s);
    AxisCentred(b.lo.y, b.hi.y, s);
    AxisCentred(b.lo.z, b.hi.z, s);
    assert sx == ex * s && sy == ey * s && sz == ez * s;
    MaxOfScaled(ex, ey, ez, sx, sy, sz, s);
  }

  lemma MaxOfScaled(ex: real, ey: real, ez: real, sx: real, sy: real, sz: real, s: real)
    requires s > 0.0 && sx == ex * s && sy == ey * s && sz == ez * s
    ensures Max(sx, Max(sy, sz)) == Max(ex, Max(ey, ez)) * s
  {
    MaxScale(ey, ez, s);
    MaxScale(ex, Max(ey, ez), s);
  }

  lemma DivisorPositive(b: Box)
    requires b.lo.x <= b.hi.x && b.lo.y <= b.hi.y && b.lo.z <= b.hi.z
    ensures Divisor(b) > 0.0 && 2.0 / Divisor(b) > 0.0
  {}

  /** Arithmetic core of the normaliser, free of any vertex list. */
  lemma NormalizedBoxArith(b: Box)
    requires b.lo.x <= b.hi.x && b.lo.y <= b.hi.y && b.lo.z <= b.hi.z
    ensures var nb := NormalizedBoxOf(b);
      && nb.lo.x + nb.hi.x == 0.0 && nb.lo.y + nb.hi.y == 0.0 && nb.lo.z + nb.hi.z == 0.0
      && Size(nb) == (if Size(b) == 0.0 then 0.0 else 2.0)
  {
    DivisorPositive(b);
    var s := 2.0 / Divisor(b);
    assert NormalizedBoxOf(b) == ScaledAboutCenter(b, s);
    ScaledAboutCenterBox(b, s);
    if Size(b) != 0.0 {
      ScaleToTwo(Size(b));
    }
  }

  lemma NormalizedBounds(vs: seq<Vec3>)
    requires |vs| > 0
    ensures Bounds(Normalized(vs)) == NormalizedBoxOf(Bounds(vs))
  {
    var b := Bounds(vs);
    BoundsSpec(vs);
    assert b.lo.x <= vs[0].x <= b.hi.x && b.lo.y <= vs[0].y <= b.hi.y && b.lo.z <= vs[0].z <= b.hi.z;
    DivisorPositive(b);
    AffineBounds(vs, Center(b), 2.0 / Divisor(b));
  }

  /** The normalised vertices' bounding box: centred on the origin, with largest
      axis extent 2 — or 0 when every input vertex coincides. */
  lemma NormalizedBox(vs: seq<Vec3>)
    requires |vs| > 0
    ensures var nb := Bounds(Normalized(vs));
      && nb.lo.x + nb.hi.x == 0.0 && nb.lo.y + nb.hi.y == 0.0 && nb.lo.z + nb.hi.z == 0.0
      && Size(nb) == (if Size(Bounds(vs)) == 0.0 then 0.0 else 2.0)
  {
    var b := Bounds(vs);
    BoundsSpec(vs);
    assert b.lo.x <= vs[0].x <= b.hi.x && b.lo.y <= vs[0].y <= b.hi.y && b.lo.z <= vs[0].z <= b.hi.z;
    NormalizedBounds(vs);
    NormalizedBoxArith(b);
  }

  /** When all vertices coincide (size 0, replaced by 1) every vertex is sent to
      the origin. */
  lemma NormalizedDegenerate(vs: seq<Vec3>)
    requires |vs| > 0 && Size(Bounds(vs)) == 0.0
    ensures forall i :: 0 <= i < |vs| ==> Normalized(vs)[i] == Origin
  {
    var b := Bounds(vs);
    BoundsSpec(vs);
    assert b.hi.x - b.lo.x <= 0.0 && b.hi.y - b.lo.y <= 0.0 && b.hi.z - b.lo.z <= 0.0;
    var c, s := Center(b), 2.0 / Divisor(b);
    forall i | 0 <= i < |vs| ensures Normalized(vs)[i] == Origin {
      assert b.lo.x <= vs[i].x <= b.hi.x && b.lo.y <= vs[i].y <= b.hi.y && b.lo.z <= vs[i].z <= b.hi.z;
      assert vs[i] == c;
      assert Normalized(vs)[i] == AffinePoint(c, c, s);
    }
  }

  /** Vertex lists whose box is centred on the origin with largest extent 2
      are left as they are. */
  lemma NormalizedFixedUnit(ns: seq<Vec3>)
    requires |ns| > 0 && Center(Bounds(ns)) == Origin && Size(Bounds(ns)) == 2.0
    ensures Normalized(ns) == ns
  {
    assert 2.0 / Divisor(Bounds(ns)) == 1.0;
    forall i | 0 <= i < |ns| ensures Normalized(ns)[i] == ns[i] {
      assert AffinePoint(ns[i], Origin, 1.0) == ns[i];
    }
  }

  /** A list of origins is left as it is. */
  lemma NormalizedFixedOrigin(ns: seq<Vec3>)
    requires forall i :: 0 <= i < |ns| ==> ns[i] == Origin
    ensures Normalized(ns) == ns
  {
    if |ns| > 0 {
      var b := Bounds(ns);
      BoundsSpec(ns);
      var o := Box(Origin, Origin);
      assert ns[0] == Origin;
      assert Encloses(o, ns) && Tight(o, ns);
      TightBoxesEqual(b, o, ns);
      assert Center(b) == Origin;
      var s := 2.0 / Divisor(b);
      assert Normalized(ns) == Affine(ns, Origin, s);
      forall i | 0 <= i < |ns| ensures Affine(ns, Origin, s)[i] == ns[i] {
        assert AffinePoint(ns[i], Origin, s) == AffinePoint(Origin, Origin, s);
      }
    }
  }

  /** Normalising already-normalised geometry changes nothing. */
  lemma NormalizedIdempotent(vs: seq<Vec3>)
    ensures Normalized(Normalized(vs)) == Normalized(vs)
  {
    if |vs| > 0 {
      var ns := Normalized(vs);
      if Size(Bounds(vs)) == 0.0 {
        NormalizedDegenerate(vs);
        NormalizedFixedOrigin(ns);
      } else {
        NormalizedBox(vs);
        NormalizedFixedUnit(ns);
      }
    }
  }

  // ---------------------------------------------------------------------------
  // Default mesh
  // ---------------------------------------------------------------------------

  /** The cube shown at start-up, corners at -1 and 1 on every axis. */
  const CubeVertices: seq<Vec3> := [
    Vec3(-1.0, -1.0, -1.0), Vec3(1.0, -1.0, -1.0),
    Vec3(1.0, 1.0, -1.0), Vec3(-1.0, 1.0, -1.0),
    Vec3(-1.0, -1.0, 1.0), Vec3(1.0, -1.0, 1.0),
    Vec3(1.0, 1.0, 1.0), Vec3(-1.0, 1.0, 1.0)
  ]

  lemma CubeBounds()
    ensures Bounds(CubeVertices) == Box(Vec3(-1.0, -1.0, -1.0), Vec3(1.0, 1.0, 1.0))
  {
    var vs := CubeVertices;
    var b := Box(Vec3(-1.0, -1.0, -1.0), Vec3(1.0, 1.0, 1.0));
    assert Encloses(b, vs) by {
      forall i | 0 <= i < |vs|
        ensures b.lo.x <= vs[i].x <= b.hi.x && b.lo.y <= vs[i].y <= b.hi.y && b.lo.z <= vs[i].z <= b.hi.z
      {
        assert i in {0, 1, 2, 3, 4, 5, 6, 7};
      }
    }
    assert Tight(b, vs) by {
      assert vs[0].x == b.lo.x && vs[0].y == b.lo.y && vs[0].z == b.lo.z;
      assert vs[6].x == b.hi.x && vs[6].y == b.hi.y && vs[6].z == b.hi.z;
    }
    BoundsUnique(b, vs);
  }

  /** The start-up cube is already normalised. */
  lemma CubeIsNormalized()
    ensures Normalized(CubeVertices) == CubeVertices
  {
    CubeBounds();
    NormalizedFixedUnit(CubeVertices);
  }

  // ---------------------------------------------------------------------------
  // Transform pipeline
  // ---------------------------------------------------------------------------

  /** Rotation about the X axis; `c` and `s` stand for the cosine and sine of
      the angle, which the host computes. */
  function RotateX(v: Vec3, c: real, s: real): (r: Vec3)
    ensures r.x == v.x
  {
    Vec3(v.x, v.y * c - v.z * s, v.y * s + v.z * c)
  }

  /** Rotation about the Y axis, with `c` and `s` as for RotateX. */
  function RotateY(v: Vec3, c: real, s: real): (r: Vec3)
    ensures r.y == v.y
  {
    Vec3(v.x * c - v.z * s, v.y, v.x * s + v.z * c)
  }

  /** With a genuine (cosine, sine) pair, RotateX keeps the distance from the X axis. */
  lemma RotateXKeepsLength(v: Vec3, c: real, s: real)
    requires c * c + s * s == 1.0
    ensures var r := RotateX(v, c, s); r.y * r.y + r.z * r.z == v.y * v.y + v.z * v.z
  {
    var r := RotateX(v, c, s);
    calc {
      r.y * r.y + r.z * r.z;
      (v.y * c - v.z * s) * (v.y * c - v.z * s) + (v.y * s + v.z * c) * (v.y * s + v.z * c);
      v.y * v.y * (c * c + s * s) + v.z * v.z * (c * c + s * s);
    }
  }

  /** With a genuine (cosine, sine) pair, RotateY keeps the distance from the Y axis. */
  lemma RotateYKeepsLength(v: Vec3, c: real, s: real)
    requires c * c + s * s == 1.0
    ensures var r := RotateY(v, c, s); r.x * r.x + r.z * r.z == v.x * v.x + v.z * v.z
  {
    var r := RotateY(v, c, s);
    calc {
      r.x * r.x + r.z * r.z;
      (v.x * c - v.z * s) * (v.x * c - v.z * s) + (v.x * s + v.z * c) * (v.x * s + v.z * c);
      v.x * v.x * (c * c + s * s) + v.z * v.z * (c * c + s * s);
    }
  }

  /** Perspective projection. A point at or behind the camera plane collapses
      to the screen origin instead of being clipped. */
  function Project(v: Vec3, distance: real, offset: Vec2, width: real, height: real): (p: Vec2)
    ensures distance - v.z <= 0.0 ==> p == Zero2
    ensures distance - v.z > 0.0 ==>
      && (p.x - width / 2.0 - offset.x) * (distance - v.z) == v.x * Fov
      && (p.y - height / 2.0 - offset.y) * (distance - v.z) == v.y * Fov
  {
    var zFactor := distance - v.z;
    if zFactor <= 0.0 then Zero2
    else
      var scale := Fov / zFactor;
      Vec2(v.x * scale + width / 2.0 + offset.x, v.y * scale + height / 2.0 + offset.y)
  }

  /** The inverse of Project for a point in front of the camera whose depth is known. */
  function Unproject(p: Vec2, z: real, distance: real, offset: Vec2, width: real, height: real): Vec3
  {
    Vec3((p.x - width / 2.0 - offset.x) * (distance - z) / Fov,
         (p.y - height / 2.0 - offset.y) * (distance - z) / Fov,
         z)
  }

  lemma ProjectRoundTrip(v: Vec3, distance: real, offset: Vec2, width: real, height: real)
    requires distance - v.z > 0.0
    ensures Unproject(Project(v, distance, offset, width, height), v.z, distance, offset, width, height) == v
  {}

  /** Panning by `d` moves every projected point in front of the camera by `d`. */
  lemma ProjectPans(v: Vec3, distance: real, offset: Vec2, d: Vec2, width: real, height: real)
    requires distance - v.z > 0.0
    ensures Project(v, distance, Add2(offset, d), width, height) == Add2(Project(v, distance, offset, width, height), d)
  {}

  /** The per-vertex pipeline of one frame: rotate about X, then about Y, then project. */
  function ViewPoint(v: Vec3, cx: real, sx: real, cy: real, sy: real,
                     distance: real, offset: Vec2, width: real, height: real): Vec2
  {
    Project(RotateY(RotateX(v, cx, sx), cy, sy), distance, offset, width, height)
  }

  /** At angle zero (cosine 1, sine 0) the pipeline is the bare projection. */
  lemma ViewPointAtRest(v: Vec3, distance: real, offset: Vec2, width: real, height: real)
    ensures ViewPoint(v, 1.0, 0.0, 1.0, 0.0, distance, offset, width, height) == Project(v, distance, offset, width, height)
  {}

  /** The two rotations do not commute, so their order in ViewPoint matters:
      a quarter turn about each axis sends (0,1,0) to different places, and
      from distance 4 the two results land on different screen points. */
  lemma RotationOrderMatters()
    ensures RotateY(RotateX(Vec3(0.0, 1.0, 0.0), 0.0, 1.0), 0.0, 1.0)
         != RotateX(RotateY(Vec3(0.0, 1.0, 0.0), 0.0, 1.0), 0.0, 1.0)
    ensures ViewPoint(Vec3(0.0, 1.0, 0.0), 0.0, 1.0, 0.0, 1.0, 4.0, Zero2, 0.0, 0.0) == Vec2(-Fov / 4.0, 0.0)
    ensures Project(RotateX(RotateY(Vec3(0.0, 1.0, 0.0), 0.0, 1.0), 0.0, 1.0), 4.0, Zero2, 0.0, 0.0) == Zero2
  {
    assert RotateY(RotateX(Vec3(0.0, 1.0, 0.0), 0.0, 1.0), 0.0, 1.0) == Vec3(-1.0, 0.0, 0.0);
    assert RotateX(RotateY(Vec3(0.0, 1.0, 0.0), 0.0, 1.0), 0.0, 1.0) == Vec3(0.0, 0.0, 1.0);
  }
}
