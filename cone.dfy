/** The cone builder: a support array of nDiv + 2 points (base centre,
    apex, rim) from which the mesh is "de-indexed" into a list of
    triangles to draw, each with one flat face normal repeated for its
    three corners. */
module ConeMesh {
  import opened Layout
  import opened JsMath
  import opened Vectors

  /** A triangle as the three support-point numbers handed to updateNormal. */
  datatype Tri = Tri(a: nat, b: nat, c: nat)

  /** Index of the base centre and of the apex in the support array. */
  const CentreIndex: nat := 0
  const TopIndex: nat := 1

  /** The base centre, `centre = [0, 0, 0]`. */
  const Centre: Vec3 := Vec3(0.0, 0.0, 0.0)

  /** The apex, `top = [0, height, 0]`. */
  function Top(height: real): Vec3
  {
    Vec3(0.0, height, 0.0)
  }

  /** The angle of rim point k: k steps of angleStep = 2 * Math.PI / nDiv,
      the value the accumulated `angle` has after k increments. */
  function RimAngle(k: nat, nDiv: nat): real
    requires nDiv > 0
  {
    (k as real) * (2.0 * Pi / (nDiv as real))
  }

  /** A rim point: (cos(angle) * radius, centre[1], sin(angle) * radius). */
  function RimPoint(t: Trig, radius: real, angle: real): (p: Vec3)
    ensures p.y == Centre.y
  {
    Vec3(t.Cos(angle) * radius, Centre.y, t.Sin(angle) * radius)
  }

  lemma StepMore(k: int, step: real)
    ensures (k as real) * step + step == ((k + 1) as real) * step
  {
  }

  /** The first k rim points, flattened. */
  function RimPoints(t: Trig, nDiv: nat, radius: real, k: nat): (s: seq<real>)
    requires k == 0 || nDiv > 0
    ensures |s| == 3 * k
  {
    if k == 0 then [] else RimPoints(t, nDiv, radius, k - 1) + Flat(RimPoint(t, radius, RimAngle(k - 1, nDiv)))
  }

  /** The finished support array `vertices`: centre, apex, then the nDiv
      rim points. */
  function ConeSupport(t: Trig, nDiv: nat, radius: real, height: real): seq<real>
  {
    Flat(Centre) + Flat(Top(height)) + RimPoints(t, nDiv, radius, nDiv)
  }

  /** The support point after rim point i: the next one, except that the
      last rim point (i = nDiv + 1) wraps round to the first (2). */
  function Next(nDiv: nat, i: nat): (r: nat)
    ensures 2 <= i <= nDiv + 1 ==> 2 <= r <= nDiv + 1
    ensures r == 2 <==> i >= nDiv + 1 || i == 1
  {
    if i < nDiv + 1 then i + 1 else 2
  }

  /** The two updateNormal calls for rim point i, with the source's two
      branches: the side triangle to the apex and the base triangle to the
      centre. */
  function RimTriangles(nDiv: nat, i: nat): (r: seq<Tri>)
    ensures |r| == 2
  {
    if i < nDiv + 1 then [Tri(i + 1, i, TopIndex), Tri(i, i + 1, CentreIndex)]
    else [Tri(2, i, TopIndex), Tri(i, 2, CentreIndex)]
  }

  /** The triangles of rim points 2 .. k - 1, in call order. */
  function TrianglesUpTo(nDiv: nat, k: nat): seq<Tri>
  {
    if k <= 2 then [] else TrianglesUpTo(nDiv, k - 1) + RimTriangles(nDiv, k - 1)
  }

  /** Every triangle the constructor draws, in call order. */
  function ConeTriangles(nDiv: nat): seq<Tri>
  {
    TrianglesUpTo(nDiv, nDiv + 2)
  }

  /** All three corners of the triangle name points of the support array. */
  predicate Readable(vs: seq<real>, tri: Tri)
  {
    3 * tri.a + 3 <= |vs| && 3 * tri.b + 3 <= |vs| && 3 * tri.c + 3 <= |vs|
  }

  /** Every triangle of the list can be read from the support array. */
  predicate AllReadable(vs: seq<real>, tris: seq<Tri>)
  {
    tris == [] || (AllReadable(vs, tris[..|tris| - 1]) && Readable(vs, tris[|tris| - 1]))
  }

  /** The nine numbers `updateNormal` appends to `verticesToDraw`. */
  function TriangleBlock(vs: seq<real>, tri: Tri): (s: seq<real>)
    requires Readable(vs, tri)
    ensures |s| == 9
  {
    vs[3 * tri.a .. 3 * tri.a + 3] + vs[3 * tri.b .. 3 * tri.b + 3] + vs[3 * tri.c .. 3 * tri.c + 3]
  }

  /** The block drawn for a triangle is its three corners, copied from the
      support array in the order given. */
  lemma TriangleBlockCorners(vs: seq<real>, tri: Tri)
    requires Readable(vs, tri)
    ensures TriangleBlock(vs, tri)[0..3] == vs[3 * tri.a .. 3 * tri.a + 3]
    ensures TriangleBlock(vs, tri)[3..6] == vs[3 * tri.b .. 3 * tri.b + 3]
    ensures TriangleBlock(vs, tri)[6..9] == vs[3 * tri.c .. 3 * tri.c + 3]
  {
    var a, b, c := vs[3 * tri.a .. 3 * tri.a + 3], vs[3 * tri.b .. 3 * tri.b + 3], vs[3 * tri.c .. 3 * tri.c + 3];
    assert (a + b + c)[0..3] == a;
    assert (a + b + c)[3..6] == b;
    assert (a + b + c)[6..9] == c;
  }

  /** The points of a list, flattened one after the other. */
  function FlatAll(ps: seq<Vec3>): (s: seq<real>)
    ensures |s| == 3 * |ps|
  {
    if ps == [] then [] else FlatAll(ps[..|ps| - 1]) + Flat(ps[|ps| - 1])
  }

  lemma FlatAllThree(a: Vec3, b: Vec3, c: Vec3)
    ensures FlatAll([a, b, c]) == Flat(a) + Flat(b) + Flat(c)
  {
    assert [a][..0] == [];
    assert FlatAll([a]) == Flat(a);
    assert [a, b][..1] == [a];
    assert FlatAll([a, b]) == Flat(a) + Flat(b);
    assert [a, b, c][..2] == [a, b];
  }

  /** The face normal of the triangle. */
  function FaceNormal(vs: seq<real>, tri: Tri): Vec3
    requires Readable(vs, tri)
  {
    GetNormal(Triple(vs, tri.a), Triple(vs, tri.b), Triple(vs, tri.c))
  }

  /** The nine numbers `updateNormal` appends to `normals`: the face normal
      once per corner. */
  function NormalBlock(vs: seq<real>, tri: Tri): (s: seq<real>)
    requires Readable(vs, tri)
    ensures |s| == 9
  {
    var n := Flat(FaceNormal(vs, tri));
    n + n + n
  }

  /** Each corner of a drawn triangle gets the same face normal. */
  lemma NormalBlockRepeats(vs: seq<real>, tri: Tri)
    requires Readable(vs, tri)
    ensures NormalBlock(vs, tri)[0..3] == NormalBlock(vs, tri)[3..6] == NormalBlock(vs, tri)[6..9] == Flat(FaceNormal(vs, tri))
  {
    var n := Flat(FaceNormal(vs, tri));
    assert (n + n + n)[0..3] == n;
    assert (n + n + n)[3..6] == n;
    assert (n + n + n)[6..9] == n;
  }

  /** `verticesToDraw` after drawing the triangles in order. */
  function DrawBuffer(vs: seq<real>, tris: seq<Tri>): (s: seq<real>)
    requires AllReadable(vs, tris)
    ensures |s| == 9 * |tris|
  {
    if tris == [] then [] else DrawBuffer(vs, tris[..|tris| - 1]) + TriangleBlock(vs, tris[|tris| - 1])
  }

  /** `normals` after drawing the triangles in order. */
  function NormalBuffer(vs: seq<real>, tris: seq<Tri>): (s: seq<real>)
    requires AllReadable(vs, tris)
    ensures |s| == 9 * |tris|
  {
    if tris == [] then [] else NormalBuffer(vs, tris[..|tris| - 1]) + NormalBlock(vs, tris[|tris| - 1])
  }

  lemma DrawOneMore(vs: seq<real>, tris: seq<Tri>, tri: Tri)
    requires AllReadable(vs, tris)
    requires Readable(vs, tri)
    ensures AllReadable(vs, tris + [tri])
    ensures DrawBuffer(vs, tris + [tri]) == DrawBuffer(vs, tris) + TriangleBlock(vs, tri)
    ensures NormalBuffer(vs, tris + [tri]) == NormalBuffer(vs, tris) + NormalBlock(vs, tri)
  {
    assert (tris + [tri])[..|tris|] == tris;
  }

  lemma Regroup<T>(a: seq<T>, b: seq<T>, c: seq<T>, d: seq<T>)
    ensures a + b + c + d == a + (b + c + d)
  {
  }

  /** Drawing rim point i's two triangles extends both buffers by their
      blocks. */
  lemma RimStep(vs: seq<real>, nDiv: nat, i: nat)
    requires 2 <= i
    requires AllReadable(vs, TrianglesUpTo(nDiv, i))
    requires Readable(vs, RimTriangles(nDiv, i)[0]) && Readable(vs, RimTriangles(nDiv, i)[1])
    ensures AllReadable(vs, TrianglesUpTo(nDiv, i + 1))
    ensures DrawBuffer(vs, TrianglesUpTo(nDiv, i + 1)) == DrawBuffer(vs, TrianglesUpTo(nDiv, i))
      + TriangleBlock(vs, RimTriangles(nDiv, i)[0]) + TriangleBlock(vs, RimTriangles(nDiv, i)[1])
    ensures NormalBuffer(vs, TrianglesUpTo(nDiv, i + 1)) == NormalBuffer(vs, TrianglesUpTo(nDiv, i))
      + NormalBlock(vs, RimTriangles(nDiv, i)[0]) + NormalBlock(vs, RimTriangles(nDiv, i)[1])
  {
    var done := TrianglesUpTo(nDiv, i);
    var rim := RimTriangles(nDiv, i);
    TrianglesStep(nDiv, i);
    DrawOneMore(vs, done, rim[0]);
    DrawOneMore(vs, done + [rim[0]], rim[1]);
  }

  lemma TrianglesStep(nDiv: nat, i: nat)
    requires 2 <= i
    ensures TrianglesUpTo(nDiv, i + 1) == TrianglesUpTo(nDiv, i) + [RimTriangles(nDiv, i)[0]] + [RimTriangles(nDiv, i)[1]]
  {
    var rim := RimTriangles(nDiv, i);
    assert rim == [rim[0]] + [rim[1]];
  }

  /** The loop over rim points 2 .. nDiv + 1 calls updateNormal twice per
      point: 2 * (k - 2) triangles after rim points 2 .. k - 1. */
  lemma {:induction false} TrianglesUpToCount(nDiv: nat, k: nat)
    ensures |TrianglesUpTo(nDiv, k)| == if k <= 2 then 0 else 2 * (k - 2)
  {
    if k > 2 {
      TrianglesUpToCount(nDiv, k - 1);
    }
  }

  /** The constructor calls updateNormal exactly 2 * nDiv times. */
  lemma ConeTriangleCount(nDiv: nat)
    ensures |ConeTriangles(nDiv)| == 2 * nDiv
  {
    TrianglesUpToCount(nDiv, nDiv + 2);
  }

  /** Rim point i's triangles are the side triangle (next(i), i, 1) and the
      base triangle (i, next(i), 0), for every rim point including the last. */
  lemma RimTrianglesWrap(nDiv: nat, i: nat)
    requires 2 <= i <= nDiv + 1
    ensures RimTriangles(nDiv, i) == [Tri(Next(nDiv, i), i, TopIndex), Tri(i, Next(nDiv, i), CentreIndex)]
  {
  }

  /** Triangles 2m and 2m + 1 belong to rim point m + 2. */
  lemma {:induction false} TrianglesUpToAt(nDiv: nat, k: nat, m: nat)
    requires 2 + m < k
    ensures 2 * m + 1 < |TrianglesUpTo(nDiv, k)|
    ensures TrianglesUpTo(nDiv, k)[2 * m] == RimTriangles(nDiv, m + 2)[0]
    ensures TrianglesUpTo(nDiv, k)[2 * m + 1] == RimTriangles(nDiv, m + 2)[1]
  {
    TrianglesUpToCount(nDiv, k);
    TrianglesUpToCount(nDiv, k - 1);
    if 2 + m < k - 1 {
      TrianglesUpToAt(nDiv, k - 1, m);
    }
  }

  /** The i-th rim point (2 <= i <= nDiv + 1) contributes triangles number
      2(i - 2) and 2(i - 2) + 1: (next(i), i, 1) and (i, next(i), 0). The
      last rim point is linked back to point 2. */
  lemma ConeTriangleAt(nDiv: nat, i: nat)
    requires 2 <= i <= nDiv + 1
    ensures 2 * (i - 2) + 1 < |ConeTriangles(nDiv)|
    ensures ConeTriangles(nDiv)[2 * (i - 2)] == Tri(Next(nDiv, i), i, TopIndex)
    ensures ConeTriangles(nDiv)[2 * (i - 2) + 1] == Tri(i, Next(nDiv, i), CentreIndex)
    ensures i == nDiv + 1 ==> ConeTriangles(nDiv)[2 * (i - 2)] == Tri(2, i, TopIndex)
  {
    TrianglesUpToAt(nDiv, nDiv + 2, i - 2);
    RimTrianglesWrap(nDiv, i);
  }

  /** All three corners are among the first n support points. */
  predicate Within(tri: Tri, n: nat)
  {
    tri.a < n && tri.b < n && tri.c < n
  }

  /** Both triangles of rim point i only use support points 0 .. nDiv + 1. */
  lemma RimTrianglesInRange(nDiv: nat, i: nat)
    requires 2 <= i <= nDiv + 1
    ensures forall tri :: tri in RimTriangles(nDiv, i) ==> Within(tri, nDiv + 2)
  {
    RimTrianglesWrap(nDiv, i);
  }

  /** Every index handed to updateNormal, hence to getVertex, names one of
      the nDiv + 2 support points. */
  lemma {:induction false} TrianglesUpToInRange(nDiv: nat, k: nat)
    requires k <= nDiv + 2
    ensures forall tri :: tri in TrianglesUpTo(nDiv, k) ==> Within(tri, nDiv + 2)
  {
    if k > 2 {
      TrianglesUpToInRange(nDiv, k - 1);
      RimTrianglesInRange(nDiv, k - 1);
    }
  }

  lemma ConeTrianglesInRange(nDiv: nat)
    ensures forall tri :: tri in ConeTriangles(nDiv) ==> Within(tri, nDiv + 2)
  {
    TrianglesUpToInRange(nDiv, nDiv + 2);
  }

  /** Triangles within the first n points can be read from any array of at
      least n points. */
  lemma {:induction false} ReadableWithin(vs: seq<real>, tris: seq<Tri>, n: nat)
    requires forall tri :: tri in tris ==> Within(tri, n)
    requires 3 * n <= |vs|
    ensures AllReadable(vs, tris)
  {
    if tris != [] {
      var init := tris[..|tris| - 1];
      assert forall tri :: tri in init ==> tri in tris;
      ReadableWithin(vs, init, n);
      assert tris[|tris| - 1] in tris;
    }
  }

  /** Each triangle of a readable list is readable. */
  lemma {:induction false} ReadableAt(vs: seq<real>, tris: seq<Tri>, k: nat)
    requires AllReadable(vs, tris) && k < |tris|
    ensures Readable(vs, tris[k])
  {
    var n := |tris| - 1;
    if k < n {
      ReadableAt(vs, tris[..n], k);
    }
  }

  /** The support array holds nDiv + 2 points: the centre at 0, the apex
      at 1, and at 2 + k the rim point at angle k * angleStep, which lies in
      the base plane y = 0. */
  lemma {:induction false} RimPointAt(t: Trig, nDiv: nat, radius: real, k: nat, m: nat)
    requires m < k && nDiv > 0
    ensures 3 * m + 3 <= |RimPoints(t, nDiv, radius, k)|
    ensures Triple(RimPoints(t, nDiv, radius, k), m) == RimPoint(t, radius, RimAngle(m, nDiv))
  {
    var prev := RimPoints(t, nDiv, radius, k - 1);
    var last := Flat(RimPoint(t, radius, RimAngle(k - 1, nDiv)));
    assert RimPoints(t, nDiv, radius, k) == prev + last;
    if m < k - 1 {
      RimPointAt(t, nDiv, radius, k - 1, m);
      SliceOfLeft(prev, last, 3 * m, 3 * m + 3);
    } else {
      SliceOfRight(prev, last, 3 * m, 3 * m + 3);
    }
  }

  lemma ConeSupportLayout(t: Trig, nDiv: nat, radius: real, height: real, i: nat)
    requires i < nDiv + 2
    ensures |ConeSupport(t, nDiv, radius, height)| == 3 * (nDiv + 2)
    ensures i == CentreIndex ==> Triple(ConeSupport(t, nDiv, radius, height), i) == Centre
    ensures i == TopIndex ==> Triple(ConeSupport(t, nDiv, radius, height), i) == Top(height)
    ensures i >= 2 ==> nDiv > 0 && Triple(ConeSupport(t, nDiv, radius, height), i) == RimPoint(t, radius, RimAngle(i - 2, nDiv))
    ensures i != TopIndex ==> Triple(ConeSupport(t, nDiv, radius, height), i).y == 0.0
  {
    var head := Flat(Centre) + Flat(Top(height));
    var rim := RimPoints(t, nDiv, radius, nDiv);
    var s := ConeSupport(t, nDiv, radius, height);
    assert s == head + rim;
    if i >= 2 {
      RimPointAt(t, nDiv, radius, nDiv, i - 2);
      SliceOfRight(head, rim, 3 * i, 3 * i + 3);
      assert s[3 * i .. 3 * i + 3] == rim[3 * (i - 2) .. 3 * (i - 2) + 3];
    } else {
      SliceOfLeft(head, rim, 3 * i, 3 * i + 3);
    }
  }

  /** Every triangle the cone draws only reads points of its support array. */
  lemma ConeTrianglesReadable(t: Trig, nDiv: nat, radius: real, height: real)
    ensures AllReadable(ConeSupport(t, nDiv, radius, height), ConeTriangles(nDiv))
  {
    ConeTrianglesInRange(nDiv);
    ReadableWithin(ConeSupport(t, nDiv, radius, height), ConeTriangles(nDiv), nDiv + 2);
  }

  /** The finished `verticesToDraw`. */
  function ConeDrawBuffer(t: Trig, nDiv: nat, radius: real, height: real): seq<real>
  {
    ConeTrianglesReadable(t, nDiv, radius, height);
    DrawBuffer(ConeSupport(t, nDiv, radius, height), ConeTriangles(nDiv))
  }

  /** The finished `normals`. */
  function ConeNormals(t: Trig, nDiv: nat, radius: real, height: real): seq<real>
  {
    ConeTrianglesReadable(t, nDiv, radius, height);
    NormalBuffer(ConeSupport(t, nDiv, radius, height), ConeTriangles(nDiv))
  }

  /** `verticesToDraw` and `normals` both end with 18 * nDiv numbers, so
      `verticesToDraw.length / 3` is 6 * nDiv. */
  lemma ConeBufferSizes(t: Trig, nDiv: nat, radius: real, height: real)
    ensures |ConeDrawBuffer(t, nDiv, radius, height)| == 18 * nDiv
    ensures |ConeNormals(t, nDiv, radius, height)| == 18 * nDiv
  {
    ConeTriangleCount(nDiv);
  }

  /** Block k of the draw buffer holds the three corners of triangle k. */
  lemma {:induction false} DrawBlockAt(vs: seq<real>, tris: seq<Tri>, k: nat)
    requires AllReadable(vs, tris)
    requires k < |tris|
    ensures Readable(vs, tris[k])
    ensures 9 * k + 9 <= |DrawBuffer(vs, tris)|
    ensures DrawBuffer(vs, tris)[9 * k .. 9 * k + 9] == TriangleBlock(vs, tris[k])
  {
    var n := |tris| - 1;
    var init := tris[..n];
    var prev := DrawBuffer(vs, init);
    var last := TriangleBlock(vs, tris[n]);
    assert DrawBuffer(vs, tris) == prev + last;
    ReadableAt(vs, tris, k);
    if k < n {
      DrawBlockAt(vs, init, k);
      assert init[k] == tris[k];
      SliceOfLeft(prev, last, 9 * k, 9 * k + 9);
    } else {
      SliceOfRight(prev, last, 9 * k, 9 * k + 9);
    }
  }

  /** Block k of the normal buffer holds the face normal of triangle k,
      once per corner. */
  lemma {:induction false} NormalBlockAt(vs: seq<real>, tris: seq<Tri>, k: nat)
    requires AllReadable(vs, tris)
    requires k < |tris|
    ensures Readable(vs, tris[k])
    ensures 9 * k + 9 <= |NormalBuffer(vs, tris)|
    ensures NormalBuffer(vs, tris)[9 * k .. 9 * k + 9] == NormalBlock(vs, tris[k])
  {
    var n := |tris| - 1;
    var init := tris[..n];
    var prev := NormalBuffer(vs, init);
    var last := NormalBlock(vs, tris[n]);
    assert NormalBuffer(vs, tris) == prev + last;
    ReadableAt(vs, tris, k);
    if k < n {
      NormalBlockAt(vs, init, k);
      assert init[k] == tris[k];
      SliceOfLeft(prev, last, 9 * k, 9 * k + 9);
    } else {
      SliceOfRight(prev, last, 9 * k, 9 * k + 9);
    }
  }

  /** The centre and every rim point lie in the base plane y = 0. */
  lemma {:induction false} BasePointFlat(t: Trig, nDiv: nat, radius: real, height: real, i: nat)
    requires i < nDiv + 2 && i != TopIndex
    ensures 3 * i + 3 <= |ConeSupport(t, nDiv, radius, height)|
    ensures Triple(ConeSupport(t, nDiv, radius, height), i).y == 0.0
  {
    ConeSupportLayout(t, nDiv, radius, height, i);
  }

  /** Every base triangle (i, next(i), 0) lies in the plane y = 0, so its
      normal is vertical: the normals stored for the base point straight
      along the y axis. */
  lemma BaseNormalVertical(t: Trig, nDiv: nat, radius: real, height: real, i: nat)
    requires 2 <= i <= nDiv + 1
    ensures Readable(ConeSupport(t, nDiv, radius, height), Tri(i, Next(nDiv, i), CentreIndex))
    ensures FaceNormal(ConeSupport(t, nDiv, radius, height), Tri(i, Next(nDiv, i), CentreIndex)).x == 0.0
    ensures FaceNormal(ConeSupport(t, nDiv, radius, height), Tri(i, Next(nDiv, i), CentreIndex)).z == 0.0
  {
    var vs := ConeSupport(t, nDiv, radius, height);
    var j := Next(nDiv, i);
    BasePointFlat(t, nDiv, radius, height, i);
    BasePointFlat(t, nDiv, radius, height, j);
    BasePointFlat(t, nDiv, radius, height, CentreIndex);
    GetNormalHorizontal(Triple(vs, i), Triple(vs, j), Triple(vs, CentreIndex));
  }

  /** The draw buffer, rim point by rim point: block 2(i - 2) is the side
      triangle (next(i), i, apex) and block 2(i - 2) + 1 the base triangle
      (i, next(i), centre), each as the support points' coordinates. */
  lemma ConeDrawnRim(t: Trig, nDiv: nat, radius: real, height: real, i: nat)
    requires 2 <= i <= nDiv + 1
    ensures Readable(ConeSupport(t, nDiv, radius, height), Tri(Next(nDiv, i), i, TopIndex))
    ensures Readable(ConeSupport(t, nDiv, radius, height), Tri(i, Next(nDiv, i), CentreIndex))
    ensures 9 * (2 * (i - 2)) + 18 <= |ConeDrawBuffer(t, nDiv, radius, height)|
    ensures ConeDrawBuffer(t, nDiv, radius, height)[9 * (2 * (i - 2)) .. 9 * (2 * (i - 2)) + 9]
         == TriangleBlock(ConeSupport(t, nDiv, radius, height), Tri(Next(nDiv, i), i, TopIndex))
    ensures ConeDrawBuffer(t, nDiv, radius, height)[9 * (2 * (i - 2)) + 9 .. 9 * (2 * (i - 2)) + 18]
         == TriangleBlock(ConeSupport(t, nDiv, radius, height), Tri(i, Next(nDiv, i), CentreIndex))
  {
    var vs := ConeSupport(t, nDiv, radius, height);
    var tris := ConeTriangles(nDiv);
    var k := 2 * (i - 2);
    assert AllReadable(vs, tris) && k + 1 < |tris|
        && tris[k] == Tri(Next(nDiv, i), i, TopIndex) && tris[k + 1] == Tri(i, Next(nDiv, i), CentreIndex) by {
      ConeTrianglesReadable(t, nDiv, radius, height);
      ConeTriangleAt(nDiv, i);
    }
    assert ConeDrawBuffer(t, nDiv, radius, height) == DrawBuffer(vs, tris);
    DrawBlockAt(vs, tris, k);
    DrawBlockAt(vs, tris, k + 1);
  }

  /** Every normal stored for a base triangle is vertical: in all three
      copies its x and z components are 0. */
  lemma ConeBaseNormals(t: Trig, nDiv: nat, radius: real, height: real, i: nat)
    requires 2 <= i <= nDiv + 1
    ensures VerticalFrom(ConeNormals(t, nDiv, radius, height), 9 * (2 * (i - 2) + 1))
  {
    var vs := ConeSupport(t, nDiv, radius, height);
    var tris := ConeTriangles(nDiv);
    var k := 2 * (i - 2) + 1;
    var tri := Tri(i, Next(nDiv, i), CentreIndex);
    assert AllReadable(vs, tris) && k < |tris| && tris[k] == tri by {
      ConeTrianglesReadable(t, nDiv, radius, height);
      ConeTriangleAt(nDiv, i);
    }
    var normals := ConeNormals(t, nDiv, radius, height);
    assert 9 * k + 9 <= |normals| && normals[9 * k .. 9 * k + 9] == NormalBlock(vs, tri) by {
      assert normals == NormalBuffer(vs, tris);
      NormalBlockAt(vs, tris, k);
    }
    assert forall c :: 0 <= c < 3 ==> NormalBlock(vs, tri)[3 * c] == 0.0 && NormalBlock(vs, tri)[3 * c + 2] == 0.0 by {
      BaseNormalVertical(t, nDiv, radius, height, i);
      NormalBlockVertical(vs, tri);
    }
    VerticalCopies(normals, 9 * k, NormalBlock(vs, tri));
  }

  /** The three normals stored from position lo on are vertical: their x
      and z components are 0. */
  predicate VerticalFrom(s: seq<real>, lo: nat)
  {
    lo + 9 <= |s| && forall c :: 0 <= c < 3 ==> s[lo + 3 * c] == 0.0 && s[lo + 3 * c + 2] == 0.0
  }

  lemma VerticalCopies(s: seq<real>, lo: nat, block: seq<real>)
    requires lo + 9 <= |s| && |block| == 9 && s[lo .. lo + 9] == block
    requires forall c :: 0 <= c < 3 ==> block[3 * c] == 0.0 && block[3 * c + 2] == 0.0
    ensures VerticalFrom(s, lo)
  {
    forall c | 0 <= c < 3
      ensures s[lo + 3 * c] == 0.0 && s[lo + 3 * c + 2] == 0.0
    {
      assert s[lo + 3 * c] == block[3 * c];
      assert s[lo + 3 * c + 2] == block[3 * c + 2];
    }
  }

  /** A vertical face normal stays vertical in all three copies. */
  lemma NormalBlockVertical(vs: seq<real>, tri: Tri)
    requires Readable(vs, tri)
    requires FaceNormal(vs, tri).x == 0.0 && FaceNormal(vs, tri).z == 0.0
    ensures forall c :: 0 <= c < 3 ==> NormalBlock(vs, tri)[3 * c] == 0.0 && NormalBlock(vs, tri)[3 * c + 2] == 0.0
  {
  }

  class Cone {
    /** The support array: centre, apex and rim points. */
    var vertices: seq<real>
    /** The de-indexed triangle corners to draw. */
    var verticesToDraw: seq<real>
    /** One face normal per corner, aligned with `verticesToDraw`. */
    var normals: seq<real>

    /** `getVertex(idx)`: the three numbers of support point idx. */
    function GetVertex(idx: nat): (v: Vec3)
      reads this
      requires 3 * idx + 3 <= |vertices|
      ensures Flat(v) == vertices[3 * idx .. 3 * idx + 3]
    {
      Triple(vertices, idx)
    }

    /** `updateNormal(idx1, idx2, idx3)`: appends the triangle's three
        corners to `verticesToDraw` and its face normal, three times, to
        `normals`; the support array is unchanged. */
    method UpdateNormal(idx1: nat, idx2: nat, idx3: nat)
      requires Readable(vertices, Tri(idx1, idx2, idx3))
      modifies this`verticesToDraw, this`normals
      ensures vertices == old(vertices)
      ensures verticesToDraw == old(verticesToDraw) + TriangleBlock(vertices, Tri(idx1, idx2, idx3))
      ensures normals == old(normals) + NormalBlock(vertices, Tri(idx1, idx2, idx3))
    {
      var triangle := [GetVertex(idx1), GetVertex(idx2), GetVertex(idx3)];
      for k := 0 to |triangle|
        invariant verticesToDraw == old(verticesToDraw) + FlatAll(triangle[..k])
        invariant normals == old(normals)
      {
        assert triangle[..k + 1] == triangle[..k] + [triangle[k]];
        verticesToDraw := verticesToDraw + Flat(triangle[k]);
      }
      assert triangle[..3] == triangle;
      FlatAllThree(triangle[0], triangle[1], triangle[2]);
      var norm := GetNormal(triangle[0], triangle[1], triangle[2]);
      normals := normals + Flat(norm) + Flat(norm) + Flat(norm);
    }

    /** `new Cone(nDiv, radius, height)`. */
    constructor (t: Trig, nDiv: nat, radius: real, height: real)
      ensures vertices == ConeSupport(t, nDiv, radius, height)
      ensures verticesToDraw == ConeDrawBuffer(t, nDiv, radius, height)
      ensures normals == ConeNormals(t, nDiv, radius, height)
    {
      vertices := [];
      verticesToDraw := [];
      normals := [];
      new;
      GenerateVertices(t, nDiv, radius, height);
      ConeTrianglesReadable(t, nDiv, radius, height);
      ConeSupportLayout(t, nDiv, radius, height, 0);
      LoadTriangles(nDiv);
    }

    /** The constructor's first part: push the centre and the apex, then
        the rim points i = 2 .. nDiv + 1, the angle growing by angleStep
        each time. */
    method GenerateVertices(t: Trig, nDiv: nat, radius: real, height: real)
      requires vertices == []
      modifies this
      ensures vertices == ConeSupport(t, nDiv, radius, height)
      ensures verticesToDraw == old(verticesToDraw) && normals == old(normals)
    {
      var numberVertices := nDiv + 2;
      var centre := Centre;
      var top := Top(height);
      vertices := vertices + Flat(centre);
      vertices := vertices + Flat(top);
      // JavaScript divides by zero to Infinity when nDiv is 0; the rim
      // loop then never runs, so the step is never used.
      var angleStep := if nDiv > 0 then 2.0 * Pi / (nDiv as real) else 0.0;
      var i := 2;
      var angle := 0.0;
      while i < numberVertices
        invariant 2 <= i <= numberVertices
        invariant angle == ((i - 2) as real) * angleStep
        invariant vertices == Flat(Centre) + Flat(Top(height)) + RimPoints(t, nDiv, radius, i - 2)
        invariant verticesToDraw == old(verticesToDraw) && normals == old(normals)
      {
        var x := t.Cos(angle) * radius;
        var z := t.Sin(angle) * radius;
        var y := centre.y;
        ghost var p := RimPoint(t, radius, RimAngle(i - 2, nDiv));
        assert angle == RimAngle(i - 2, nDiv);
        assert x == p.x && y == p.y && z == p.z;
        vertices := vertices + [x, y, z];
        i := i + 1;
        angle := angle + angleStep;
        assert angle == ((i - 2) as real) * angleStep by {
          StepMore(i - 3, angleStep);
        }
      }
    }

    /** The constructor's second part: for each rim point i, link it to its
        neighbour and the apex, then to its neighbour and the centre. */
    method LoadTriangles(nDiv: nat)
      requires 3 * (nDiv + 2) <= |vertices|
      requires AllReadable(vertices, ConeTriangles(nDiv))
      modifies this`verticesToDraw, this`normals
      ensures vertices == old(vertices)
      ensures verticesToDraw == old(verticesToDraw) + DrawBuffer(vertices, ConeTriangles(nDiv))
      ensures normals == old(normals) + NormalBuffer(vertices, ConeTriangles(nDiv))
    {
      var numberVertices := nDiv + 2;
      var i := 2;
      while i < numberVertices
        invariant 2 <= i <= numberVertices
        invariant vertices == old(vertices)
        invariant AllReadable(vertices, TrianglesUpTo(nDiv, i))
        invariant verticesToDraw == old(verticesToDraw) + DrawBuffer(vertices, TrianglesUpTo(nDiv, i))
        invariant normals == old(normals) + NormalBuffer(vertices, TrianglesUpTo(nDiv, i))
      {
        ghost var vs := vertices;
        ghost var rim := RimTriangles(nDiv, i);
        ghost var d0 := DrawBuffer(vs, TrianglesUpTo(nDiv, i));
        ghost var n0 := NormalBuffer(vs, TrianglesUpTo(nDiv, i));
        LoadRim(nDiv, i);
        assert vertices == vs;
        assert verticesToDraw == old(verticesToDraw) + d0 + TriangleBlock(vs, rim[0]) + TriangleBlock(vs, rim[1]);
        assert normals == old(normals) + n0 + NormalBlock(vs, rim[0]) + NormalBlock(vs, rim[1]);
        RimStep(vs, nDiv, i);
        Regroup(old(verticesToDraw), d0, TriangleBlock(vs, rim[0]), TriangleBlock(vs, rim[1]));
        Regroup(old(normals), n0, NormalBlock(vs, rim[0]), NormalBlock(vs, rim[1]));
        assert verticesToDraw == old(verticesToDraw) + DrawBuffer(vs, TrianglesUpTo(nDiv, i + 1));
        assert normals == old(normals) + NormalBuffer(vs, TrianglesUpTo(nDiv, i + 1));
        i := i + 1;
      }
    }

    /** One pass of the triangle loop: the side triangle, then the base
        triangle, of rim point i; the last rim point is linked back to
        point 2. */
    method LoadRim(nDiv: nat, i: nat)
      requires 2 <= i <= nDiv + 1
      requires 3 * (nDiv + 2) <= |vertices|
      modifies this`verticesToDraw, this`normals
      ensures vertices == old(vertices)
      ensures Readable(vertices, RimTriangles(nDiv, i)[0]) && Readable(vertices, RimTriangles(nDiv, i)[1])
      ensures verticesToDraw == old(verticesToDraw)
        + TriangleBlock(vertices, RimTriangles(nDiv, i)[0]) + TriangleBlock(vertices, RimTriangles(nDiv, i)[1])
      ensures normals == old(normals)
        + NormalBlock(vertices, RimTriangles(nDiv, i)[0]) + NormalBlock(vertices, RimTriangles(nDiv, i)[1])
    {
      var numberVertices := nDiv + 2;
      ghost var rim := RimTriangles(nDiv, i);
      if i < numberVertices - 1 {
        assert rim[0] == Tri(i + 1, i, TopIndex) && rim[1] == Tri(i, i + 1, CentreIndex);
        UpdateNormal(i + 1, i, 1);
        UpdateNormal(i, i + 1, 0);
      } else {
        assert rim[0] == Tri(2, i, TopIndex) && rim[1] == Tri(i, 2, CentreIndex);
        UpdateNormal(2, i, 1);
        UpdateNormal(i, 2, 0);
      }
      assert verticesToDraw == old(verticesToDraw) + TriangleBlock(vertices, rim[0]) + TriangleBlock(vertices, rim[1]);
      assert normals == old(normals) + NormalBlock(vertices, rim[0]) + NormalBlock(vertices, rim[1]);
    }
  }

  /** The page's cone: `new Cone(400, 1, 2)`. */
  const PageDivisions: nat := 400
  const PageRadius: real := 1.0
  const PageHeight: real := 2.0

  /** The body of `initVertexBuffers` for a cone of any size: build it,
      upload `verticesToDraw` and `normals` (each upload reduced to whether
      it succeeded), and return the number of vertices to draw,
      `verticesToDraw.length / 3`, or -1 as soon as an upload fails. */
  method InitConeBuffers(t: Trig, nDiv: nat, radius: real, height: real,
                         positionsUploaded: bool, normalsUploaded: bool)
    returns (count: int)
    ensures positionsUploaded && normalsUploaded ==>
              3 * count == |ConeDrawBuffer(t, nDiv, radius, height)| == |ConeNormals(t, nDiv, radius, height)|
    ensures positionsUploaded && normalsUploaded ==> count == 6 * nDiv
    ensures !(positionsUploaded && normalsUploaded) ==> count == -1
  {
    var shape := new Cone(t, nDiv, radius, height);
    ConeBufferSizes(t, nDiv, radius, height);
    if !positionsUploaded {
      return -1;
    }
    if !normalsUploaded {
      return -1;
    }
    count := |shape.verticesToDraw| / 3;
  }

  /** `initVertexBuffers`: the page's cone draws 2 * 400 triangles, that is
      2400 vertices, or the function reports -1. */
  method InitVertexBuffers(t: Trig, positionsUploaded: bool, normalsUploaded: bool) returns (count: int)
    ensures count == (if positionsUploaded && normalsUploaded then 2400 else -1)
  {
    count := InitConeBuffers(t, PageDivisions, PageRadius, PageHeight, positionsUploaded, normalsUploaded);
  }
}
