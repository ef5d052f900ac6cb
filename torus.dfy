/** The parametric torus builder: an (nDiv + 1) x (nDiv + 1) grid of
    (phi, theta) samples written to flat position and normal buffers in
    row-major order, and two triangles per grid cell written to an index
    buffer that is uploaded as 16-bit indices. */
module TorusMesh {
  import opened Layout
  import opened JsMath

  /** The angle of step k of nDiv around a full turn: k * 2 * Math.PI / nDiv
      (phi for ring j, theta for column i). */
  function StepAngle(k: nat, nDiv: nat): real
    requires nDiv > 0
  {
    (k as real) * 2.0 * Pi / (nDiv as real)
  }

  /** The normal at angles (phi, theta): (cos theta cos phi, cos theta sin phi, sin theta). */
  function TorusNormal(t: Trig, phi: real, theta: real): Vec3
  {
    Vec3(t.Cos(theta) * t.Cos(phi), t.Cos(theta) * t.Sin(phi), t.Sin(theta))
  }

  /** The position at angles (phi, theta):
      (sin phi (R + r cos theta), cos phi (R + r cos theta), r sin theta).
      Its z is radiusInner times its normal's z, both coming from sin theta. */
  function TorusPoint(t: Trig, radius: real, radiusInner: real, phi: real, theta: real): (p: Vec3)
    ensures p.z == radiusInner * TorusNormal(t, phi, theta).z
  {
    Vec3(t.Sin(phi) * (radius + radiusInner * t.Cos(theta)),
         t.Cos(phi) * (radius + radiusInner * t.Cos(theta)),
         t.Sin(theta) * radiusInner)
  }

  /** The six indices of grid cell (j, i): triangles (p1, p2, p1 + 1) and
      (p1 + 1, p2, p2 + 1), with p1 = j * (nDiv + 1) + i and p2 = p1 + nDiv + 1. */
  function CellIndices(nDiv: nat, j: nat, i: nat): (r: seq<int>)
    ensures |r| == 6
  {
    var p1 := j * (nDiv + 1) + i;
    var p2 := p1 + (nDiv + 1);
    [p1, p2, p1 + 1] + [p1 + 1, p2, p2 + 1]
  }

  /** The position blocks of the ring at angle phi: column i holds the
      sample at theta = StepAngle(i, nDiv). */
  function RingPoints(t: Trig, nDiv: nat, radius: real, radiusInner: real, phi: real): nat -> seq<real>
    requires nDiv > 0
  {
    (i: nat) => Flat(TorusPoint(t, radius, radiusInner, phi, StepAngle(i, nDiv)))
  }

  /** The normal blocks of the ring at angle phi. */
  function RingNormals(t: Trig, nDiv: nat, phi: real): nat -> seq<real>
    requires nDiv > 0
  {
    (i: nat) => Flat(TorusNormal(t, phi, StepAngle(i, nDiv)))
  }

  /** Ring j of the position grid lies at phi = StepAngle(j, nDiv). */
  function PointBlocks(t: Trig, nDiv: nat, radius: real, radiusInner: real): (g: nat -> nat -> seq<real>)
    requires nDiv > 0
    ensures forall j: nat, i: nat {:trigger g(j)(i)} ::
      g(j)(i) == Flat(TorusPoint(t, radius, radiusInner, StepAngle(j, nDiv), StepAngle(i, nDiv)))
  {
    (j: nat) => RingPoints(t, nDiv, radius, radiusInner, StepAngle(j, nDiv))
  }

  function NormalBlocks(t: Trig, nDiv: nat): (g: nat -> nat -> seq<real>)
    requires nDiv > 0
    ensures forall j: nat, i: nat {:trigger g(j)(i)} :: g(j)(i) == Flat(TorusNormal(t, StepAngle(j, nDiv), StepAngle(i, nDiv)))
  {
    (j: nat) => RingNormals(t, nDiv, StepAngle(j, nDiv))
  }

  function CellBlocks(nDiv: nat): (g: nat -> nat -> seq<int>)
    ensures forall j: nat, i: nat {:trigger g(j)(i)} :: g(j)(i) == CellIndices(nDiv, j, i)
  {
    (j: nat) => (i: nat) => CellIndices(nDiv, j, i)
  }

  /** The finished `vertices` buffer: every sample, ring by ring. */
  function TorusVertices(t: Trig, nDiv: nat, radius: real, radiusInner: real): seq<real>
    requires nDiv > 0
  {
    Rows(PointBlocks(t, nDiv, radius, radiusInner), nDiv + 1, nDiv + 1)
  }

  /** The finished `normals` buffer, aligned with `vertices`. */
  function TorusNormals(t: Trig, nDiv: nat): seq<real>
    requires nDiv > 0
  {
    Rows(NormalBlocks(t, nDiv), nDiv + 1, nDiv + 1)
  }

  /** The finished `indices` buffer: the cells with j, i < nDiv, row by row. */
  function TorusIndices(nDiv: nat): seq<int>
  {
    Rows(CellBlocks(nDiv), nDiv, nDiv)
  }

  /** The number of grid samples, (nDiv + 1)^2. */
  function SampleCount(nDiv: nat): nat
  {
    (nDiv + 1) * (nDiv + 1)
  }

  /** `vertices` and `normals` hold 3 (nDiv + 1)^2 numbers each, one normal
      triple per vertex triple, and `indices` holds 6 nDiv^2 entries. */
  lemma TorusBufferSizes(t: Trig, nDiv: nat, radius: real, radiusInner: real)
    requires nDiv > 0
    ensures |TorusVertices(t, nDiv, radius, radiusInner)| == 3 * SampleCount(nDiv)
    ensures |TorusNormals(t, nDiv)| == 3 * SampleCount(nDiv)
    ensures |TorusIndices(nDiv)| == 6 * (nDiv * nDiv)
  {
    RowsLength(PointBlocks(t, nDiv, radius, radiusInner), nDiv + 1, nDiv + 1, 3);
    RowsLength(NormalBlocks(t, nDiv), nDiv + 1, nDiv + 1, 3);
    RowsLength(CellBlocks(nDiv), nDiv, nDiv, 6);
  }

  /** Grid sample (j, i) is vertex number j * (nDiv + 1) + i, the number the
      index loop calls p1, in both the position and the normal buffer. */
  lemma TorusSampleAt(t: Trig, nDiv: nat, radius: real, radiusInner: real, j: nat, i: nat)
    requires nDiv > 0
    requires j <= nDiv && i <= nDiv
    ensures j * (nDiv + 1) + i < SampleCount(nDiv)
    ensures 3 * (j * (nDiv + 1) + i) + 3 <= |TorusVertices(t, nDiv, radius, radiusInner)|
    ensures 3 * (j * (nDiv + 1) + i) + 3 <= |TorusNormals(t, nDiv)|
    ensures Triple(TorusVertices(t, nDiv, radius, radiusInner), j * (nDiv + 1) + i)
         == TorusPoint(t, radius, radiusInner, StepAngle(j, nDiv), StepAngle(i, nDiv))
    ensures Triple(TorusNormals(t, nDiv), j * (nDiv + 1) + i)
         == TorusNormal(t, StepAngle(j, nDiv), StepAngle(i, nDiv))
  {
    var k := j * (nDiv + 1) + i;
    RowsBlock(PointBlocks(t, nDiv, radius, radiusInner), nDiv + 1, nDiv + 1, 3, j, i);
    RowsBlock(NormalBlocks(t, nDiv), nDiv + 1, nDiv + 1, 3, j, i);
    TorusBufferSizes(t, nDiv, radius, radiusInner);
    assert 3 * k + 3 <= 3 * SampleCount(nDiv);
  }

  /** Cell (j, i), for j, i < nDiv, is entries 6 (j nDiv + i) .. + 6 of the
      index buffer: the loops emit the cells row by row. */
  lemma TorusCellAt(nDiv: nat, j: nat, i: nat)
    requires j < nDiv && i < nDiv
    ensures 6 * (j * nDiv + i) + 6 <= |TorusIndices(nDiv)|
    ensures TorusIndices(nDiv)[6 * (j * nDiv + i) .. 6 * (j * nDiv + i) + 6] == CellIndices(nDiv, j, i)
  {
    RowsBlock(CellBlocks(nDiv), nDiv, nDiv, 6, j, i);
  }

  /** Every index of cell (j, i), for j, i < nDiv, names a vertex:
      0 <= index < (nDiv + 1)^2. */
  lemma CellIndicesInRange(nDiv: nat, j: nat, i: nat)
    requires j < nDiv && i < nDiv
    ensures forall x :: x in CellIndices(nDiv, j, i) ==> 0 <= x < SampleCount(nDiv)
  {
    MulNonNegative(j, nDiv + 1);
    MulLeft(j, nDiv - 1, nDiv + 1);
    LastCellBound(nDiv);
  }

  lemma LastCellBound(nDiv: nat)
    requires nDiv > 0
    ensures (nDiv - 1) * (nDiv + 1) + 2 * nDiv + 1 == SampleCount(nDiv) - 1
  {
  }

  /** The two triangles of a cell share the edge p2 - (p1 + 1); p2 is the
      same column one ring further on; p1 + 1 stays in ring j because
      i < nDiv. */
  lemma CellShape(nDiv: nat, j: nat, i: nat)
    requires j < nDiv && i < nDiv
    ensures |CellIndices(nDiv, j, i)| == 6
    ensures CellIndices(nDiv, j, i)[1] == CellIndices(nDiv, j, i)[4]
    ensures CellIndices(nDiv, j, i)[2] == CellIndices(nDiv, j, i)[3]
    ensures CellIndices(nDiv, j, i)[1] == CellIndices(nDiv, j, i)[0] + (nDiv + 1)
    ensures CellIndices(nDiv, j, i)[5] == CellIndices(nDiv, j, i)[3] + (nDiv + 1)
    ensures j * (nDiv + 1) <= CellIndices(nDiv, j, i)[2] < (j + 1) * (nDiv + 1)
  {
  }

  /** Every index the torus emits names one of its (nDiv + 1)^2 vertices. */
  lemma TorusIndicesInRange(nDiv: nat)
    ensures forall x :: x in TorusIndices(nDiv) ==> 0 <= x < SampleCount(nDiv)
  {
    forall x | x in TorusIndices(nDiv) ensures 0 <= x < SampleCount(nDiv) {
      RowsElements(CellBlocks(nDiv), nDiv, nDiv, x);
      var j: nat, i: nat :| j < nDiv && i < nDiv && x in CellIndices(nDiv, j, i);
      CellIndicesInRange(nDiv, j, i);
    }
  }

  /** The bound is tight: the last cell's p2 + 1 is (nDiv + 1)^2 - 1. */
  lemma TorusLargestIndex(nDiv: nat)
    requires nDiv > 0
    ensures SampleCount(nDiv) - 1 in TorusIndices(nDiv)
  {
    TorusCellAt(nDiv, nDiv - 1, nDiv - 1);
    LastCellBound(nDiv);
    var last := CellIndices(nDiv, nDiv - 1, nDiv - 1);
    assert last[5] == (nDiv - 1) * (nDiv + 1) + 2 * nDiv + 1;
    var lo := 6 * ((nDiv - 1) * nDiv + (nDiv - 1));
    assert TorusIndices(nDiv)[lo + 5] == last[5];
  }

  class Torus {
    var vertices: seq<real>
    var indices: seq<int>
    var normals: seq<real>

    /** `new Torus(nDiv, radius, radiusInner)`: fills the three buffers. */
    constructor (t: Trig, nDiv: nat, radius: real, radiusInner: real)
      requires nDiv > 0
      ensures vertices == TorusVertices(t, nDiv, radius, radiusInner)
      ensures normals == TorusNormals(t, nDiv)
      ensures indices == TorusIndices(nDiv)
    {
      vertices := [];
      indices := [];
      normals := [];
      new;
      ghost var pointAt, normalAt := PointBlocks(t, nDiv, radius, radiusInner), NormalBlocks(t, nDiv);
      SampleGrid(t, nDiv, radius, radiusInner, pointAt, normalAt);
      ghost var cellAt := CellBlocks(nDiv);
      TriangulateCells(nDiv, cellAt);
    }

    /** The constructor's first loop pair: for every ring j <= nDiv, at
        angle phi = StepAngle(j, nDiv), push the ring's samples. The ghost
        grids name the block of each sample, as PointBlocks and
        NormalBlocks do. */
    method SampleGrid(t: Trig, nDiv: nat, radius: real, radiusInner: real,
                      ghost pointAt: nat -> nat -> seq<real>, ghost normalAt: nat -> nat -> seq<real>)
      requires nDiv > 0
      requires forall j: nat, i: nat {:trigger pointAt(j)(i)} :: pointAt(j)(i) == Flat(TorusPoint(t, radius, radiusInner, StepAngle(j, nDiv), StepAngle(i, nDiv)))
      requires forall j: nat, i: nat {:trigger normalAt(j)(i)} :: normalAt(j)(i) == Flat(TorusNormal(t, StepAngle(j, nDiv), StepAngle(i, nDiv)))
      modifies this
      ensures vertices == old(vertices) + Rows(pointAt, nDiv + 1, nDiv + 1)
      ensures normals == old(normals) + Rows(normalAt, nDiv + 1, nDiv + 1)
      ensures indices == old(indices)
    {
      ghost var vertices0, normals0 := vertices, normals;
      var j: nat := 0;
      while j <= nDiv
        invariant j <= nDiv + 1
        invariant vertices == vertices0 + Rows(pointAt, nDiv + 1, j)
        invariant normals == normals0 + Rows(normalAt, nDiv + 1, j)
        invariant indices == old(indices)
      {
        var phi := StepAngle(j, nDiv);
        SampleRing(t, nDiv, radius, radiusInner, phi, pointAt(j), normalAt(j));
        AppendRow(vertices0, pointAt, nDiv + 1, j);
        AppendRow(normals0, normalAt, nDiv + 1, j);
        j := j + 1;
      }
    }

    /** The inner loop of the first pair, for the ring at angle phi: for
        every column i <= nDiv, at angle theta = StepAngle(i, nDiv), push
        the position and the normal of sample (phi, theta). */
    method SampleRing(t: Trig, nDiv: nat, radius: real, radiusInner: real, phi: real,
                      ghost pointAt: nat -> seq<real>, ghost normalAt: nat -> seq<real>)
      requires nDiv > 0
      requires forall i: nat {:trigger pointAt(i)} :: pointAt(i) == Flat(TorusPoint(t, radius, radiusInner, phi, StepAngle(i, nDiv)))
      requires forall i: nat {:trigger normalAt(i)} :: normalAt(i) == Flat(TorusNormal(t, phi, StepAngle(i, nDiv)))
      modifies this
      ensures vertices == old(vertices) + Row(pointAt, nDiv + 1)
      ensures normals == old(normals) + Row(normalAt, nDiv + 1)
      ensures indices == old(indices)
    {
      ghost var vertices0, normals0 := vertices, normals;
      var i: nat := 0;
      while i <= nDiv
        invariant i <= nDiv + 1
        invariant vertices == vertices0 + Row(pointAt, i)
        invariant normals == normals0 + Row(normalAt, i)
        invariant indices == old(indices)
      {
        var theta := StepAngle(i, nDiv);
        PushSample(t, radius, radiusInner, phi, theta);
        AppendBlock(vertices0, pointAt, i);
        AppendBlock(normals0, normalAt, i);
        i := i + 1;
      }
    }

    /** The body of the inner sampling loop: push the position and the
        normal of the sample at angles (phi, theta). */
    method PushSample(t: Trig, radius: real, radiusInner: real, phi: real, theta: real)
      modifies this
      ensures vertices == old(vertices) + Flat(TorusPoint(t, radius, radiusInner, phi, theta))
      ensures normals == old(normals) + Flat(TorusNormal(t, phi, theta))
      ensures indices == old(indices)
    {
      var x := t.Sin(phi) * (radius + radiusInner * t.Cos(theta));
      var y := t.Cos(phi) * (radius + radiusInner * t.Cos(theta));
      var z := t.Sin(theta) * radiusInner;
      ghost var p := TorusPoint(t, radius, radiusInner, phi, theta);
      assert x == p.x && y == p.y && z == p.z;
      vertices := vertices + [x, y, z];

      var normalX := t.Cos(theta) * t.Cos(phi);
      var normalY := t.Cos(theta) * t.Sin(phi);
      var normalZ := t.Sin(theta);
      ghost var n := TorusNormal(t, phi, theta);
      assert normalX == n.x && normalY == n.y && normalZ == n.z;
      normals := normals + [normalX, normalY, normalZ];
    }

    /** The constructor's second loop pair: for every row of cells
        j < nDiv, push the triangles of the row. The ghost grid names the
        block of each cell, as CellBlocks does. */
    method TriangulateCells(nDiv: nat, ghost cellAt: nat -> nat -> seq<int>)
      requires forall j: nat, i: nat {:trigger cellAt(j)(i)} :: cellAt(j)(i) == CellIndices(nDiv, j, i)
      modifies this
      ensures indices == old(indices) + Rows(cellAt, nDiv, nDiv)
      ensures vertices == old(vertices) && normals == old(normals)
    {
      ghost var indices0 := indices;
      var j: nat := 0;
      while j < nDiv
        invariant j <= nDiv
        invariant indices == indices0 + Rows(cellAt, nDiv, j)
        invariant vertices == old(vertices) && normals == old(normals)
      {
        TriangulateRow(nDiv, j, cellAt(j));
        AppendRow(indices0, cellAt, nDiv, j);
        j := j + 1;
      }
    }

    /** The inner loop of the second pair, for row j: for every cell
        i < nDiv, with p1 = j * (nDiv + 1) + i and p2 = p1 + nDiv + 1, push
        the triangles (p1, p2, p1 + 1) and (p1 + 1, p2, p2 + 1). */
    method TriangulateRow(nDiv: nat, j: nat, ghost cellAt: nat -> seq<int>)
      requires forall i: nat {:trigger cellAt(i)} :: cellAt(i) == CellIndices(nDiv, j, i)
      modifies this
      ensures indices == old(indices) + Row(cellAt, nDiv)
      ensures vertices == old(vertices) && normals == old(normals)
    {
      ghost var indices0 := indices;
      var i: nat := 0;
      while i < nDiv
        invariant i <= nDiv
        invariant indices == indices0 + Row(cellAt, i)
        invariant vertices == old(vertices) && normals == old(normals)
      {
        ghost var before := indices;
        var p1 := j * (nDiv + 1) + i;
        var p2 := p1 + (nDiv + 1);
        indices := indices + [p1, p2, p1 + 1];
        indices := indices + [p1 + 1, p2, p2 + 1];
        assert indices == before + cellAt(i);
        AppendBlock(indices0, cellAt, i);
        i := i + 1;
      }
    }
  }

  /** The divisions, radius and inner radius of the torus the page draws. */
  const CubeDivisions: nat := 200
  const CubeRadius: real := 1.0
  const CubeRadiusInner: real := 0.2

  /** The body of `initVertexBuffersCube` for a torus of any size: builds
      `Torus(nDiv, radius, radiusInner)`, uploads positions and normals,
      creates the index buffer, uploads the indices through a
      `Uint16Array` and returns `indices.length`; any WebGL step that fails
      makes it return -1. The outcome of each step is a parameter. The
      upload keeps every index when the torus has at most 65536 vertices. */
  method InitTorusBuffers(t: Trig, nDiv: nat, radius: real, radiusInner: real,
                          positionsUploaded: bool, normalsUploaded: bool, indexBufferCreated: bool)
    returns (count: int, indexBuffer: seq<int>)
    requires nDiv > 0
    ensures positionsUploaded && normalsUploaded && indexBufferCreated ==>
              count == |indexBuffer| == 6 * (nDiv * nDiv) && indexBuffer == Uint16Array(TorusIndices(nDiv))
    ensures !(positionsUploaded && normalsUploaded && indexBufferCreated) ==> count == -1 && indexBuffer == []
    ensures SampleCount(nDiv) <= Uint16Limit ==> forall x :: x in indexBuffer ==> 0 <= x < SampleCount(nDiv)
    ensures SampleCount(nDiv) <= Uint16Limit && count != -1 ==> indexBuffer == TorusIndices(nDiv)
  {
    var shape := new Torus(t, nDiv, radius, radiusInner);
    TorusBufferSizes(t, nDiv, radius, radiusInner);
    TorusIndicesInRange(nDiv);
    if !positionsUploaded || !normalsUploaded || !indexBufferCreated {
      return -1, [];
    }
    indexBuffer := Uint16Array(shape.indices);
    count := |shape.indices|;
    if SampleCount(nDiv) <= Uint16Limit {
      Uint16ArrayKeeps(shape.indices);
    }
  }

  /** The page's torus has 201 * 201 = 40401 vertices, so every index it
      emits is below 65536 and survives the `Uint16Array` upload. */
  lemma CubeIndicesFit()
    ensures SampleCount(CubeDivisions) == 40401 <= Uint16Limit
    ensures forall x :: x in TorusIndices(CubeDivisions) ==> 0 <= x < 40401
  {
    TorusIndicesInRange(CubeDivisions);
  }

  /** `initVertexBuffersCube`: uploads the buffers of the page's
      `Torus(200, 1, 0.2)` and returns the number of indices to draw,
      240000, or -1 when a WebGL step fails. */
  method InitVertexBuffersCube(t: Trig, positionsUploaded: bool, normalsUploaded: bool, indexBufferCreated: bool)
    returns (count: int)
    ensures count == (if positionsUploaded && normalsUploaded && indexBufferCreated then 240000 else -1)
  {
    var indexBuffer;
    count, indexBuffer := InitTorusBuffers(t, CubeDivisions, CubeRadius, CubeRadiusInner,
                                           positionsUploaded, normalsUploaded, indexBufferCreated);
  }
}
