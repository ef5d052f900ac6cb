/** Flat buffer layout shared by the mesh builders: a point is three
    consecutive numbers of a flat array, and the grid builders emit one
    block per sample in row-major order. */
module Layout {

  /** A point or direction in space (three JavaScript numbers, as reals). */
  datatype Vec3 = Vec3(x: real, y: real, z: real)

  /** The three numbers `push(x, y, z)` appends for a point. */
  function Flat(v: Vec3): (s: seq<real>)
    ensures |s| == 3
  {
    [v.x, v.y, v.z]
  }

  /** Point number `k` of a flat buffer: the numbers at 3k, 3k+1, 3k+2. */
  function Triple(s: seq<real>, k: nat): (v: Vec3)
    requires 3 * k + 3 <= |s|
    ensures Flat(v) == s[3 * k .. 3 * k + 3]
  {
    Vec3(s[3 * k], s[3 * k + 1], s[3 * k + 2])
  }

  /** The blocks of one row, columns 0 .. cols - 1: what an inner
      counting loop appends, one block row(i) per column i. */
  function Row<T>(row: nat -> seq<T>, cols: nat): seq<T>
  {
    if cols == 0 then [] else Row(row, cols - 1) + row(cols - 1)
  }

  /** Rows 0 .. rows - 1 of a grid of the given width, in row-major order:
      what two nested counting loops append, block grid(j)(i) for row j
      and column i. */
  function Rows<T>(grid: nat -> nat -> seq<T>, width: nat, rows: nat): seq<T>
  {
    if rows == 0 then [] else Rows(grid, width, rows - 1) + Row(grid(rows - 1), width)
  }

  /** Every block of every row has `size` elements. */
  ghost predicate UniformBlocks<T>(grid: nat -> nat -> seq<T>, size: nat)
  {
    forall j: nat, i: nat :: |grid(j)(i)| == size
  }

  /** Every block of one row has `size` elements. */
  ghost predicate UniformRow<T>(row: nat -> seq<T>, size: nat)
  {
    forall i: nat :: |row(i)| == size
  }

  lemma MulMonotonic(a: nat, b: nat, c: nat)
    requires a <= b
    ensures c * a <= c * b
  {
  }

  lemma MulSucc(a: nat, b: nat)
    ensures a * (b + 1) == a * b + a
  {
  }

  lemma MulStep(size: nat, width: nat, r: nat)
    ensures size * ((r + 1) * width) == size * (r * width) + size * width
  {
    assert (r + 1) * width == r * width + width;
  }

  /** A row of `cols` uniform blocks holds size * cols elements. */
  lemma {:induction false} RowLength<T>(row: nat -> seq<T>, cols: nat, size: nat)
    requires UniformRow(row, size)
    ensures |Row(row, cols)| == size * cols
  {
    if cols > 0 {
      RowLength(row, cols - 1, size);
      MulSucc(size, cols - 1);
    }
  }

  /** `rows` rows of `width` uniform blocks hold size * (rows * width) elements. */
  lemma {:induction false} RowsLength<T>(grid: nat -> nat -> seq<T>, width: nat, rows: nat, size: nat)
    requires UniformBlocks(grid, size)
    ensures |Rows(grid, width, rows)| == size * (rows * width)
  {
    if rows > 0 {
      var r: nat := rows - 1;
      RowsLength(grid, width, r, size);
      assert UniformRow(grid(r), size);
      RowLength(grid(r), width, size);
      MulStep(size, width, r);
    }
  }

  /** Column i of a row is block number i, and later columns leave it in place. */
  lemma {:induction false} RowBlock<T>(row: nat -> seq<T>, cols: nat, size: nat, i: nat)
    requires UniformRow(row, size)
    requires i < cols
    ensures size * i + size <= |Row(row, cols)|
    ensures Row(row, cols)[size * i .. size * i + size] == row(i)
  {
    var c: nat := cols - 1;
    var prev := Row(row, c);
    var last := row(c);
    assert Row(row, cols) == prev + last;
    RowLength(row, c, size);
    var lo: nat := size * i;
    MulSucc(size, i);
    if i < c {
      MulMonotonic(i + 1, c, size);
      RowBlock(row, c, size, i);
      SliceOfLeft(prev, last, lo, lo + size);
    } else {
      SliceOfRight(prev, last, lo, lo + size);
    }
  }

  lemma SliceOfLeft<T>(a: seq<T>, b: seq<T>, lo: nat, hi: nat)
    requires lo <= hi <= |a|
    ensures (a + b)[lo .. hi] == a[lo .. hi]
  {
  }

  lemma SliceOfRight<T>(a: seq<T>, b: seq<T>, lo: nat, hi: nat)
    requires |a| <= lo <= hi <= |a| + |b|
    ensures (a + b)[lo .. hi] == b[lo - |a| .. hi - |a|]
  {
  }

  /** A block of an earlier row ends before the last row starts. */
  lemma MulLeft(a: nat, b: nat, c: nat)
    requires a <= b
    ensures a * c <= b * c
  {
  }

  lemma SuccMul(a: nat, b: nat)
    ensures (a + 1) * b == a * b + b
  {
  }

  lemma MulNonNegative(a: nat, b: nat)
    ensures 0 <= a * b
  {
  }

  /** A block of an earlier row ends before the last row starts. */
  lemma OffsetInEarlierRow(size: nat, width: nat, rows: nat, j: nat, i: nat)
    requires j + 1 < rows && i < width
    ensures 0 <= size * (j * width + i)
    ensures size * (j * width + i) + size <= size * ((rows - 1) * width)
  {
    MulNonNegative(j, width);
    var k: nat := j * width + i;
    MulNonNegative(size, k);
    SuccMul(j, width);
    MulLeft(j + 1, rows - 1, width);
    assert k + 1 <= (rows - 1) * width;
    MulNonNegative(rows - 1, width);
    MulMonotonic(k + 1, (rows - 1) * width, size);
    MulSucc(size, k);
  }

  lemma OffsetInLastRow(size: nat, width: nat, j: nat, i: nat)
    ensures 0 <= size * (j * width) && 0 <= size * i
    ensures size * (j * width + i) == size * (j * width) + size * i
    ensures size * (j * width + i) + size == size * (j * width) + (size * i + size)
  {
  }

  /** Grid sample (j, i) is block number j * width + i of the row-major
      buffer: its numbers sit at size * (j * width + i) onwards. */
  lemma {:induction false} RowsBlock<T>(grid: nat -> nat -> seq<T>, width: nat, rows: nat, size: nat, j: nat, i: nat)
    requires UniformBlocks(grid, size)
    requires j < rows && i < width
    ensures size * (j * width + i) + size <= |Rows(grid, width, rows)|
    ensures Rows(grid, width, rows)[size * (j * width + i) .. size * (j * width + i) + size] == grid(j)(i)
  {
    var r: nat := rows - 1;
    var prev := Rows(grid, width, r);
    var row := Row(grid(r), width);
    assert Rows(grid, width, rows) == prev + row;
    RowsLength(grid, width, r, size);
    assert UniformRow(grid(r), size);
    RowLength(grid(r), width, size);
    var lo := size * (j * width + i);
    if j < r {
      OffsetInEarlierRow(size, width, rows, j, i);
      RowsBlock(grid, width, r, size, j, i);
      SliceOfLeft(prev, row, lo, lo + size);
      assert (prev + row)[lo .. lo + size] == prev[lo .. lo + size];
    } else {
      OffsetInLastRow(size, width, j, i);
      RowBlock(grid(r), width, size, i);
      SliceOfRight(prev, row, lo, lo + size);
      assert (prev + row)[lo .. lo + size] == row[size * i .. size * i + size];
    }
  }

  /** Appending block i after the first i blocks gives the first i + 1. */
  lemma AppendBlock<T>(prefix: seq<T>, row: nat -> seq<T>, i: nat)
    ensures prefix + Row(row, i) + row(i) == prefix + Row(row, i + 1)
  {
    assert Row(row, i + 1) == Row(row, i) + row(i);
  }

  /** Finishing row j after the first j rows gives the first j + 1 rows. */
  lemma AppendRow<T>(prefix: seq<T>, grid: nat -> nat -> seq<T>, width: nat, j: nat)
    ensures prefix + Rows(grid, width, j) + Row(grid(j), width) == prefix + Rows(grid, width, j + 1)
  {
    assert Rows(grid, width, j + 1) == Rows(grid, width, j) + Row(grid(j), width);
  }

  /** Every element of a row comes from one of its blocks. */
  lemma {:induction false} RowElements<T>(row: nat -> seq<T>, cols: nat, x: T)
    requires x in Row(row, cols)
    ensures exists i: nat :: i < cols && x in row(i)
  {
    var c: nat := cols - 1;
    assert Row(row, cols) == Row(row, c) + row(c);
    if x in Row(row, c) {
      RowElements(row, c, x);
    } else {
      assert c < cols && x in row(c);
    }
  }

  /** Every element of the row-major buffer comes from some grid block. */
  lemma {:induction false} RowsElements<T>(grid: nat -> nat -> seq<T>, width: nat, rows: nat, x: T)
    requires x in Rows(grid, width, rows)
    ensures exists j: nat, i: nat :: j < rows && i < width && x in grid(j)(i)
  {
    var r: nat := rows - 1;
    assert Rows(grid, width, rows) == Rows(grid, width, r) + Row(grid(r), width);
    if x in Rows(grid, width, r) {
      RowsElements(grid, width, r, x);
      var j: nat, i: nat :| j < r && i < width && x in grid(j)(i);
      assert j < rows && i < width && x in grid(j)(i);
    } else {
      RowElements(grid(r), width, x);
      var i: nat :| i < width && x in grid(r)(i);
      assert r < rows && i < width && x in grid(r)(i);
    }
  }
}
