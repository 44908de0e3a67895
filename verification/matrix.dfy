/*
 * `XBRZMatrix`: addressing of the scale x scale output block of one source
 * pixel, seen through one of the four rotations.
 */
module Matrix {
  import opened Rotation
  import Grid

  /** Base offset `n` of the scale in the rotation table, table offset `nr`
      of the current rotation, target row width and block origin `outi`. */
  datatype Matrix = Matrix(n: int, outWidth: int, nr: int, outi: int)

  /** `new XBRZMatrix(scale, out, outWidth)`; `nr` and `outi` start at 0. */
  function NewMatrix(scale: int, outWidth: int): (m: Matrix)
    ensures m.outWidth == outWidth
    ensures 2 <= scale <= 5 ==> 0 <= m.n < |MatrixRotationTable()| && m.n == TableIndex(scale, 0, 0, 0)
  {
    Matrix((scale - 2) * (MaxRots * MaxScaleSq), outWidth, 0, 0)
  }

  /** `move(rotDeg, outi)`: select the rotation and the block origin. */
  function Move(m: Matrix, rotDeg: int, outi: int): (r: Matrix)
    ensures r.n == m.n && r.outWidth == m.outWidth && r.outi == outi
    ensures r.nr - m.n == rotDeg * MaxScaleSq
  {
    m.(nr := m.n + rotDeg * MaxScaleSq, outi := outi)
  }

  /** The matrix as `scalePixel` uses it: scale's table, rotation `rotDeg`,
      block origin `outi`. */
  function Block(scale: int, outWidth: int, rotDeg: int, outi: int): Matrix
  {
    Move(NewMatrix(scale, outWidth), rotDeg, outi)
  }

  /** `ref(i, j)`: the target index of cell (i, j) of the block. The table
      lookup throws in Java unless the index lies inside the table. */
  function Ref(m: Matrix, i: int, j: int): int
    requires 0 <= m.nr + i * MaxScale + j < |MatrixRotationTable()|
  {
    var rot := MatrixRotationTable()[m.nr + i * MaxScale + j];
    m.outi + rot.J + rot.I * m.outWidth
  }

  /** For every scale, rotation and i, j < 5 the lookup stays inside the
      400-entry table, and `ref(i, j)` addresses the rotated cell of the
      block: row offset `p.I`, column offset `p.J`, both in [0, scale) when
      i, j < scale. Without rotation that is cell (i, j) itself. */
  lemma RefAddress(scale: int, outWidth: int, rotDeg: int, outi: int, i: int, j: int)
    requires 2 <= scale <= 5 && 0 <= rotDeg < 4 && 0 <= i < MaxScale && 0 <= j < MaxScale
    ensures 0 <= Block(scale, outWidth, rotDeg, outi).nr + i * MaxScale + j < |MatrixRotationTable()| == 400
    ensures Ref(Block(scale, outWidth, rotDeg, outi), i, j)
         == outi + BuildMatrixRotation(rotDeg, i, j, scale).J + BuildMatrixRotation(rotDeg, i, j, scale).I * outWidth
    ensures 0 <= i < scale && 0 <= j < scale ==> InBlock(BuildMatrixRotation(rotDeg, i, j, scale), scale)
    ensures rotDeg == 0 ==> Ref(Block(scale, outWidth, rotDeg, outi), i, j) == outi + j + i * outWidth
  {
    var m := Block(scale, outWidth, rotDeg, outi);
    assert m.nr + i * MaxScale + j == TableIndex(scale, rotDeg, i, j);
    MatrixRotationTableAt(scale, rotDeg, i, j);
  }

  /** The block fits in a target of length `len` whose rows are `outWidth`
      wide: it starts at a non-negative index, is no wider than a row, and its
      bottom-right cell is inside the target. */
  predicate BlockFits(len: int, scale: int, outWidth: int, outi: int)
  {
    0 <= outi && scale <= outWidth && outi + (scale - 1) * outWidth + (scale - 1) < len
  }

  /** Every cell of a fitting block is a valid target index. */
  lemma {:induction false} RefInTarget(len: int, scale: int, outWidth: int, rotDeg: int, outi: int, i: int, j: int)
    requires 2 <= scale <= 5 && 0 <= rotDeg < 4 && 0 <= i < scale && 0 <= j < scale
    requires BlockFits(len, scale, outWidth, outi)
    ensures 0 <= Block(scale, outWidth, rotDeg, outi).nr + i * MaxScale + j < |MatrixRotationTable()|
    ensures 0 <= Ref(Block(scale, outWidth, rotDeg, outi), i, j) < len
  {
    RefAddress(scale, outWidth, rotDeg, outi, i, j);
    var p := BuildMatrixRotation(rotDeg, i, j, scale);
    Grid.MulMono(p.I, scale - 1, outWidth);
    Grid.MulMono(0, p.I, outWidth);
  }

  /** Two cells of a block with `outWidth >= scale` share a target index
      only if they are the same cell. */
  lemma {:induction false} RefInjective(scale: int, outWidth: int, rotDeg: int, outi: int, i: int, j: int, i': int, j': int)
    requires 2 <= scale <= 5 && 0 <= rotDeg < 4 && scale <= outWidth
    requires 0 <= i < scale && 0 <= j < scale && 0 <= i' < scale && 0 <= j' < scale
    requires Ref(Block(scale, outWidth, rotDeg, outi), i, j) == Ref(Block(scale, outWidth, rotDeg, outi), i', j')
    ensures i == i' && j == j'
  {
    RefAddress(scale, outWidth, rotDeg, outi, i, j);
    RefAddress(scale, outWidth, rotDeg, outi, i', j');
    var p := BuildMatrixRotation(rotDeg, i, j, scale);
    var p' := BuildMatrixRotation(rotDeg, i', j', scale);
    Grid.IdxInjective(outWidth, p.J, p.I, p'.J, p'.I);
    MatrixRotationInjective(rotDeg, i, j, i', j', scale);
  }
}
