/*
 * The two rotation tables of the xBRZ scaler: `Rot`, the clockwise quarter
 * turns of the 3x3 kernel labels a..i, and `matrixRotation`, the quarter
 * turns of the cells of an N x N output block for N = 2..5.
 */
module Rotation {

  /** Label indices of the 3x3 kernel: a b c / d e f / g h i. */
  const A: nat := 0
  const B: nat := 1
  const C: nat := 2
  const D: nat := 3
  const E: nat := 4
  const F: nat := 5
  const G: nat := 6
  const H: nat := 7
  const I: nat := 8

  const Deg0: seq<nat> := [A, B, C, D, E, F, G, H, I]
  const Deg90: seq<nat> := [G, D, A, H, E, B, I, F, C]
  const Deg180: seq<nat> := [I, H, G, F, E, D, C, B, A]
  const Deg270: seq<nat> := [C, F, I, B, E, H, A, D, G]

  const Rotations: seq<seq<nat>> := [Deg0, Deg90, Deg180, Deg270]

  /** The flat cache `Rot._`: entry `(x << 2) + rotDeg` holds `rotation[rotDeg][x]`. */
  function RotFlat(): seq<nat>
  {
    seq(36, k requires 0 <= k < 36 => Rotations[k % 4][k / 4])
  }

  /** The label that lands on position `x` after `rotDeg` clockwise quarter turns. */
  function Rot(x: int, rotDeg: int): (r: nat)
    requires 0 <= x < 9 && 0 <= rotDeg < 4
    ensures r < 9
  {
    Rotations[rotDeg][x]
  }

  /** The flat cache answers every lookup `(x << 2) + rotDeg` with the entry
      of the table it was filled from. */
  lemma RotCache(x: int, rotDeg: int)
    requires 0 <= x < 9 && 0 <= rotDeg < 4
    ensures 0 <= x * 4 + rotDeg < |RotFlat()|
    ensures RotFlat()[x * 4 + rotDeg] == Rot(x, rotDeg)
  {
    DivModFour(x * 4 + rotDeg, x, rotDeg);
  }

  lemma {:induction false} DivModFour(k: int, q: int, r: int)
    requires 0 <= r < 4 && k == q * 4 + r
    ensures k / 4 == q && k % 4 == r
  {
  }

  /** A row of the kernel table is a permutation of the nine labels. */
  ghost predicate IsLabelPermutation(row: seq<nat>)
  {
    && |row| == 9
    && (forall x :: 0 <= x < 9 ==> row[x] < 9)
    && (forall x, y :: 0 <= x < y < 9 ==> row[x] != row[y])
  }

  /** Every row of `Rot` is a permutation of 0..8 that keeps the centre `e`
      in place. */
  lemma RotTableShape()
    ensures forall r :: 0 <= r < 4 ==> IsLabelPermutation(Rotations[r]) && Rotations[r][E] == E
  {
    forall r | 0 <= r < 4
      ensures IsLabelPermutation(Rotations[r])
    {
      var row := Rotations[r];
      assert row == Deg0 || row == Deg90 || row == Deg180 || row == Deg270;
    }
  }

  /** The half and three-quarter turns are the quarter turn applied twice
      and three times, and four quarter turns are the identity. */
  lemma RotComposition()
    ensures forall x :: 0 <= x < 9 ==> Deg180[x] == Deg90[Deg90[x]]
    ensures forall x :: 0 <= x < 9 ==> Deg270[x] == Deg90[Deg90[Deg90[x]]]
    ensures forall x :: 0 <= x < 9 ==> Deg0[x] == x && Deg90[Deg90[Deg90[Deg90[x]]]] == x
  {
    forall x | 0 <= x < 9
      ensures Deg180[x] == Deg90[Deg90[x]] && Deg270[x] == Deg90[Deg180[x]] && Deg90[Deg270[x]] == x
    {
      assert x in {0, 1, 2, 3, 4, 5, 6, 7, 8};
    }
  }

  /** A cell coordinate of an output block. */
  datatype IntPair = IntPair(I: int, J: int)

  /** Number of quarter turns, highest scale, and cells per scale and turn in
      the flat `matrixRotation` table. */
  const MaxRots: nat := 4
  const MaxScale: nat := 5
  const MaxScaleSq: nat := MaxScale * MaxScale

  /** The coordinate (in the unrotated block) of cell (I, J) of an N x N
      block after `rotDeg` clockwise quarter turns. Inside the block it stays
      inside the block. */
  function BuildMatrixRotation(rotDeg: nat, I: int, J: int, N: int): (r: IntPair)
    ensures rotDeg == 0 ==> r == IntPair(I, J)
    ensures 0 <= I < N && 0 <= J < N ==> 0 <= r.I < N && 0 <= r.J < N
    decreases rotDeg
  {
    if rotDeg == 0 then
      IntPair(I, J)
    else
      var prev := BuildMatrixRotation(rotDeg - 1, I, J, N);
      IntPair(N - 1 - prev.J, prev.I)
  }

  /** The inverse of one quarter turn, applied `rotDeg` times. */
  function UnrotateCell(rotDeg: nat, I: int, J: int, N: int): IntPair
    decreases rotDeg
  {
    if rotDeg == 0 then
      IntPair(I, J)
    else
      var p := UnrotateCell(rotDeg - 1, I, J, N);
      IntPair(p.J, N - 1 - p.I)
  }

  /** Rotating cells is one-to-one. */
  lemma {:induction false} MatrixRotationInjective(rotDeg: nat, I: int, J: int, I': int, J': int, N: int)
    requires BuildMatrixRotation(rotDeg, I, J, N) == BuildMatrixRotation(rotDeg, I', J', N)
    ensures I == I' && J == J'
    decreases rotDeg
  {
    if rotDeg > 0 {
      var p := BuildMatrixRotation(rotDeg - 1, I, J, N);
      var p' := BuildMatrixRotation(rotDeg - 1, I', J', N);
      assert p == p';
      MatrixRotationInjective(rotDeg - 1, I, J, I', J', N);
    }
  }

  /** Helper: peeling the last quarter turn off `UnrotateCell`. */
  lemma {:induction false} UnrotatePeel(rotDeg: nat, I: int, J: int, N: int)
    requires rotDeg > 0
    ensures UnrotateCell(rotDeg, I, J, N) == UnrotateCell(rotDeg - 1, J, N - 1 - I, N)
    decreases rotDeg
  {
    if rotDeg > 1 {
      UnrotatePeel(rotDeg - 1, I, J, N);
    }
  }

  /** Every cell of the block is hit: rotating the unrotated cell gives the
      cell back, and the unrotated cell of an in-block cell is in the block. */
  lemma {:induction false} MatrixRotationOnto(rotDeg: nat, I: int, J: int, N: int)
    ensures BuildMatrixRotation(rotDeg, UnrotateCell(rotDeg, I, J, N).I, UnrotateCell(rotDeg, I, J, N).J, N) == IntPair(I, J)
    ensures 0 <= I < N && 0 <= J < N ==> 0 <= UnrotateCell(rotDeg, I, J, N).I < N && 0 <= UnrotateCell(rotDeg, I, J, N).J < N
    decreases rotDeg
  {
    if rotDeg > 0 {
      UnrotatePeel(rotDeg, I, J, N);
      var u := UnrotateCell(rotDeg - 1, J, N - 1 - I, N);
      MatrixRotationOnto(rotDeg - 1, J, N - 1 - I, N);
      assert BuildMatrixRotation(rotDeg - 1, u.I, u.J, N) == IntPair(J, N - 1 - I);
    }
  }

  /** Cell `p` lies in the N x N block. */
  predicate InBlock(p: IntPair, N: int)
  {
    0 <= p.I < N && 0 <= p.J < N
  }

  /** Together with the range guarantee of `BuildMatrixRotation`: a bijection
      of the block onto itself, for every number of turns. */
  lemma MatrixRotationBijective(rotDeg: nat, N: int)
    ensures forall i, j, i', j' :: BuildMatrixRotation(rotDeg, i, j, N) == BuildMatrixRotation(rotDeg, i', j', N) ==> i == i' && j == j'
    ensures forall p :: InBlock(p, N) ==>
      exists q :: InBlock(q, N) && BuildMatrixRotation(rotDeg, q.I, q.J, N) == p
  {
    forall i, j, i', j' | BuildMatrixRotation(rotDeg, i, j, N) == BuildMatrixRotation(rotDeg, i', j', N)
      ensures i == i' && j == j'
    {
      MatrixRotationInjective(rotDeg, i, j, i', j', N);
    }
    forall p | InBlock(p, N)
      ensures exists q :: InBlock(q, N) && BuildMatrixRotation(rotDeg, q.I, q.J, N) == p
    {
      MatrixRotationOnto(rotDeg, p.I, p.J, N);
      var u := UnrotateCell(rotDeg, p.I, p.J, N);
      assert InBlock(u, N) && BuildMatrixRotation(rotDeg, u.I, u.J, N) == p;
    }
  }

  /** Four quarter turns bring every cell back. */
  lemma FourTurnsIdentity(I: int, J: int, N: int)
    ensures BuildMatrixRotation(4, I, J, N) == IntPair(I, J)
  {
  }

  /** Flat index of entry (n, r, i, j) in the precomputed table. */
  function TableIndex(n: int, r: int, i: int, j: int): int
  {
    (n - 2) * (MaxRots * MaxScaleSq) + r * MaxScaleSq + i * MaxScale + j
  }

  /** The table filled at program start-up: for every scale n in 2..5, turn
      r in 0..3 and i, j in 0..4, entry `TableIndex(n, r, i, j)`. */
  function MatrixRotationTable(): seq<IntPair>
  {
    seq((MaxScale - 1) * MaxScaleSq * MaxRots, k requires 0 <= k < 400 =>
      BuildMatrixRotation(k % 100 / 25, k % 25 / 5, k % 5, k / 100 + 2))
  }

  /** Each entry the start-up loop writes holds the rotation it was built from,
      and every such entry is inside the 400-entry table. */
  lemma MatrixRotationTableAt(n: int, r: int, i: int, j: int)
    requires 2 <= n <= 5 && 0 <= r < 4 && 0 <= i < 5 && 0 <= j < 5
    ensures 0 <= TableIndex(n, r, i, j) < |MatrixRotationTable()| == 400
    ensures MatrixRotationTable()[TableIndex(n, r, i, j)] == BuildMatrixRotation(r, i, j, n)
  {
    var k := TableIndex(n, r, i, j);
    assert k == (n - 2) * 100 + r * 25 + i * 5 + j;
    assert k / 100 + 2 == n;
    assert k % 100 / 25 == r;
    assert k % 25 / 5 == i;
    assert k % 5 == j;
  }
}
