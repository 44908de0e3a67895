/*
 * `XBRZScaler`: for each scale 2..5 the five blend patterns, each a fixed
 * list of writes into the cells (i, j) of the rotated output block, and
 * their effect on the target buffer.
 */
module Scaler {
  import opened Common
  import opened Rotation
  import XbrzUtil
  import Matrix

  /** One statement of a pattern: `alphaBlend(n, m, out.ref(i, j), col)` or
      `out.ref(i, j).set(col)`. */
  datatype Op = Blend(n: int, m: int, i: int, j: int) | Set(i: int, j: int)

  /** The five patterns every scaler provides. */
  datatype Kind = LineShallow | LineSteep | LineSteepAndShallow | LineDiagonal | Corner

  datatype Scaler = X2 | X3 | X4 | X5

  /** `scale()`. */
  function Scale(s: Scaler): (r: int)
    ensures 2 <= r <= 5
  {
    match s
    case X2 => 2
    case X3 => 3
    case X4 => 4
    case X5 => 5
  }

  /** Each scale belongs to exactly one scaler. */
  lemma ScaleInjective(s: Scaler, t: Scaler)
    ensures Scale(s) == Scale(t) <==> s == t
  {
  }

  function Cell(op: Op): IntPair { IntPair(op.i, op.j) }

  /** The cell lies in the block and a blend weight `n/m` is a proper fraction
      with a denominator of at most 100. */
  predicate ValidOp(op: Op, scale: int)
  {
    InBlock(Cell(op), scale) && (op.Blend? ==> 0 < op.n < op.m <= 100)
  }

  /** No cell is written twice. */
  predicate DistinctCells(ops: seq<Op>)
  {
    forall t, u :: 0 <= t < u < |ops| ==> Cell(ops[t]) != Cell(ops[u])
  }

  function PatternX2(k: Kind): (ops: seq<Op>)
    ensures |ops| > 0 && ValidOps(ops, 2) && DistinctCells(ops)
  {
    var scale := 2;
    match k
    case LineShallow => [Blend(1, 4, scale - 1, 0), Blend(3, 4, scale - 1, 1)]
    case LineSteep => [Blend(1, 4, 0, scale - 1), Blend(3, 4, 1, scale - 1)]
    case LineSteepAndShallow => [Blend(1, 4, 1, 0), Blend(1, 4, 0, 1), Blend(5, 6, 1, 1)]
    case LineDiagonal => [Blend(1, 2, 1, 1)]
    case Corner => [Blend(21, 100, 1, 1)]
  }

  function PatternX3(k: Kind): (ops: seq<Op>)
    ensures |ops| > 0 && ValidOps(ops, 3) && DistinctCells(ops)
  {
    var scale := 3;
    match k
    case LineShallow =>
      [Blend(1, 4, scale - 1, 0), Blend(1, 4, scale - 2, 2), Blend(3, 4, scale - 1, 1), Set(scale - 1, 2)]
    case LineSteep =>
      [Blend(1, 4, 0, scale - 1), Blend(1, 4, 2, scale - 2), Blend(3, 4, 1, scale - 1), Set(2, scale - 1)]
    case LineSteepAndShallow =>
      [Blend(1, 4, 2, 0), Blend(1, 4, 0, 2), Blend(3, 4, 2, 1), Blend(3, 4, 1, 2), Set(2, 2)]
    case LineDiagonal => [Blend(1, 8, 1, 2), Blend(1, 8, 2, 1), Blend(7, 8, 2, 2)]
    case Corner => [Blend(45, 100, 2, 2)]
  }

  function PatternX4(k: Kind): (ops: seq<Op>)
    ensures |ops| > 0 && ValidOps(ops, 4) && DistinctCells(ops)
  {
    var scale := 4;
    match k
    case LineShallow => X4LineShallow()
    case LineSteep => X4LineSteep()
    case LineSteepAndShallow => X4LineSteepAndShallow()
    case LineDiagonal =>
      [Blend(1, 2, scale - 1, scale / 2), Blend(1, 2, scale - 2, scale / 2 + 1), Set(scale - 1, scale - 1)]
    case Corner => [Blend(68, 100, 3, 3), Blend(9, 100, 3, 2), Blend(9, 100, 2, 3)]
  }

  /** The three line patterns of the 4x scaler. */
  function X4LineShallow(): (ops: seq<Op>)
    ensures |ops| > 0 && ValidOps(ops, 4) && DistinctCells(ops)
  {
    var scale := 4;
    [Blend(1, 4, scale - 1, 0), Blend(1, 4, scale - 2, 2), Blend(3, 4, scale - 1, 1), Blend(3, 4, scale - 2, 3),
     Set(scale - 1, 2), Set(scale - 1, 3)]
  }

  function X4LineSteep(): (ops: seq<Op>)
    ensures |ops| > 0 && ValidOps(ops, 4) && DistinctCells(ops)
  {
    var scale := 4;
    [Blend(1, 4, 0, scale - 1), Blend(1, 4, 2, scale - 2), Blend(3, 4, 1, scale - 1), Blend(3, 4, 3, scale - 2),
     Set(2, scale - 1), Set(3, scale - 1)]
  }

  function X4LineSteepAndShallow(): (ops: seq<Op>)
    ensures |ops| > 0 && ValidOps(ops, 4) && DistinctCells(ops)
  {
    [Blend(3, 4, 3, 1), Blend(3, 4, 1, 3), Blend(1, 4, 3, 0), Blend(1, 4, 0, 3), Blend(1, 3, 2, 2),
     Set(3, 3), Set(3, 2), Set(2, 3)]
  }

  function PatternX5(k: Kind): (ops: seq<Op>)
    ensures |ops| > 0 && ValidOps(ops, 5) && DistinctCells(ops)
  {
    var scale := 5;
    match k
    case LineShallow => X5LineShallow()
    case LineSteep => X5LineSteep()
    case LineSteepAndShallow => X5LineSteepAndShallow()
    case LineDiagonal =>
      [Blend(1, 8, scale - 1, scale / 2), Blend(1, 8, scale - 2, scale / 2 + 1), Blend(1, 8, scale - 3, scale / 2 + 2),
       Blend(7, 8, 4, 3), Blend(7, 8, 3, 4), Set(4, 4)]
    case Corner => [Blend(86, 100, 4, 4), Blend(23, 100, 4, 3), Blend(23, 100, 3, 4)]
  }

  /** The three line patterns of the 5x scaler, the longest of all. */
  function X5LineShallow(): (ops: seq<Op>)
    ensures |ops| > 0 && ValidOps(ops, 5) && DistinctCells(ops)
  {
    var scale := 5;
    [Blend(1, 4, scale - 1, 0), Blend(1, 4, scale - 2, 2), Blend(1, 4, scale - 3, 4),
     Blend(3, 4, scale - 1, 1), Blend(3, 4, scale - 2, 3),
     Set(scale - 1, 2), Set(scale - 1, 3), Set(scale - 1, 4), Set(scale - 2, 4)]
  }

  function X5LineSteep(): (ops: seq<Op>)
    ensures |ops| > 0 && ValidOps(ops, 5) && DistinctCells(ops)
  {
    var scale := 5;
    [Blend(1, 4, 0, scale - 1), Blend(1, 4, 2, scale - 2), Blend(1, 4, 4, scale - 3),
     Blend(3, 4, 1, scale - 1), Blend(3, 4, 3, scale - 2),
     Set(2, scale - 1), Set(3, scale - 1), Set(4, scale - 1), Set(4, scale - 2)]
  }

  function X5LineSteepAndShallow(): (ops: seq<Op>)
    ensures |ops| > 0 && ValidOps(ops, 5) && DistinctCells(ops)
  {
    var scale := 5;
    [Blend(1, 4, 0, scale - 1), Blend(1, 4, 2, scale - 2), Blend(3, 4, 1, scale - 1),
     Blend(1, 4, scale - 1, 0), Blend(1, 4, scale - 2, 2), Blend(3, 4, scale - 1, 1),
     Set(2, scale - 1), Set(3, scale - 1), Set(scale - 1, 2), Set(scale - 1, 3), Set(4, scale - 1),
     Blend(2, 3, 3, 3)]
  }

  /** The statements of pattern `k` of scaler `s`. Every one writes a cell of
      the block with a proper weight, no cell is written twice, and the
      pattern is not empty. */
  function Pattern(s: Scaler, k: Kind): (ops: seq<Op>)
    ensures |ops| > 0 && ValidOps(ops, Scale(s)) && DistinctCells(ops)
  {
    match s
    case X2 => PatternX2(k)
    case X3 => PatternX3(k)
    case X4 => PatternX4(k)
    case X5 => PatternX5(k)
  }

  /** The statement of each pattern that writes the bottom-right cell of
      the block, the corner the pattern is about: every pattern has one. */
  function CornerStatement(s: Scaler, k: Kind): (t: nat)
    ensures t < |Pattern(s, k)| && Cell(Pattern(s, k)[t]) == IntPair(Scale(s) - 1, Scale(s) - 1)
  {
    match s
    case X2 => CornerStatementX2(k)
    case X3 => CornerStatementX3(k)
    case X4 => CornerStatementX4(k)
    case X5 => CornerStatementX5(k)
  }

  function CornerStatementX2(k: Kind): (t: nat)
    ensures t < |PatternX2(k)| && Cell(PatternX2(k)[t]) == IntPair(1, 1)
  {
    match k
    case LineSteepAndShallow => 2
    case LineShallow => 1
    case LineSteep => 1
    case _ => 0
  }

  function CornerStatementX3(k: Kind): (t: nat)
    ensures t < |PatternX3(k)| && Cell(PatternX3(k)[t]) == IntPair(2, 2)
  {
    match k
    case LineShallow => 3
    case LineSteep => 3
    case LineSteepAndShallow => 4
    case LineDiagonal => 2
    case Corner => 0
  }

  function CornerStatementX4(k: Kind): (t: nat)
    ensures t < |PatternX4(k)| && Cell(PatternX4(k)[t]) == IntPair(3, 3)
  {
    match k
    case LineShallow => 5
    case LineSteep => 5
    case LineSteepAndShallow => 5
    case LineDiagonal => 2
    case Corner => 0
  }

  function CornerStatementX5(k: Kind): (t: nat)
    ensures t < |PatternX5(k)| && Cell(PatternX5(k)[t]) == IntPair(4, 4)
  {
    match k
    case LineShallow => 7
    case LineSteep => 7
    case LineSteepAndShallow => 10
    case LineDiagonal => 5
    case Corner => 0
  }

  /** The 2x corner and diagonal patterns blend only cell (1, 1), at 21/100
      and at 1/2. */
  lemma X2CornerAndDiagonal()
    ensures Pattern(X2, Corner) == [Blend(21, 100, 1, 1)]
    ensures Pattern(X2, LineDiagonal) == [Blend(1, 2, 1, 1)]
  {
  }

  function Transpose(op: Op): Op
  {
    match op
    case Blend(n, m, i, j) => Blend(n, m, j, i)
    case Set(i, j) => Set(j, i)
  }

  function Transposed(ops: seq<Op>): (r: seq<Op>)
    ensures |r| == |ops|
    ensures forall t :: 0 <= t < |ops| ==> r[t] == Transpose(ops[t])
  {
    if |ops| == 0 then [] else [Transpose(ops[0])] + Transposed(ops[1..])
  }

  /** The steep line is the shallow line mirrored in the diagonal,
      statement for statement. */
  lemma SteepMirrorsShallow(s: Scaler)
    ensures Pattern(s, LineSteep) == Transposed(Pattern(s, LineShallow))
  {
    match s {
      case X2 => MirrorsPointwise(Pattern(s, LineShallow), Pattern(s, LineSteep));
      case X3 => MirrorsPointwise(Pattern(s, LineShallow), Pattern(s, LineSteep));
      case X4 => MirrorsPointwise(X4LineShallow(), X4LineSteep());
      case X5 => MirrorsPointwise(X5LineShallow(), X5LineSteep());
    }
  }

  lemma MirrorsPointwise(ops: seq<Op>, mirrored: seq<Op>)
    requires |mirrored| == |ops| && forall t :: 0 <= t < |ops| ==> mirrored[t] == Transpose(ops[t])
    ensures mirrored == Transposed(ops)
  {
  }

  /** The other three patterns are their own mirror images: the mirror of
      every statement is a statement of the same pattern. */
  lemma PatternSelfMirror(s: Scaler, k: Kind)
    requires k != LineShallow && k != LineSteep
    ensures forall t :: 0 <= t < |Pattern(s, k)| ==> Transpose(Pattern(s, k)[t]) in Pattern(s, k)
  {
  }

  // ---------------------------------------------------------------------
  // Applying a pattern to the target buffer

  /** The value a statement stores, given the cell's current value. */
  function OpValue(op: Op, dst: Pixel, col: Pixel): Pixel
    requires op.Blend? ==> 0 < op.n < op.m <= 100
  {
    match op
    case Blend(n, m, _, _) => XbrzUtil.AlphaBlend(n, m, dst, col)
    case Set(_, _) => col
  }

  /** The output block of one pixel: scale, rotation, block origin and row
      width, fitting inside a target of length `len`. */
  datatype Frame = Frame(scale: int, rotDeg: int, outi: int, outWidth: int)

  predicate FrameFits(f: Frame, len: int)
  {
    2 <= f.scale <= 5 && 0 <= f.rotDeg < 4 && Matrix.BlockFits(len, f.scale, f.outWidth, f.outi)
  }

  predicate ValidOps(ops: seq<Op>, scale: int)
  {
    forall t :: 0 <= t < |ops| ==> ValidOp(ops[t], scale)
  }

  /** The target index `out.ref(i, j)` of a statement. */
  function Pos(f: Frame, len: int, op: Op): (p: int)
    requires FrameFits(f, len) && ValidOp(op, f.scale)
    ensures 0 <= p < len
  {
    Matrix.RefInTarget(len, f.scale, f.outWidth, f.rotDeg, f.outi, op.i, op.j);
    Matrix.Ref(Matrix.Block(f.scale, f.outWidth, f.rotDeg, f.outi), op.i, op.j)
  }

  /** Running the statements of a pattern in order. */
  function ApplyPattern(trg: seq<Pixel>, f: Frame, ops: seq<Op>, col: Pixel): (r: seq<Pixel>)
    requires FrameFits(f, |trg|) && ValidOps(ops, f.scale)
    ensures |r| == |trg|
    decreases |ops|
  {
    if |ops| == 0 then trg
    else
      var p := Pos(f, |trg|, ops[0]);
      ApplyPattern(trg[p := OpValue(ops[0], trg[p], col)], f, ops[1..], col)
  }

  /** Cells no statement addresses keep their value. */
  lemma {:induction false} ApplyPatternOutside(trg: seq<Pixel>, f: Frame, ops: seq<Op>, col: Pixel, k: int)
    requires FrameFits(f, |trg|) && ValidOps(ops, f.scale)
    requires 0 <= k < |trg|
    requires forall t :: 0 <= t < |ops| ==> Pos(f, |trg|, ops[t]) != k
    ensures ApplyPattern(trg, f, ops, col)[k] == trg[k]
    decreases |ops|
  {
    if |ops| > 0 {
      var p := Pos(f, |trg|, ops[0]);
      var trg' := trg[p := OpValue(ops[0], trg[p], col)];
      assert forall t :: 0 <= t < |ops[1..]| ==> Pos(f, |trg'|, ops[1..][t]) == Pos(f, |trg|, ops[t + 1]);
      ApplyPatternOutside(trg', f, ops[1..], col, k);
    }
  }

  /** Statements on distinct cells address distinct target indices. */
  lemma PosInjective(f: Frame, len: int, a: Op, b: Op)
    requires FrameFits(f, len) && ValidOp(a, f.scale) && ValidOp(b, f.scale)
    requires Pos(f, len, a) == Pos(f, len, b)
    ensures Cell(a) == Cell(b)
  {
    Matrix.RefInjective(f.scale, f.outWidth, f.rotDeg, f.outi, a.i, a.j, b.i, b.j);
  }

  /** With distinct cells, the cell of statement `t` ends up holding that
      statement's value computed from the cell's original content. */
  lemma {:induction false} ApplyPatternAt(trg: seq<Pixel>, f: Frame, ops: seq<Op>, col: Pixel, t: int)
    requires FrameFits(f, |trg|) && ValidOps(ops, f.scale) && DistinctCells(ops)
    requires 0 <= t < |ops|
    ensures ApplyPattern(trg, f, ops, col)[Pos(f, |trg|, ops[t])]
         == OpValue(ops[t], trg[Pos(f, |trg|, ops[t])], col)
    decreases |ops|
  {
    var p := Pos(f, |trg|, ops[0]);
    var trg' := trg[p := OpValue(ops[0], trg[p], col)];
    if t == 0 {
      forall u | 0 <= u < |ops[1..]|
        ensures Pos(f, |trg'|, ops[1..][u]) != p
      {
        if Pos(f, |trg'|, ops[1..][u]) == p {
          PosInjective(f, |trg|, ops[0], ops[u + 1]);
        }
      }
      ApplyPatternOutside(trg', f, ops[1..], col, p);
    } else {
      var q := Pos(f, |trg|, ops[t]);
      if q == p {
        PosInjective(f, |trg|, ops[0], ops[t]);
      }
      ApplyPatternAt(trg', f, ops[1..], col, t - 1);
    }
  }

  /** The effect of a pattern with distinct cells does not depend on the
      order of its statements. */
  lemma ApplyPatternOrderFree(trg: seq<Pixel>, f: Frame, ops: seq<Op>, ops': seq<Op>, col: Pixel)
    requires FrameFits(f, |trg|) && ValidOps(ops, f.scale) && ValidOps(ops', f.scale)
    requires DistinctCells(ops) && DistinctCells(ops') && multiset(ops) == multiset(ops')
    ensures ApplyPattern(trg, f, ops, col) == ApplyPattern(trg, f, ops', col)
  {
    var r := ApplyPattern(trg, f, ops, col);
    var r' := ApplyPattern(trg, f, ops', col);
    forall k | 0 <= k < |trg|
      ensures r[k] == r'[k]
    {
      if t :| 0 <= t < |ops| && Pos(f, |trg|, ops[t]) == k {
        assert ops[t] in multiset(ops');
        var u :| 0 <= u < |ops'| && ops'[u] == ops[t];
        ApplyPatternAt(trg, f, ops, col, t);
        ApplyPatternAt(trg, f, ops', col, u);
      } else {
        forall u | 0 <= u < |ops'|
          ensures Pos(f, |trg|, ops'[u]) != k
        {
          assert ops'[u] in multiset(ops);
          var t :| 0 <= t < |ops| && ops[t] == ops'[u];
        }
        ApplyPatternOutside(trg, f, ops, col, k);
        ApplyPatternOutside(trg, f, ops', col, k);
      }
    }
  }
}
