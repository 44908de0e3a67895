/*
 * `PixelSSAdvMAME`: the AdvMAME2x and AdvMAME3x filters. Border pixels are
 * replicated; every interior pixel becomes a 2x2 or 3x3 block whose cells
 * copy a neighbour where two neighbours meet at that corner and the pixel
 * is not part of a straight edge, and the pixel itself otherwise.
 */
module AdvMameFilter {
  import opened Common
  import Grid
  import opened Raster

  datatype AdvMame = AdvMame(factor: int)

  predicate Valid(m: AdvMame)
  {
    m.factor == 2 || m.factor == 3
  }

  function GetFactor(m: AdvMame): int
  {
    m.factor
  }

  /** `new PixelSSAdvMAME(factor)`. */
  function NewAdvMame(factor: int): (r: Result<AdvMame>)
    ensures r.Ok? <==> factor == 2 || factor == 3
    ensures r.Ok? ==> Valid(r.value) && GetFactor(r.value) == factor
    ensures r.IllegalArgument? ==> r.message == "unknown factor: " + DecimalString(factor)
  {
    if factor != 2 && factor != 3 then IllegalArgument("unknown factor: " + DecimalString(factor))
    else Ok(AdvMame(factor))
  }

  /** The four cells of an interior pixel P at 2x, row-major, from its
      neighbours A above, B right, C left and D below:
          A
        C P B  -->  1 2
          D         3 4 */
  function Cells2x(n: Window): (cells: seq<Pixel>)
    ensures |cells| == 4
    ensures cells[0] == n.e || cells[0] == n.b
    ensures cells[1] == n.e || cells[1] == n.f
    ensures cells[2] == n.e || cells[2] == n.d
    ensures cells[3] == n.e || cells[3] == n.h
    ensures cells[0] != n.e <==> n.d == n.b && n.d != n.h && n.b != n.f && n.b != n.e
    ensures cells[1] != n.e <==> n.b == n.f && n.b != n.d && n.f != n.h && n.f != n.e
    ensures cells[2] != n.e <==> n.h == n.d && n.h != n.f && n.d != n.b && n.d != n.e
    ensures cells[3] != n.e <==> n.f == n.h && n.f != n.b && n.h != n.d && n.h != n.e
  {
    var A, B, C, D, P := n.b, n.f, n.d, n.h, n.e;
    [if C == A && C != D && A != B then A else P,
     if A == B && A != C && B != D then B else P,
     if D == C && D != B && C != A then C else P,
     if B == D && B != A && D != C then D else P]
  }

  /** The nine cells of an interior pixel E at 3x, row-major, from its
      neighbourhood A..I (E in the middle). */
  function Cells3x(n: Window): (cells: seq<Pixel>)
    ensures |cells| == 9
    ensures cells[4] == n.e
    ensures cells[0] == n.e || cells[0] == n.d
    ensures cells[1] == n.e || cells[1] == n.b
    ensures cells[2] == n.e || cells[2] == n.f
    ensures cells[3] == n.e || cells[3] == n.d
    ensures cells[5] == n.e || cells[5] == n.f
    ensures cells[6] == n.e || cells[6] == n.d
    ensures cells[7] == n.e || cells[7] == n.h
    ensures cells[8] == n.e || cells[8] == n.f
  {
    var A, B, C, D, E, F, G, H, I := n.a, n.b, n.c, n.d, n.e, n.f, n.g, n.h, n.i;
    [if D == B && D != H && B != F then D else E,
     if (D == B && D != H && B != F && E != C) || (B == F && B != D && F != H && E != A) then B else E,
     if B == F && B != D && F != H then F else E,
     if (H == D && H != F && D != B && E != A) || (D == B && D != H && B != F && E != G) then D else E,
     E,
     if (B == F && B != D && F != H && E != I) || (F == H && F != B && H != D && E != C) then F else E,
     if H == D && H != F && D != B then D else E,
     if (F == H && F != B && H != D && E != G) || (H == D && H != F && D != B && E != I) then H else E,
     if F == H && F != B && H != D then F else E]
  }

  /** The 2x rules treat left and right alike: mirroring the neighbourhood
      mirrors the block. */
  lemma Cells2xMirror(n: Window)
    ensures var c := Cells2x(n); Cells2x(MirrorX(n)) == [c[1], c[0], c[3], c[2]]
  {
  }

  /** ... and rows and columns alike: transposing the neighbourhood
      transposes the block. Together with the mirror this makes the rules
      invariant under every rotation and reflection of the square. */
  lemma Cells2xTranspose(n: Window)
    ensures var c := Cells2x(n); Cells2x(Transpose(n)) == [c[0], c[2], c[1], c[3]]
  {
  }

  lemma Cells3xMirror(n: Window)
    ensures var c := Cells3x(n);
      Cells3x(MirrorX(n)) == [c[2], c[1], c[0], c[5], c[4], c[3], c[8], c[7], c[6]]
  {
  }

  lemma Cells3xTranspose(n: Window)
    ensures var c := Cells3x(n);
      Cells3x(Transpose(n)) == [c[0], c[3], c[6], c[1], c[4], c[7], c[2], c[5], c[8]]
  {
  }

  /** A pixel whose four edge neighbours share its colour gives a block of
      that colour at both factors: every 3x rule needs two of B, D, F, H to
      differ, so none fires. */
  lemma CellsOfFlat(n: Window)
    requires n.b == n.e && n.d == n.e && n.f == n.e && n.h == n.e
    ensures Cells2x(n) == [n.e, n.e, n.e, n.e]
    ensures Cells3x(n) == [n.e, n.e, n.e, n.e, n.e, n.e, n.e, n.e, n.e]
  {
  }

  /** The blocks the interior loop of `advMAME2x` or `advMAME3x` writes. */
  function Rules(m: AdvMame, t: Texture): Blocks
  {
    (x, y) =>
      if ValidTexture(t) && Interior(t, x, y) then
        (if m.factor == 2 then Cells2x(WindowAt(t, x, y)) else Cells3x(WindowAt(t, x, y)))
      else []
  }

  lemma RulesFit(m: AdvMame, t: Texture)
    requires Valid(m) && ValidTexture(t)
    ensures BlocksFit(t, m.factor, Rules(m, t))
  {
  }

  /** `apply(in, out, w, h)`, dispatching to `advMAME2x` or `advMAME3x`:
      `advMAMEEdge` replicates the border, then the interior loop writes
      each pixel's block. */
  method Apply(m: AdvMame, src: seq<Pixel>, out: Option<seq<Pixel>>, w: int, h: int) returns (r: seq<Pixel>)
    requires Valid(m) && 0 <= w && 0 <= h && w * h <= |src|
    requires out.Some? ==> OutLen(w, h, m.factor) <= |out.value|
    ensures
      r == Filtered(Texture(src, w, h), m.factor, OutBuffer(out, OutLen(w, h, m.factor)), Rules(m, Texture(src, w, h)))
    ensures out.None? ==> |r| == OutLen(w, h, m.factor)
  {
    NonNegMul(w, m.factor);
    NonNegMul(h, m.factor);
    NonNegMul(w * m.factor, h * m.factor);
    var t := Texture(src, w, h);
    RulesFit(m, t);
    r := FilterBlocks(t, m.factor, OutBuffer(out, OutLen(w, h, m.factor)), Rules(m, t));
  }

  /** `advMAMEEdge`: cell (i, j) of a border pixel's block is the pixel. */
  lemma BorderReplicated(m: AdvMame, t: Texture, base: seq<Pixel>, x: int, y: int, i: int, j: int)
    requires Valid(m) && ValidTexture(t) && OutLen(t.w, t.h, m.factor) <= |base|
    requires 0 <= x < t.w && 0 <= y < t.h && !Interior(t, x, y)
    requires 0 <= i < m.factor && 0 <= j < m.factor
    ensures 0 <= Grid.Idx(t.w * m.factor, x * m.factor + i, y * m.factor + j) < |base|
    ensures
      Filtered(t, m.factor, base, Rules(m, t))[Grid.Idx(t.w * m.factor, x * m.factor + i, y * m.factor + j)]
      == Get(t, x, y)
  {
    RulesFit(m, t);
    FilteredCell(t, m.factor, base, Rules(m, t), x, y, i, j);
  }

  /** At 3x the middle cell of every pixel's block is the pixel. */
  lemma CentreKept(m: AdvMame, t: Texture, base: seq<Pixel>, x: int, y: int)
    requires m.factor == 3 && ValidTexture(t) && OutLen(t.w, t.h, 3) <= |base|
    requires 0 <= x < t.w && 0 <= y < t.h
    ensures 0 <= Grid.Idx(t.w * 3, x * 3 + 1, y * 3 + 1) < |base|
    ensures
      Filtered(t, 3, base, Rules(m, t))[Grid.Idx(t.w * 3, x * 3 + 1, y * 3 + 1)] == Get(t, x, y)
  {
    RulesFit(m, t);
    FilteredCell(t, 3, base, Rules(m, t), x, y, 1, 1);
  }

  /** An image of one colour scales to an output of that colour. */
  lemma FlatStaysFlat(m: AdvMame, t: Texture, base: seq<Pixel>, colour: Pixel, k: int)
    requires Valid(m) && ValidTexture(t)
    requires forall x, y :: 0 <= x < t.w && 0 <= y < t.h ==> Get(t, x, y) == colour
    requires InOutput(k, t.w, t.h, m.factor) && k < |base|
    ensures Filtered(t, m.factor, base, Rules(m, t))[k] == colour
  {
    RulesFit(m, t);
    BlockRange(k, t.w, t.h, m.factor);
    var x, y := BlockX(k, t.w, m.factor), BlockY(k, t.w, m.factor);
    if Interior(t, x, y) {
      CellsOfFlat(WindowAt(t, x, y));
    }
  }
}
