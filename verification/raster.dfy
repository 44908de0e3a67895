/*
 * The images the simple pixel filters work on, and the block structure of
 * their outputs. A filter scaling by `f` turns source pixel (x, y) into the
 * `f` x `f` block of output cells whose top-left cell is (x*f, y*f); cells are
 * stored row-major, so cell (X, Y) of an output `w*f` cells wide is at flat
 * index `Y * (w*f) + X`.
 */
module Raster {
  import opened Common
  import Grid

  /** `Texture.wrap(data, w, h)`: pixel (x, y) is `data[y * w + x]`. */
  datatype Texture = Texture(data: seq<Pixel>, w: int, h: int)

  predicate ValidTexture(t: Texture)
  {
    0 <= t.w && 0 <= t.h && t.w * t.h <= |t.data|
  }

  /** `Texture.get(x, y)`. */
  function Get(t: Texture, x: int, y: int): Pixel
    requires ValidTexture(t) && 0 <= x < t.w && 0 <= y < t.h
  {
    Grid.IdxInRange(t.w, t.h, x, y);
    t.data[Grid.Idx(t.w, x, y)]
  }

  /** `Texture.alloc(w, h).getData()`: a zero-filled buffer of `w * h` cells. */
  function Alloc(n: int): (r: seq<Pixel>)
    requires 0 <= n
    ensures |r| == n && forall k :: 0 <= k < n ==> r[k] == 0
  {
    seq(n, k => 0)
  }

  /** The buffer a filter writes into: the caller's `out`, or a fresh one of
      `n` cells when `out` is null. */
  function OutBuffer(out: Option<seq<Pixel>>, n: int): seq<Pixel>
    requires 0 <= n
  {
    if out.None? then Alloc(n) else out.value
  }

  lemma PosMul(a: int, b: int)
    requires 0 < a && 0 < b
    ensures 0 < a * b
  {
    Grid.MulMono(1, a, b);
  }

  lemma NonNegMul(a: int, b: int)
    requires 0 <= a && 0 <= b
    ensures 0 <= a * b
  {
    Grid.MulMono(0, a, b);
  }

  /** Number of cells of the output of a `w` x `h` image scaled by `f`. */
  function OutLen(w: int, h: int, f: int): int
  {
    (w * f) * (h * f)
  }

  /** Flat index `k` is a cell of that output. */
  predicate InOutput(k: int, w: int, h: int, f: int)
  {
    0 < w && 0 < h && 0 < f && 0 <= k < OutLen(w, h, f)
  }

  /** Output column of flat index `k`, the output being `w * f` wide. */
  function Col(k: int, w: int, f: int): int
    requires 0 < w && 0 < f
  {
    PosMul(w, f);
    k % (w * f)
  }

  /** Output row of flat index `k`. */
  function Row(k: int, w: int, f: int): int
    requires 0 < w && 0 < f
  {
    PosMul(w, f);
    k / (w * f)
  }

  /** Column of the source pixel whose block holds output cell `k`. */
  function BlockX(k: int, w: int, f: int): int
    requires 0 < w && 0 < f
  {
    Col(k, w, f) / f
  }

  /** Row of the source pixel whose block holds output cell `k`. */
  function BlockY(k: int, w: int, f: int): int
    requires 0 < w && 0 < f
  {
    Row(k, w, f) / f
  }

  /** Position of output cell `k` inside its block, counted row-major:
      cell (i, j) of a block is number `j * f + i`. */
  function SubCell(k: int, w: int, f: int): int
    requires 0 < w && 0 < f
  {
    (Row(k, w, f) % f) * f + Col(k, w, f) % f
  }

  /** Every output cell lies in the block of a source pixel, at one of the
      `f * f` positions of that block. */
  lemma {:induction false} BlockRange(k: int, w: int, h: int, f: int)
    requires InOutput(k, w, h, f)
    ensures 0 <= BlockX(k, w, f) < w && 0 <= BlockY(k, w, f) < h
    ensures 0 <= SubCell(k, w, f) < f * f
  {
    PosMul(w, f);
    QuotientBelow(Col(k, w, f), f, w);
    Grid.IdxRowBound(w * f, h * f, k);
    QuotientBelow(Row(k, w, f), f, h);
    SlotBelow(Row(k, w, f) % f, Col(k, w, f) % f, f);
  }

  lemma {:induction false} QuotientBelow(a: int, f: int, n: int)
    requires 0 < f && 0 <= a < n * f
    ensures 0 <= a / f < n
  {
    Grid.IdxRowBound(f, n, a);
  }

  lemma {:induction false} SlotBelow(j: int, i: int, f: int)
    requires 0 <= j < f && 0 <= i < f
    ensures 0 <= j * f + i < f * f
  {
    Grid.MulMono(j, f - 1, f);
    Grid.MulMono(0, j, f);
  }

  /** Cell (i, j) of the block of pixel (x, y) is output cell
      `(y*f + j) * (w*f) + (x*f + i)`, and that cell maps back to the same
      pixel and position. */
  lemma {:induction false} CellOfBlock(w: int, h: int, f: int, x: int, y: int, i: int, j: int)
    requires 0 <= x < w && 0 <= y < h && 0 < f && 0 <= i < f && 0 <= j < f
    ensures InOutput(Grid.Idx(w * f, x * f + i, y * f + j), w, h, f)
    ensures BlockX(Grid.Idx(w * f, x * f + i, y * f + j), w, f) == x
    ensures BlockY(Grid.Idx(w * f, x * f + i, y * f + j), w, f) == y
    ensures SubCell(Grid.Idx(w * f, x * f + i, y * f + j), w, f) == j * f + i
  {
    var col := x * f + i;
    var row := y * f + j;
    Grid.MulMono(x, w - 1, f);
    Grid.MulMono(y, h - 1, f);
    assert (w - 1) * f == w * f - f && (h - 1) * f == h * f - f;
    Grid.IdxInRange(w * f, h * f, col, row);
    var k := Grid.Idx(w * f, col, row);
    Grid.DivModUnique(k, w * f, row, col);
    Grid.DivModUnique(col, f, x, i);
    Grid.DivModUnique(row, f, y, j);
  }

  /** The colour of the source pixel whose block holds output cell `k`. */
  function Source(t: Texture, f: int, k: int): Pixel
    requires ValidTexture(t) && InOutput(k, t.w, t.h, f)
  {
    BlockRange(k, t.w, t.h, f);
    Get(t, BlockX(k, t.w, f), BlockY(k, t.w, f))
  }

  /** Every output cell takes the colour of its source pixel; cells past
      the output keep what `base` held. */
  function Expand(t: Texture, f: int, base: seq<Pixel>): (r: seq<Pixel>)
    requires ValidTexture(t) && 0 < f
    ensures |r| == |base|
  {
    seq(|base|, k requires 0 <= k < |base| =>
      if InOutput(k, t.w, t.h, f) then Source(t, f, k) else base[k])
  }

  /** The 3x3 neighbourhood of a pixel, row by row:
        a b c
        d e f
        g h i
      with `e` the pixel itself. */
  datatype Window = Window(
    a: Pixel, b: Pixel, c: Pixel,
    d: Pixel, e: Pixel, f: Pixel,
    g: Pixel, h: Pixel, i: Pixel)

  /** Pixels whose whole neighbourhood lies inside the image: the loops
      `for x in [1, w-1), y in [1, h-1)`. */
  predicate Interior(t: Texture, x: int, y: int)
  {
    1 <= x < t.w - 1 && 1 <= y < t.h - 1
  }

  /** The neighbourhood of an interior pixel; every read is in bounds. */
  function WindowAt(t: Texture, x: int, y: int): Window
    requires ValidTexture(t) && Interior(t, x, y)
  {
    Window(Get(t, x - 1, y - 1), Get(t, x, y - 1), Get(t, x + 1, y - 1),
           Get(t, x - 1, y),     Get(t, x, y),     Get(t, x + 1, y),
           Get(t, x - 1, y + 1), Get(t, x, y + 1), Get(t, x + 1, y + 1))
  }

  /** The neighbourhood seen in a mirror: left and right swapped. */
  function MirrorX(n: Window): Window
  {
    Window(n.c, n.b, n.a, n.f, n.e, n.d, n.i, n.h, n.g)
  }

  /** The neighbourhood reflected in its main diagonal: rows become
      columns. */
  function Transpose(n: Window): Window
  {
    Window(n.a, n.d, n.g, n.b, n.e, n.h, n.c, n.f, n.i)
  }

  /** A neighbourhood of one colour. */
  predicate Flat(n: Window)
  {
    n.a == n.e && n.b == n.e && n.c == n.e && n.d == n.e && n.f == n.e
    && n.g == n.e && n.h == n.e && n.i == n.e
  }

  /** The cells a filter writes for each interior pixel, row-major. */
  type Blocks = (int, int) -> seq<Pixel>

  predicate BlocksFit(t: Texture, f: int, block: Blocks)
  {
    forall x, y | 1 <= x < t.w - 1 && 1 <= y < t.h - 1 :: |block(x, y)| == f * f
  }

  /** What a block filter puts in output cell `k`: a border pixel is
      replicated over its block, an interior pixel's block holds the cells
      the filter computed for it. */
  function Cell(t: Texture, f: int, block: Blocks, k: int): Pixel
    requires ValidTexture(t) && BlocksFit(t, f, block) && InOutput(k, t.w, t.h, f)
  {
    BlockRange(k, t.w, t.h, f);
    var x := BlockX(k, t.w, f);
    var y := BlockY(k, t.w, f);
    if Interior(t, x, y) then block(x, y)[SubCell(k, t.w, f)] else Get(t, x, y)
  }

  /** The output of a block filter written into `base`. */
  function Filtered(t: Texture, f: int, base: seq<Pixel>, block: Blocks): (r: seq<Pixel>)
    requires ValidTexture(t) && 0 < f && BlocksFit(t, f, block)
    ensures |r| == |base|
  {
    seq(|base|, k requires 0 <= k < |base| =>
      if InOutput(k, t.w, t.h, f) then Cell(t, f, block, k) else base[k])
  }

  /** `forEdge` followed by a block fill: every border pixel's block takes
      its colour, everything else is left as it was. */
  function EdgeBlocks(t: Texture, f: int, base: seq<Pixel>): (r: seq<Pixel>)
    requires ValidTexture(t) && 0 < f
    ensures |r| == |base|
  {
    seq(|base|, k requires 0 <= k < |base| =>
      if InOutput(k, t.w, t.h, f) && !Interior(t, BlockX(k, t.w, f), BlockY(k, t.w, f))
      then Source(t, f, k) else base[k])
  }

  /** The block of pixel (x, y) overwritten with `cells`. */
  function WriteBlock(r: seq<Pixel>, t: Texture, f: int, x: int, y: int, cells: seq<Pixel>): (r': seq<Pixel>)
    requires 0 < f && |cells| == f * f
    ensures |r'| == |r|
  {
    seq(|r|, k requires 0 <= k < |r| =>
      if InOutput(k, t.w, t.h, f) && BlockX(k, t.w, f) == x && BlockY(k, t.w, f) == y
      then (BlockRange(k, t.w, t.h, f); cells[SubCell(k, t.w, f)])
      else r[k])
  }

  /** Pixel (px, py) comes before (x, y) in the column-by-column order of
      the interior loops. */
  predicate Before(px: int, py: int, x: int, y: int)
  {
    px < x || (px == x && py < y)
  }

  /** The output once the interior loops have reached pixel (x, y). */
  function Partial(t: Texture, f: int, base: seq<Pixel>, block: Blocks, x: int, y: int): (r: seq<Pixel>)
    requires ValidTexture(t) && 0 < f && BlocksFit(t, f, block)
    ensures |r| == |base|
  {
    seq(|base|, k requires 0 <= k < |base| =>
      if InOutput(k, t.w, t.h, f)
         && Interior(t, BlockX(k, t.w, f), BlockY(k, t.w, f))
         && Before(BlockX(k, t.w, f), BlockY(k, t.w, f), x, y)
      then Cell(t, f, block, k) else base[k])
  }

  /** Writing the block of interior pixel (x, y) advances the loops by one
      pixel. */
  lemma PartialStep(t: Texture, f: int, base: seq<Pixel>, block: Blocks, x: int, y: int)
    requires ValidTexture(t) && 0 < f && BlocksFit(t, f, block) && Interior(t, x, y)
    ensures WriteBlock(Partial(t, f, base, block, x, y), t, f, x, y, block(x, y))
         == Partial(t, f, base, block, x, y + 1)
  {
    var a := WriteBlock(Partial(t, f, base, block, x, y), t, f, x, y, block(x, y));
    var b := Partial(t, f, base, block, x, y + 1);
    forall k | 0 <= k < |a|
      ensures a[k] == b[k]
    {
    }
  }

  /** Finishing column x is starting column x + 1. */
  lemma PartialColumn(t: Texture, f: int, base: seq<Pixel>, block: Blocks, x: int, y: int)
    requires ValidTexture(t) && 0 < f && BlocksFit(t, f, block)
    requires t.h - 1 <= y
    ensures Partial(t, f, base, block, x, y) == Partial(t, f, base, block, x + 1, 1)
  {
    var a := Partial(t, f, base, block, x, y);
    var b := Partial(t, f, base, block, x + 1, 1);
    forall k | 0 <= k < |a|
      ensures a[k] == b[k]
    {
    }
  }

  /** Once every interior column is done, the border blocks written first
      and the interior blocks together are the filter's output. */
  lemma PartialDone(t: Texture, f: int, base: seq<Pixel>, block: Blocks, x: int)
    requires ValidTexture(t) && 0 < f && BlocksFit(t, f, block)
    requires t.w - 1 <= x
    ensures Partial(t, f, EdgeBlocks(t, f, base), block, x, 1) == Filtered(t, f, base, block)
  {
    var a := Partial(t, f, EdgeBlocks(t, f, base), block, x, 1);
    var b := Filtered(t, f, base, block);
    forall k | 0 <= k < |a|
      ensures a[k] == b[k]
    {
    }
  }

  /** The shared skeleton of the AdvMAME and Eagle filters: replicate the
      border pixels with `forEdge`, then walk the interior column by column
      (`for x in [1, w-1), y in [1, h-1)`) writing each pixel's block. */
  method FilterBlocks(t: Texture, f: int, out: seq<Pixel>, block: Blocks) returns (r: seq<Pixel>)
    requires ValidTexture(t) && 0 < f && BlocksFit(t, f, block)
    ensures r == Filtered(t, f, out, block)
  {
    var edged := EdgeBlocks(t, f, out);
    r := edged;
    var x := 1;
    while x < t.w - 1
      invariant 1 <= x && (x <= t.w - 1 || x == 1)
      invariant r == Partial(t, f, edged, block, x, 1)
    {
      var y := 1;
      while y < t.h - 1
        invariant 1 <= y && (y <= t.h - 1 || y == 1)
        invariant r == Partial(t, f, edged, block, x, y)
      {
        PartialStep(t, f, edged, block, x, y);
        r := WriteBlock(r, t, f, x, y, block(x, y));
        y := y + 1;
      }
      PartialColumn(t, f, edged, block, x, y);
      x := x + 1;
    }
    PartialDone(t, f, out, block, x);
  }

  /** Cell (i, j) of the block of pixel (x, y) in a block filter's output:
      the pixel's colour on the border, the filter's cell inside. */
  lemma FilteredCell(t: Texture, f: int, base: seq<Pixel>, block: Blocks, x: int, y: int, i: int, j: int)
    requires ValidTexture(t) && 0 < f && BlocksFit(t, f, block)
    requires 0 <= x < t.w && 0 <= y < t.h && 0 <= i < f && 0 <= j < f
    requires OutLen(t.w, t.h, f) <= |base|
    ensures 0 <= Grid.Idx(t.w * f, x * f + i, y * f + j) < |base|
    ensures 0 <= j * f + i < f * f
    ensures Filtered(t, f, base, block)[Grid.Idx(t.w * f, x * f + i, y * f + j)]
         == if Interior(t, x, y) then block(x, y)[j * f + i] else Get(t, x, y)
  {
    CellOfBlock(t.w, t.h, f, x, y, i, j);
    SlotBelow(j, i, f);
  }

  /** Cell (i, j) of the block of pixel (x, y) after `Expand` has the
      pixel's colour. */
  lemma ExpandCell(t: Texture, f: int, base: seq<Pixel>, x: int, y: int, i: int, j: int)
    requires ValidTexture(t) && 0 < f
    requires 0 <= x < t.w && 0 <= y < t.h && 0 <= i < f && 0 <= j < f
    requires OutLen(t.w, t.h, f) <= |base|
    ensures 0 <= Grid.Idx(t.w * f, x * f + i, y * f + j) < |base|
    ensures Expand(t, f, base)[Grid.Idx(t.w * f, x * f + i, y * f + j)] == Get(t, x, y)
  {
    CellOfBlock(t.w, t.h, f, x, y, i, j);
  }
}
