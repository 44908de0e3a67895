/*
 * `PixelSSEagle`: the Eagle 2x filter. Border pixels are replicated; each
 * corner cell of an interior pixel C takes the colour of the diagonal
 * neighbour at that corner when it matches both neighbours beside it:
 *     S T U
 *     V C W   -->  1 2
 *     X Y Z        3 4
 */
module EagleFilter {
  import opened Common
  import Grid
  import opened Raster

  /** The filter scales by 2. */
  const Factor: int := 2

  /** The four cells of interior pixel C, row-major. */
  function Cells(n: Window): (cells: seq<Pixel>)
    ensures |cells| == 4
    ensures cells[0] == n.e || cells[0] == n.a
    ensures cells[1] == n.e || cells[1] == n.c
    ensures cells[2] == n.e || cells[2] == n.g
    ensures cells[3] == n.e || cells[3] == n.i
    ensures cells[0] != n.e <==> n.a == n.d && n.a == n.b && n.a != n.e
    ensures cells[1] != n.e <==> n.c == n.b && n.c == n.f && n.c != n.e
    ensures cells[2] != n.e <==> n.g == n.d && n.g == n.h && n.g != n.e
    ensures cells[3] != n.e <==> n.i == n.f && n.i == n.h && n.i != n.e
  {
    var S, T, U, V, C, W, X, Y, Z := n.a, n.b, n.c, n.d, n.e, n.f, n.g, n.h, n.i;
    [if S == V && S == T then S else C,
     if U == T && U == W then U else C,
     if X == V && X == Y then X else C,
     if Z == W && Z == Y then Z else C]
  }

  /** The rules treat left and right alike. */
  lemma CellsMirror(n: Window)
    ensures var c := Cells(n); Cells(MirrorX(n)) == [c[1], c[0], c[3], c[2]]
  {
  }

  /** ... and rows and columns alike. */
  lemma CellsTranspose(n: Window)
    ensures var c := Cells(n); Cells(Transpose(n)) == [c[0], c[2], c[1], c[3]]
  {
  }

  /** The blocks the interior loop writes. */
  function Rules(t: Texture): Blocks
  {
    (x, y) => if ValidTexture(t) && Interior(t, x, y) then Cells(WindowAt(t, x, y)) else []
  }

  /** `apply(in, out, w, h)`: `forEdge` writes each border pixel as a 2x2
      block, then the interior loop writes each pixel's four cells. */
  method Apply(src: seq<Pixel>, out: Option<seq<Pixel>>, w: int, h: int) returns (r: seq<Pixel>)
    requires 0 <= w && 0 <= h && w * h <= |src|
    requires out.Some? ==> OutLen(w, h, Factor) <= |out.value|
    ensures r == Filtered(Texture(src, w, h), Factor, OutBuffer(out, OutLen(w, h, Factor)), Rules(Texture(src, w, h)))
    ensures out.None? ==> |r| == OutLen(w, h, Factor)
  {
    NonNegMul(w * Factor, h * Factor);
    var t := Texture(src, w, h);
    r := FilterBlocks(t, Factor, OutBuffer(out, OutLen(w, h, Factor)), Rules(t));
  }

  /** Each border pixel becomes a 2x2 block of its colour. */
  lemma BorderReplicated(t: Texture, base: seq<Pixel>, x: int, y: int, i: int, j: int)
    requires ValidTexture(t) && OutLen(t.w, t.h, Factor) <= |base|
    requires 0 <= x < t.w && 0 <= y < t.h && !Interior(t, x, y)
    requires 0 <= i < Factor && 0 <= j < Factor
    ensures 0 <= Grid.Idx(t.w * Factor, x * Factor + i, y * Factor + j) < |base|
    ensures Filtered(t, Factor, base, Rules(t))[Grid.Idx(t.w * Factor, x * Factor + i, y * Factor + j)]
         == Get(t, x, y)
  {
    FilteredCell(t, Factor, base, Rules(t), x, y, i, j);
  }

  /** Every interior cell is the pixel itself or one of its diagonal
      neighbours: cell (i, j) of pixel (x, y) is the pixel or the
      neighbour at (x + 2i - 1, y + 2j - 1). */
  lemma InteriorCell(t: Texture, base: seq<Pixel>, x: int, y: int, i: int, j: int)
    requires ValidTexture(t) && OutLen(t.w, t.h, Factor) <= |base|
    requires Interior(t, x, y) && 0 <= i < Factor && 0 <= j < Factor
    ensures 0 <= Grid.Idx(t.w * Factor, x * Factor + i, y * Factor + j) < |base|
    ensures var v := Filtered(t, Factor, base, Rules(t))[Grid.Idx(t.w * Factor, x * Factor + i, y * Factor + j)];
      v == Get(t, x, y) || v == Get(t, x + 2 * i - 1, y + 2 * j - 1)
  {
    FilteredCell(t, Factor, base, Rules(t), x, y, i, j);
  }

  /** An image of one colour scales to an output of that colour. */
  lemma FlatStaysFlat(t: Texture, base: seq<Pixel>, colour: Pixel, k: int)
    requires ValidTexture(t)
    requires forall x, y :: 0 <= x < t.w && 0 <= y < t.h ==> Get(t, x, y) == colour
    requires InOutput(k, t.w, t.h, Factor) && k < |base|
    ensures Filtered(t, Factor, base, Rules(t))[k] == colour
  {
    BlockRange(k, t.w, t.h, Factor);
  }
}
