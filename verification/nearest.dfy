/*
 * `PixelSSNearest`: nearest-neighbour scaling by a whole factor. Output
 * cell (X, Y) takes source pixel (X*w/outW, Y*h/outH), which is the pixel
 * whose `factor` x `factor` block holds the cell.
 */
module NearestFilter {
  import opened Common
  import Grid
  import XbrzUtil
  import opened Raster

  datatype Nearest = Nearest(factor: int)

  predicate Valid(n: Nearest)
  {
    1 <= n.factor
  }

  function GetFactor(n: Nearest): int
  {
    n.factor
  }

  /** `new PixelSSNearest(factor)`. */
  function NewNearest(factor: int): (r: Result<Nearest>)
    ensures r.Ok? <==> 1 <= factor
    ensures r.Ok? ==> Valid(r.value) && GetFactor(r.value) == factor
    ensures r.IllegalArgument? ==> r.message == "factor must be at least 1"
  {
    if factor < 1 then IllegalArgument("factor must be at least 1")
    else Ok(Nearest(factor))
  }

  /** The source coordinate read for output coordinate `x`: `x * w / outW`
      with `outW == w * f` is `x / f`, and it lies inside the source. */
  lemma {:induction false} SourceCoord(x: int, w: int, f: int)
    requires 0 < w && 0 < f && 0 <= x < w * f
    ensures x * w / (w * f) == x / f
    ensures 0 <= x / f < w
  {
    XbrzUtil.DivCancel(x, w, f);
    Raster.QuotientBelow(x, f, w);
  }

  /** Output cell `k` lies in column `Col(k)` and row `Row(k)` of the
      output: the flat index of (x, y) maps back to (x, y). */
  lemma {:induction false} CellPosition(w: int, h: int, f: int, x: int, y: int)
    requires 0 < w && 0 < h && 0 < f && 0 <= x < w * f && 0 <= y < h * f
    ensures InOutput(Grid.Idx(w * f, x, y), w, h, f)
    ensures Col(Grid.Idx(w * f, x, y), w, f) == x && Row(Grid.Idx(w * f, x, y), w, f) == y
  {
    Grid.IdxInRange(w * f, h * f, x, y);
    Grid.DivModUnique(Grid.Idx(w * f, x, y), w * f, y, x);
  }

  /** The cells the two loops have written, `x` columns done and `y` cells
      of column `x`. */
  predicate Written(k: int, w: int, h: int, f: int, x: int, y: int)
  {
    InOutput(k, w, h, f) && (Col(k, w, f) < x || (Col(k, w, f) == x && Row(k, w, f) < y))
  }

  /** Writing cell (x, y) extends the written cells by exactly that cell. */
  lemma {:induction false} WrittenNext(k: int, w: int, h: int, f: int, x: int, y: int)
    requires 0 < w && 0 < h && 0 < f && 0 <= x < w * f && 0 <= y < h * f && 0 <= k
    ensures Written(k, w, h, f, x, y + 1) <==> Written(k, w, h, f, x, y) || k == Grid.Idx(w * f, x, y)
  {
    CellPosition(w, h, f, x, y);
    if InOutput(k, w, h, f) && Col(k, w, f) == x && Row(k, w, f) == y {
      Grid.IdxSplit(w * f, k);
    }
  }

  /** `apply(in, out, w, h)`: walks the output column by column, writing
      each cell from its source pixel. With `out` null the result is a fresh
      `outW * outH` buffer; otherwise it is `out`, whose cells past the
      output keep their values. */
  method Apply(n: Nearest, src: seq<Pixel>, out: Option<seq<Pixel>>, w: int, h: int) returns (r: seq<Pixel>)
    requires Valid(n) && 0 <= w && 0 <= h && w * h <= |src|
    requires out.Some? ==> OutLen(w, h, n.factor) <= |out.value|
    ensures out.None? ==> |r| == OutLen(w, h, n.factor)
    ensures r == Expand(Texture(src, w, h), n.factor, OutBuffer(out, OutLen(w, h, n.factor)))
  {
    var f := n.factor;
    var outW := w * f;
    var outH := h * f;
    NonNegMul(w, f);
    NonNegMul(h, f);
    NonNegMul(outW, outH);
    var t := Texture(src, w, h);
    var o := OutBuffer(out, outW * outH);
    r := o;
    var x := 0;
    while x < outW
      invariant 0 <= x <= outW
      invariant |r| == |o|
      invariant forall k :: 0 <= k < |r| ==>
        r[k] == if Written(k, w, h, f, x, 0) then Source(t, f, k) else o[k]
    {
      var y := 0;
      while y < outH
        invariant 0 <= y <= outH
        invariant |r| == |o|
        invariant forall k :: 0 <= k < |r| ==>
          r[k] == if Written(k, w, h, f, x, y) then Source(t, f, k) else o[k]
      {
        SourceCoord(x, w, f);
        SourceCoord(y, h, f);
        var rgb := Get(t, x * w / outW, y * h / outH);
        CellPosition(w, h, f, x, y);
        var k0 := Grid.Idx(outW, x, y);
        assert rgb == Source(t, f, k0);
        forall k | 0 <= k < |r|
          ensures Written(k, w, h, f, x, y + 1) <==> Written(k, w, h, f, x, y) || k == k0
        {
          WrittenNext(k, w, h, f, x, y);
        }
        r := r[k0 := rgb];
        y := y + 1;
      }
      forall k | 0 <= k < |r| && InOutput(k, w, h, f)
        ensures Row(k, w, f) < outH
      {
        Grid.IdxRowBound(outW, outH, k);
      }
      x := x + 1;
    }
    assert forall k | 0 <= k < |r| :: r[k] == Expand(t, f, o)[k];
  }

  /** Scaling by 1 copies the image. */
  lemma {:induction false} FactorOneIsCopy(src: seq<Pixel>, w: int, h: int)
    requires 0 <= w && 0 <= h && |src| == w * h
    ensures Expand(Texture(src, w, h), 1, Alloc(w * h)) == src
  {
    var t := Texture(src, w, h);
    var e := Expand(t, 1, Alloc(w * h));
    forall k | 0 <= k < |src|
      ensures e[k] == src[k]
    {
      Grid.IdxSplit(w, k);
      assert InOutput(k, w, h, 1);
    }
  }

  // ---------------------------------------------------------------------
  // The index arithmetic exactly as the 32-bit Java code computes it

  /** `x * w / outW` in Java `int` arithmetic: the product wraps around
      before the division. */
  function SourceCoordAsWritten(x: int, w: int, outW: int): (r: int)
    requires 0 < outW
    ensures -0x8000_0000 <= x * w < 0x8000_0000 && 0 <= x * w ==> r == x * w / outW
  {
    JavaDiv(Wrap32(x * w), outW)
  }

  /** A 32769-pixel-wide strip scaled by 2: output column 65537 should read
      source column 32768, but `65537 * 32769` overflows `int` and the loop
      reads column -32765. */
  lemma SourceCoordOverflowWitness()
    ensures var w, f, x := 32769, 2, 65537;
      0 <= x < w * f && x / f == 32768 && SourceCoordAsWritten(x, w, w * f) == -32765
  {
  }
}
