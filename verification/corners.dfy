/*
 * `preProcessCorners`: decides, for the corner shared by the pixels F, G, J,
 * K of a 4x4 kernel, which of the four pixels should blend towards it, from
 * the two diagonal gradients through the corner.
 */
module Corners {
  import opened Common
  import opened XbrzUtil
  import opened BlendInfo

  /** The 4x4 input kernel; the current pixel is `f`:
        a b c d
        e f g h
        i j k l
        m n o p */
  datatype Kernel4 = Kernel4(
    a: Pixel, b: Pixel, c: Pixel, d: Pixel,
    e: Pixel, f: Pixel, g: Pixel, h: Pixel,
    i: Pixel, j: Pixel, k: Pixel, l: Pixel,
    m: Pixel, n: Pixel, o: Pixel, p: Pixel)

  /** Blend strength of each of F, G, J, K towards the corner they share. */
  datatype BlendResult = BlendResult(f: bv16, g: bv16, j: bv16, k: bv16)

  const NoBlend: BlendResult := BlendResult(BLEND_NONE, BLEND_NONE, BLEND_NONE, BLEND_NONE)

  /** The weight of the distance across the corner itself. */
  const Weight: real := 4.0

  /** Gradient along the J-G diagonal. */
  function GradJG(ker: Kernel4, metric: Metric, lw: real): real
  {
    ColorDist(metric, ker.i, ker.f, lw) + ColorDist(metric, ker.f, ker.c, lw)
    + ColorDist(metric, ker.n, ker.k, lw) + ColorDist(metric, ker.k, ker.h, lw)
    + Weight * ColorDist(metric, ker.j, ker.g, lw)
  }

  /** Gradient along the F-K diagonal. */
  function GradFK(ker: Kernel4, metric: Metric, lw: real): real
  {
    ColorDist(metric, ker.e, ker.j, lw) + ColorDist(metric, ker.j, ker.o, lw)
    + ColorDist(metric, ker.b, ker.g, lw) + ColorDist(metric, ker.g, ker.l, lw)
    + Weight * ColorDist(metric, ker.f, ker.k, lw)
  }

  /** Two equal pixel pairs across the corner: nothing to decide. */
  predicate Flat(ker: Kernel4)
  {
    (ker.f == ker.g && ker.j == ker.k) || (ker.f == ker.j && ker.g == ker.k)
  }

  /** What `preProcessCorners` promises about its result `r`. A flat corner
      or a tie between the gradients marks nothing; otherwise the smaller
      gradient names the diagonal to blend along, never both; a pixel on it
      is marked unless it equals one of its two neighbours across the
      corner; the marks on one diagonal agree and are dominant exactly when
      threshold * smaller < larger. */
  predicate Classified(ker: Kernel4, metric: Metric, lw: real, dominantDirectionThreshold: real, r: BlendResult)
  {
    var jg := GradJG(ker, metric, lw);
    var fk := GradFK(ker, metric, lw);
    && (Flat(ker) || jg == fk ==> r == NoBlend)
    && ((r.f == BLEND_NONE && r.k == BLEND_NONE) || (r.j == BLEND_NONE && r.g == BLEND_NONE))
    && (r.f != BLEND_NONE <==> !Flat(ker) && jg < fk && ker.f != ker.g && ker.f != ker.j)
    && (r.k != BLEND_NONE <==> !Flat(ker) && jg < fk && ker.k != ker.j && ker.k != ker.g)
    && (r.j != BLEND_NONE <==> !Flat(ker) && fk < jg && ker.j != ker.f && ker.j != ker.k)
    && (r.g != BLEND_NONE <==> !Flat(ker) && fk < jg && ker.g != ker.f && ker.g != ker.k)
    && (r.f != BLEND_NONE || r.k != BLEND_NONE ==>
         ((r.f == BLEND_DOMINANT || r.k == BLEND_DOMINANT) <==> dominantDirectionThreshold * jg < fk))
    && (r.j != BLEND_NONE || r.g != BLEND_NONE ==>
         ((r.j == BLEND_DOMINANT || r.g == BLEND_DOMINANT) <==> dominantDirectionThreshold * fk < jg))
    && (r.f != BLEND_NONE && r.k != BLEND_NONE ==> r.f == r.k)
    && (r.j != BLEND_NONE && r.g != BLEND_NONE ==> r.j == r.g)
  }

  /** `preProcessCorners(ker)`: the two diagonal gradients through the
      corner decide which of F, G, J, K blend towards it, and how strongly. */
  function PreProcessCorners(ker: Kernel4, metric: Metric, lw: real, dominantDirectionThreshold: real): (r: BlendResult)
    ensures IsBlendType(r.f) && IsBlendType(r.g) && IsBlendType(r.j) && IsBlendType(r.k)
  {
    if Flat(ker) then NoBlend
    else
      var jg := GradJG(ker, metric, lw);
      var fk := GradFK(ker, metric, lw);
      if jg < fk then
        var dominantGradient := dominantDirectionThreshold * jg < fk;
        var strength := if dominantGradient then BLEND_DOMINANT else BLEND_NORMAL;
        NoBlend.(f := if ker.f != ker.g && ker.f != ker.j then strength else BLEND_NONE,
                 k := if ker.k != ker.j && ker.k != ker.g then strength else BLEND_NONE)
      else if fk < jg then
        var dominantGradient := dominantDirectionThreshold * fk < jg;
        var strength := if dominantGradient then BLEND_DOMINANT else BLEND_NORMAL;
        NoBlend.(j := if ker.j != ker.f && ker.j != ker.k then strength else BLEND_NONE,
                 g := if ker.g != ker.f && ker.g != ker.k then strength else BLEND_NONE)
      else NoBlend
  }

  /** `preProcessCorners` keeps its promises. */
  lemma PreProcessCornersClassifies(ker: Kernel4, metric: Metric, lw: real, dominantDirectionThreshold: real)
    ensures Classified(ker, metric, lw, dominantDirectionThreshold,
                       PreProcessCorners(ker, metric, lw, dominantDirectionThreshold))
  {
  }

  /** The promises pin the result down: it is the only record that keeps
      them. */
  lemma ClassifiedUnique(ker: Kernel4, metric: Metric, lw: real, thr: real, r: BlendResult, r': BlendResult)
    requires IsBlendType(r.f) && IsBlendType(r.g) && IsBlendType(r.j) && IsBlendType(r.k)
    requires IsBlendType(r'.f) && IsBlendType(r'.g) && IsBlendType(r'.j) && IsBlendType(r'.k)
    requires Classified(ker, metric, lw, thr, r) && Classified(ker, metric, lw, thr, r')
    ensures r == r'
  {
  }

  /** Mirroring the kernel in its main diagonal swaps G and J and keeps the
      decision: the classifier treats both diagonals alike. */
  function Mirror(ker: Kernel4): Kernel4
  {
    Kernel4(ker.a, ker.e, ker.i, ker.m,
            ker.b, ker.f, ker.j, ker.n,
            ker.c, ker.g, ker.k, ker.o,
            ker.d, ker.h, ker.l, ker.p)
  }

  /** For a symmetric metric, the decision on the mirrored kernel is the
      decision on the kernel with the G and J marks swapped. */
  lemma PreProcessCornersMirror(ker: Kernel4, metric: Metric, lw: real, thr: real)
    requires forall p: Pixel, q: Pixel :: metric(p, q, lw) == metric(q, p, lw)
    ensures PreProcessCorners(Mirror(ker), metric, lw, thr)
         == var r := PreProcessCorners(ker, metric, lw, thr); r.(g := r.j, j := r.g)
  {
    var m := Mirror(ker);
    assert GradJG(m, metric, lw) == GradJG(ker, metric, lw) by {
      assert ColorDist(metric, m.i, m.f, lw) == ColorDist(metric, ker.f, ker.c, lw);
      assert ColorDist(metric, m.f, m.c, lw) == ColorDist(metric, ker.i, ker.f, lw);
      assert ColorDist(metric, m.n, m.k, lw) == ColorDist(metric, ker.k, ker.h, lw);
      assert ColorDist(metric, m.k, m.h, lw) == ColorDist(metric, ker.n, ker.k, lw);
      assert ColorDist(metric, m.j, m.g, lw) == ColorDist(metric, ker.j, ker.g, lw);
    }
    assert GradFK(m, metric, lw) == GradFK(ker, metric, lw) by {
      assert ColorDist(metric, m.e, m.j, lw) == ColorDist(metric, ker.g, ker.b, lw);
      assert ColorDist(metric, m.j, m.o, lw) == ColorDist(metric, ker.l, ker.g, lw);
      assert ColorDist(metric, m.b, m.g, lw) == ColorDist(metric, ker.j, ker.e, lw);
      assert ColorDist(metric, m.g, m.l, lw) == ColorDist(metric, ker.o, ker.j, lw);
      assert ColorDist(metric, m.f, m.k, lw) == ColorDist(metric, ker.f, ker.k, lw);
    }
  }
}
