/*
 * `scalePixel`: for one rotation of the 3x3 kernel, decides whether and how
 * the bottom-right corner of the pixel's output block is blended, and
 * applies the chosen pattern of the scaler.
 */
module ScalePixel {
  import opened Common
  import opened XbrzUtil
  import opened XbrzConfig
  import opened BlendInfo
  import opened Rotation
  import opened Scaler
  import Matrix
  import Grid

  /** The 3x3 kernel `ker._`, labels a..i in row-major order; the current
      pixel is e. */
  type Kernel3 = ker: seq<Pixel> | |ker| == 9 witness [0, 0, 0, 0, 0, 0, 0, 0, 0]

  /** The outcome of the decision: nothing to do, or a pattern and the
      colour to blend in. */
  datatype Decision = Skip | Apply(kind: Kind, px: Pixel)

  /** Pixel `x` of the kernel after `rotDeg` quarter turns. */
  function RotPix(ker: Kernel3, x: int, rotDeg: int): Pixel
    requires 0 <= x < 9 && 0 <= rotDeg < 4
  {
    ker[Rot(x, rotDeg)]
  }

  /** g, h, i, f and c are all the same colour, and e is not that of i. */
  predicate LShape(c: Pixel, e: Pixel, f: Pixel, g: Pixel, h: Pixel, i: Pixel, metric: Metric, cfg: Config)
  {
    var eq := (p: Pixel, q: Pixel) => ColorEq(metric, cfg.luminanceWeight, cfg.equalColorTolerance, p, q);
    eq(g, h) && eq(h, i) && eq(i, f) && eq(f, c) && !eq(e, i)
  }

  /** `doLineBlend` for a blended corner: a dominant corner always blends as
      a line; otherwise a line blend is vetoed by a second blend in an
      adjacent corner towards a different colour, or by an L-shape. */
  predicate DoLineBlend(blend: Info, b: Pixel, c: Pixel, e: Pixel, f: Pixel, g: Pixel, h: Pixel, i: Pixel,
                        metric: Metric, cfg: Config)
  {
    var eq := (p: Pixel, q: Pixel) => ColorEq(metric, cfg.luminanceWeight, cfg.equalColorTolerance, p, q);
    if GetBottomR(blend) >= BLEND_DOMINANT then true
    else if GetTopR(blend) != BLEND_NONE && !eq(e, g) then false
    else if GetBottomL(blend) != BLEND_NONE && !eq(e, c) then false
    else if LShape(c, e, f, g, h, i, metric, cfg) then false
    else true
  }

  /** `haveShallowLine` and `haveSteepLine`. */
  predicate HaveShallowLine(c: Pixel, d: Pixel, e: Pixel, f: Pixel, g: Pixel, h: Pixel, metric: Metric, cfg: Config)
  {
    cfg.steepDirectionThreshold * ColorDist(metric, f, g, cfg.luminanceWeight)
      <= ColorDist(metric, h, c, cfg.luminanceWeight) && e != g && d != g
  }

  predicate HaveSteepLine(b: Pixel, c: Pixel, e: Pixel, f: Pixel, g: Pixel, h: Pixel, metric: Metric, cfg: Config)
  {
    cfg.steepDirectionThreshold * ColorDist(metric, h, c, cfg.luminanceWeight)
      <= ColorDist(metric, f, g, cfg.luminanceWeight) && e != c && b != c
  }

  /** What the decision of `scalePixel` promises for rotation `rotDeg`:
      nothing happens exactly when the rotated bottom-right corner is not
      blended; a dominant corner always takes a line pattern; a normal
      corner is blended alone exactly when the top-right corner is blended
      and g differs from e, or the bottom-left one is and c differs from e,
      or g, h, i, f, c form an L of one colour that e is not; the colour is
      f or h, whichever is closer to e, ties going to f; and a line pattern
      is chosen by the two line tests. */
  predicate Decided(rotDeg: int, ker: Kernel3, blendInfo: Info, metric: Metric, cfg: Config, r: Decision)
    requires 0 <= rotDeg < 4
  {
    var blend := Rotate(blendInfo, rotDeg);
    var b := RotPix(ker, B, rotDeg);
    var c := RotPix(ker, C, rotDeg);
    var d := RotPix(ker, D, rotDeg);
    var e := RotPix(ker, E, rotDeg);
    var f := RotPix(ker, F, rotDeg);
    var g := RotPix(ker, G, rotDeg);
    var h := RotPix(ker, H, rotDeg);
    var i := RotPix(ker, I, rotDeg);
    var eq := (p: Pixel, q: Pixel) => ColorEq(metric, cfg.luminanceWeight, cfg.equalColorTolerance, p, q);
    var distF := ColorDist(metric, e, f, cfg.luminanceWeight);
    var distH := ColorDist(metric, e, h, cfg.luminanceWeight);
    && (r.Skip? <==> GetBottomR(blend) == BLEND_NONE)
    && (GetBottomR(blend) >= BLEND_DOMINANT ==> r.Apply? && r.kind != Corner)
    && ((r.Apply? && r.kind == Corner) <==>
         (GetBottomR(blend) == BLEND_NORMAL
          && ((GetTopR(blend) != BLEND_NONE && !eq(e, g))
              || (GetBottomL(blend) != BLEND_NONE && !eq(e, c))
              || LShape(c, e, f, g, h, i, metric, cfg))))
    && (r.Apply? ==> r.px == f || r.px == h)
    && (r.Apply? ==> ColorDist(metric, e, r.px, cfg.luminanceWeight) == Min2(distF, distH))
    && (r.Apply? && distF == distH ==> r.px == f)
    && (r.Apply? && r.kind != Corner ==>
         ((r.kind == LineShallow || r.kind == LineSteepAndShallow) <==> HaveShallowLine(c, d, e, f, g, h, metric, cfg)))
    && (r.Apply? && r.kind != Corner ==>
         ((r.kind == LineSteep || r.kind == LineSteepAndShallow) <==> HaveSteepLine(b, c, e, f, g, h, metric, cfg)))
  }

  /** The decision `scalePixel` takes for rotation `rotDeg`. */
  function Decide(rotDeg: int, ker: Kernel3, blendInfo: Info, metric: Metric, cfg: Config): (r: Decision)
    requires 0 <= rotDeg < 4
    ensures r.Skip? <==> GetBottomR(Rotate(blendInfo, rotDeg)) == BLEND_NONE
  {
    var b := RotPix(ker, B, rotDeg);
    var c := RotPix(ker, C, rotDeg);
    var d := RotPix(ker, D, rotDeg);
    var e := RotPix(ker, E, rotDeg);
    var f := RotPix(ker, F, rotDeg);
    var g := RotPix(ker, G, rotDeg);
    var h := RotPix(ker, H, rotDeg);
    var i := RotPix(ker, I, rotDeg);
    var blend := Rotate(blendInfo, rotDeg);
    if GetBottomR(blend) == BLEND_NONE then Skip
    else
      var doLineBlend := DoLineBlend(blend, b, c, e, f, g, h, i, metric, cfg);
      var px := if ColorDist(metric, e, f, cfg.luminanceWeight) <= ColorDist(metric, e, h, cfg.luminanceWeight) then f else h;
      if !doLineBlend then Apply(Corner, px)
      else
        var haveShallowLine := HaveShallowLine(c, d, e, f, g, h, metric, cfg);
        var haveSteepLine := HaveSteepLine(b, c, e, f, g, h, metric, cfg);
        if haveShallowLine then
          if haveSteepLine then Apply(LineSteepAndShallow, px) else Apply(LineShallow, px)
        else
          if haveSteepLine then Apply(LineSteep, px) else Apply(LineDiagonal, px)
  }

  /** `Decide` keeps its promises. */
  lemma DecideKeeps(rotDeg: int, ker: Kernel3, blendInfo: Info, metric: Metric, cfg: Config)
    requires 0 <= rotDeg < 4
    ensures Decided(rotDeg, ker, blendInfo, metric, cfg, Decide(rotDeg, ker, blendInfo, metric, cfg))
  {
  }

  function Min2(x: real, y: real): real { if x <= y then x else y }

  /** Each of the three vetoes on its own turns a normal corner into a
      corner-only blend, whatever the other tests say; a dominant corner is
      never vetoed, even when all three hold. */
  lemma DecideCornerOnlyWhenVetoed(rotDeg: int, ker: Kernel3, blendInfo: Info, metric: Metric, cfg: Config)
    requires 0 <= rotDeg < 4
    ensures GetBottomR(Rotate(blendInfo, rotDeg)) == BLEND_NORMAL
         && GetTopR(Rotate(blendInfo, rotDeg)) != BLEND_NONE
         && !ColorEq(metric, cfg.luminanceWeight, cfg.equalColorTolerance, RotPix(ker, E, rotDeg), RotPix(ker, G, rotDeg))
      ==> Decide(rotDeg, ker, blendInfo, metric, cfg) == Apply(Corner, Decide(rotDeg, ker, blendInfo, metric, cfg).px)
    ensures GetBottomR(Rotate(blendInfo, rotDeg)) == BLEND_NORMAL
         && GetBottomL(Rotate(blendInfo, rotDeg)) != BLEND_NONE
         && !ColorEq(metric, cfg.luminanceWeight, cfg.equalColorTolerance, RotPix(ker, E, rotDeg), RotPix(ker, C, rotDeg))
      ==> Decide(rotDeg, ker, blendInfo, metric, cfg) == Apply(Corner, Decide(rotDeg, ker, blendInfo, metric, cfg).px)
    ensures GetBottomR(Rotate(blendInfo, rotDeg)) == BLEND_NORMAL
         && LShape(RotPix(ker, C, rotDeg), RotPix(ker, E, rotDeg), RotPix(ker, F, rotDeg), RotPix(ker, G, rotDeg),
                   RotPix(ker, H, rotDeg), RotPix(ker, I, rotDeg), metric, cfg)
      ==> Decide(rotDeg, ker, blendInfo, metric, cfg) == Apply(Corner, Decide(rotDeg, ker, blendInfo, metric, cfg).px)
    ensures GetBottomR(Rotate(blendInfo, rotDeg)) >= BLEND_DOMINANT
      ==> Decide(rotDeg, ker, blendInfo, metric, cfg).Apply? && Decide(rotDeg, ker, blendInfo, metric, cfg).kind != Corner
  {
  }

  /** `scalePixel(scaler, rotDeg, ker, trg, trgi, trgWidth, blendInfo)`:
      the target after the decided pattern, if any, has run on the block at
      `trgi` seen through rotation `rotDeg`. */
  function ScalePixel(scaler: Scaler, rotDeg: int, ker: Kernel3, trg: seq<Pixel>, trgi: int, trgWidth: int,
                      blendInfo: Info, metric: Metric, cfg: Config): (r: seq<Pixel>)
    requires 0 <= rotDeg < 4
    requires Matrix.BlockFits(|trg|, Scale(scaler), trgWidth, trgi)
    ensures |r| == |trg|
    ensures GetBottomR(Rotate(blendInfo, rotDeg)) == BLEND_NONE ==> r == trg
  {
    match Decide(rotDeg, ker, blendInfo, metric, cfg)
    case Skip => trg
    case Apply(kind, px) =>
      ApplyPattern(trg, Frame(Scale(scaler), rotDeg, trgi, trgWidth), Pattern(scaler, kind), px)
  }

  /** `scalePixel` writes only inside the `scale x scale` block at `trgi`. */
  lemma ScalePixelInBlock(scaler: Scaler, rotDeg: int, ker: Kernel3, trg: seq<Pixel>, trgi: int, trgWidth: int,
                          blendInfo: Info, metric: Metric, cfg: Config)
    requires 0 <= rotDeg < 4
    requires Matrix.BlockFits(|trg|, Scale(scaler), trgWidth, trgi)
    ensures forall k :: 0 <= k < |trg| && !InTargetBlock(k, trgi, trgWidth, Scale(scaler)) ==>
      ScalePixel(scaler, rotDeg, ker, trg, trgi, trgWidth, blendInfo, metric, cfg)[k] == trg[k]
  {
    var r := ScalePixel(scaler, rotDeg, ker, trg, trgi, trgWidth, blendInfo, metric, cfg);
    match Decide(rotDeg, ker, blendInfo, metric, cfg)
    case Skip =>
    case Apply(kind, px) =>
      var frame := Frame(Scale(scaler), rotDeg, trgi, trgWidth);
      var ops := Pattern(scaler, kind);
      forall k | 0 <= k < |trg| && !InTargetBlock(k, trgi, trgWidth, Scale(scaler))
        ensures r[k] == trg[k]
      {
        forall t | 0 <= t < |ops|
          ensures Pos(frame, |trg|, ops[t]) != k
        {
          PosInBlock(frame, |trg|, ops[t]);
        }
        ApplyPatternOutside(trg, frame, ops, px, k);
      }
  }

  /** Index `k` lies in the `scale x scale` block whose top-left is `outi`
      in a target whose rows are `outWidth` wide. */
  predicate InTargetBlock(k: int, outi: int, outWidth: int, scale: int)
    requires outWidth > 0
  {
    outi <= k && (k - outi) / outWidth < scale && (k - outi) % outWidth < scale
  }

  /** Every statement of a pattern writes inside the block. */
  lemma PosInBlock(f: Frame, len: int, op: Op)
    requires FrameFits(f, len) && ValidOp(op, f.scale)
    ensures InTargetBlock(Pos(f, len, op), f.outi, f.outWidth, f.scale)
  {
    Matrix.RefAddress(f.scale, f.outWidth, f.rotDeg, f.outi, op.i, op.j);
    var p := BuildMatrixRotation(f.rotDeg, op.i, op.j, f.scale);
    CellInTargetBlock(Pos(f, len, op), f.outi, f.outWidth, f.scale, p.I, p.J);
  }

  /** Cell (I, J) of the block at `outi` is in that block. */
  lemma {:induction false} CellInTargetBlock(k: int, outi: int, outWidth: int, scale: int, I: int, J: int)
    requires 0 <= I < scale && 0 <= J < scale && scale <= outWidth
    requires k == outi + J + I * outWidth
    ensures InTargetBlock(k, outi, outWidth, scale)
  {
    Grid.DivModUnique(k - outi, outWidth, I, J);
  }
}
