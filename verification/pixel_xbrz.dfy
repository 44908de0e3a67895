/*
 * `PixelSSxBRZ`: the xBRZ upscaler as a pixel filter, at one of the four
 * supported factors, always with the default configuration.
 */
module XbrzFilter {
  import opened Common
  import opened XbrzUtil
  import opened XbrzConfig
  import ScaleSize
  import SI = ScaleImage
  import XbrzApi
  import Raster

  datatype PixelXbrz = PixelXbrz(scaleSize: ScaleSize.ScaleSize)

  function GetFactor(p: PixelXbrz): int
  {
    ScaleSize.Size(p.scaleSize)
  }

  /** `new PixelSSxBRZ(factor)`: the factor must be a supported scale
      size. */
  function NewPixelXbrz(factor: int): (r: Result<PixelXbrz>)
    ensures r.Ok? <==> 2 <= factor <= 5
    ensures r.Ok? ==> GetFactor(r.value) == factor
    ensures r.IllegalArgument? ==> r.message == "unsupported scale size: " + DecimalString(factor)
  {
    match ScaleSize.ValueOf(factor)
    case Ok(size) => Ok(PixelXbrz(size))
    case IllegalArgument(message) => IllegalArgument(message)
  }

  /** `apply(in, out, w, h)`: allocates `(w*s) * (h*s)` cells when `out` is
      null, then scales every row of the image into it. */
  method Apply(p: PixelXbrz, metric: Metric, src: seq<Pixel>, out: Option<seq<Pixel>>, w: int, h: int)
    returns (r: seq<Pixel>)
    requires 0 <= w && 0 <= h && w * h <= |src|
    requires out.Some? ==> Raster.OutLen(w, h, GetFactor(p)) <= |out.value|
    ensures out.None? ==> |r| == Raster.OutLen(w, h, GetFactor(p))
    ensures out.Some? ==> |r| == |out.value|
    ensures (w == 0 || h == 0) ==> r == Raster.OutBuffer(out, Raster.OutLen(w, h, GetFactor(p)))
    ensures 0 < w && 0 < h ==>
      var trg := Raster.OutBuffer(out, Raster.OutLen(w, h, GetFactor(p)));
      SI.TargetFits(XbrzApi.JobOf(p.scaleSize, metric, DefaultConfig(), src, w, h), |trg|) &&
      r == SI.Rows(XbrzApi.JobOf(p.scaleSize, metric, DefaultConfig(), src, w, h), trg, 0, h)
  {
    var s := GetFactor(p);
    Raster.NonNegMul(w, s);
    Raster.NonNegMul(h, s);
    Raster.NonNegMul(w * s, h * s);
    var trg := Raster.OutBuffer(out, Raster.OutLen(w, h, s));
    var res := XbrzApi.ScaleImageDefault(Some(p.scaleSize), metric, src, trg, w, h);
    r := res.value;
  }
}
