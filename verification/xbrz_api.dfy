/*
 * The public `XBRZ.scaleImage` overloads: argument checks in front of the
 * row scan, the whole-image range and the default configuration.
 */
module XbrzApi {
  import opened Common
  import opened XbrzUtil
  import opened XbrzConfig
  import ScaleSize
  import SI = ScaleImage

  /** The job the private `scaleImage` runs for these arguments. */
  function JobOf(size: ScaleSize.ScaleSize, metric: Metric, cfg: Config, src: seq<Pixel>, w: int, h: int): SI.Job
    requires 0 < w && 0 <= h && w * h <= |src|
  {
    SI.Job(SI.SourceRows(src, w, h), w, h, ScaleSize.ScalerOf(size), metric, cfg)
  }

  /** What the callers must supply when rows are scanned at all: a source of
      `w * h` pixels and a target of `(w*s) * (h*s)` cells. A null scale size
      or config is refused before either array is read, so the callers
      demand this only when both are given. */
  predicate Fits(size: ScaleSize.ScaleSize, src: seq<Pixel>, trg: seq<Pixel>, w: int, h: int, yFirst: int, yLast: int)
  {
    SI.Scanned(w, h, yFirst, yLast) ==>
      w * h <= |src| && (w * ScaleSize.Size(size)) * (h * ScaleSize.Size(size)) <= |trg|
  }

  /** `scaleImage(scaleSize, src, trg, w, h, cfg, yFirst, yLast)`: a null
      scale size or config is refused; otherwise the target rows
      [s * yFirst, s * yLast) are written, and every cell outside them keeps
      its value. */
  method ScaleImageRange(scaleSize: Option<ScaleSize.ScaleSize>, metric: Metric, src: seq<Pixel>, trg: seq<Pixel>,
                         w: int, h: int, cfg: Option<Config>, yFirst: int, yLast: int)
    returns (r: Result<seq<Pixel>>)
    requires scaleSize.Some? && cfg.Some? ==> Fits(scaleSize.value, src, trg, w, h, yFirst, yLast)
    ensures scaleSize.None? ==> r == IllegalArgument("scale size must not be null")
    ensures scaleSize.Some? && cfg.None? ==> r == IllegalArgument("config must not be null")
    ensures scaleSize.Some? && cfg.Some? ==> r.Ok? && |r.value| == |trg|
    ensures scaleSize.Some? && cfg.Some? && !SI.Scanned(w, h, yFirst, yLast) ==> r == Ok(trg)
    ensures scaleSize.Some? && cfg.Some? && SI.Scanned(w, h, yFirst, yLast) ==>
      SI.TargetFits(JobOf(scaleSize.value, metric, cfg.value, src, w, h), |trg|) &&
      r == Ok(SI.Rows(JobOf(scaleSize.value, metric, cfg.value, src, w, h), trg, Max(yFirst, 0), Min(yLast, h)))
    ensures scaleSize.Some? && cfg.Some? ==>
      SI.SameOutside(trg, r.value, SI.BandStart(ScaleSize.ScalerOf(scaleSize.value), w, Max(yFirst, 0)),
                     SI.BandStart(ScaleSize.ScalerOf(scaleSize.value), w, Min(yLast, h)))
  {
    if scaleSize.None? {
      return IllegalArgument("scale size must not be null");
    }
    if cfg.None? {
      return IllegalArgument("config must not be null");
    }
    var size := scaleSize.value;
    var scaler := ScaleSize.ScalerOf(size);
    assert SI.Scanned(w, h, yFirst, yLast) ==>
      SI.TargetFits(SI.Job([], w, h, scaler, metric, cfg.value), |trg|);
    var trg' := SI.ScaleImage(scaler, metric, cfg.value, src, trg, w, h, yFirst, yLast);
    return Ok(trg');
  }

  /** `scaleImage(scaleSize, src, trg, w, h, cfg)`: all rows. */
  method ScaleImageWhole(scaleSize: Option<ScaleSize.ScaleSize>, metric: Metric, src: seq<Pixel>, trg: seq<Pixel>,
                         w: int, h: int, cfg: Option<Config>)
    returns (r: Result<seq<Pixel>>)
    requires scaleSize.Some? && cfg.Some? ==> Fits(scaleSize.value, src, trg, w, h, 0, h)
    ensures scaleSize.None? ==> r.IllegalArgument?
    ensures scaleSize.Some? && cfg.None? ==> r == IllegalArgument("config must not be null")
    ensures scaleSize.Some? && cfg.Some? ==> r.Ok? && |r.value| == |trg|
    ensures scaleSize.Some? && cfg.Some? && (w <= 0 || h <= 0) ==> r == Ok(trg)
    ensures scaleSize.Some? && cfg.Some? && 0 < w && 0 < h ==>
      SI.TargetFits(JobOf(scaleSize.value, metric, cfg.value, src, w, h), |trg|) &&
      r == Ok(SI.Rows(JobOf(scaleSize.value, metric, cfg.value, src, w, h), trg, 0, h))
  {
    r := ScaleImageRange(scaleSize, metric, src, trg, w, h, cfg, 0, h);
  }

  /** `scaleImage(scaleSize, src, trg, w, h)`: all rows with the default
      configuration. */
  method ScaleImageDefault(scaleSize: Option<ScaleSize.ScaleSize>, metric: Metric, src: seq<Pixel>, trg: seq<Pixel>,
                           w: int, h: int)
    returns (r: Result<seq<Pixel>>)
    requires scaleSize.Some? ==> Fits(scaleSize.value, src, trg, w, h, 0, h)
    ensures scaleSize.None? <==> r.IllegalArgument?
    ensures scaleSize.Some? ==> |r.value| == |trg|
    ensures scaleSize.Some? && (w <= 0 || h <= 0) ==> r == Ok(trg)
    ensures scaleSize.Some? && 0 < w && 0 < h ==>
      SI.TargetFits(JobOf(scaleSize.value, metric, DefaultConfig(), src, w, h), |trg|) &&
      r == Ok(SI.Rows(JobOf(scaleSize.value, metric, DefaultConfig(), src, w, h), trg, 0, h))
  {
    r := ScaleImageWhole(scaleSize, metric, src, trg, w, h, Some(DefaultConfig()));
  }
}
