/*
 * The private `scaleImage` scan of the xBRZ scaler: every source row of the
 * slice [yFirst, yLast) is visited left to right; each pixel's block of the
 * target is filled with the pixel and then its four corners are blended.
 * The corners are classified once each and handed on to the neighbours that
 * share them through a one-row buffer of corner records.
 */
module ScaleImage {
  import opened Common
  import opened XbrzUtil
  import opened XbrzConfig
  import opened BlendInfo
  import opened Corners
  import opened Scaler
  import opened ScalePixel
  import Matrix
  import Grid

  /** Everything one scan reads: the source image as its `h` rows of `w`
      pixels each, the scaler and the colour settings. */
  datatype Job = Job(src: seq<seq<Pixel>>, w: int, h: int, scaler: Scaler, metric: Metric, cfg: Config)

  /** A non-empty source with all its rows present and complete. */
  predicate ValidJob(job: Job)
  {
    job.w > 0 && job.h > 0 && |job.src| == job.h && forall y :: 0 <= y < job.h ==> |job.src[y]| == job.w
  }

  /** Width of a target row. */
  function TrgWidth(job: Job): (r: int)
    ensures job.w > 0 ==> r >= job.w
  {
    if job.w > 0 then Grid.MulMono(1, Scale(job.scaler), job.w); job.w * Scale(job.scaler)
    else job.w * Scale(job.scaler)
  }

  /** The target holds the whole scaled image. */
  predicate TargetFits(job: Job, len: int)
  {
    TrgWidth(job) * (job.h * Scale(job.scaler)) <= len
  }

  // ---------------------------------------------------------------------
  // Reading the source

  /** The first `h` rows of a row-major image `w` pixels wide. */
  function SourceRows(src: seq<Pixel>, w: int, h: int): (rows: seq<seq<Pixel>>)
    requires 0 < w && 0 <= h && w * h <= |src|
    ensures |rows| == h && forall y :: 0 <= y < h ==> |rows[y]| == w
    decreases h
  {
    if h == 0 then []
    else
      Grid.MulMono(h - 1, h, w);
      Grid.MulMono(0, h - 1, w);
      SourceRows(src, w, h - 1) + [src[(h - 1) * w .. (h - 1) * w + w]]
  }

  /** Row `y` of `SourceRows` holds the source's pixels `y * w + x`. */
  lemma {:induction false} SourceRowsCells(src: seq<Pixel>, w: int, h: int)
    requires 0 < w && 0 <= h && w * h <= |src|
    ensures forall y, x :: 0 <= y < h && 0 <= x < w ==> SourceRows(src, w, h)[y][x] == src[Grid.Idx(w, x, y)]
    decreases h
  {
    if h > 0 {
      Grid.MulMono(h - 1, h, w);
      Grid.MulMono(0, h - 1, w);
      SourceRowsCells(src, w, h - 1);
      var prev := SourceRows(src, w, h - 1);
      var last := src[(h - 1) * w .. (h - 1) * w + w];
      assert SourceRows(src, w, h) == prev + [last];
      forall y, x | 0 <= y < h && 0 <= x < w
        ensures SourceRows(src, w, h)[y][x] == src[Grid.Idx(w, x, y)]
      {
        Grid.IdxInRange(w, h, x, y);
        if y < h - 1 {
          assert (prev + [last])[y] == prev[y];
        } else {
          assert (prev + [last])[y] == last;
        }
      }
    }
  }

  /** The source pixel the scan reads for neighbour (x, y): both coordinates
      are clamped into the image, as `Math.max(x - 1, 0)`,
      `Math.min(x + 1, w - 1)` and their row counterparts do. */
  function Px(job: Job, x: int, y: int): Pixel
    requires ValidJob(job)
  {
    job.src[Clamp(y, job.h)][Clamp(x, job.w)]
  }

  /** The 4x4 kernel whose F is pixel (x, y). */
  function Kernel4At(job: Job, x: int, y: int): Kernel4
    requires ValidJob(job)
  {
    Kernel4(Px(job, x - 1, y - 1), Px(job, x, y - 1), Px(job, x + 1, y - 1), Px(job, x + 2, y - 1),
            Px(job, x - 1, y), Px(job, x, y), Px(job, x + 1, y), Px(job, x + 2, y),
            Px(job, x - 1, y + 1), Px(job, x, y + 1), Px(job, x + 1, y + 1), Px(job, x + 2, y + 1),
            Px(job, x - 1, y + 2), Px(job, x, y + 2), Px(job, x + 1, y + 2), Px(job, x + 2, y + 2))
  }

  /** The 3x3 kernel whose e is pixel (x, y). */
  function Kernel3At(job: Job, x: int, y: int): Kernel3
    requires ValidJob(job)
  {
    [Px(job, x - 1, y - 1), Px(job, x, y - 1), Px(job, x + 1, y - 1),
     Px(job, x - 1, y), Px(job, x, y), Px(job, x + 1, y),
     Px(job, x - 1, y + 1), Px(job, x, y + 1), Px(job, x + 1, y + 1)]
  }

  /** The classification of the corner below and right of pixel (x, y). */
  function Corner(job: Job, x: int, y: int): BlendResult
    requires ValidJob(job)
  {
    PreProcessCorners(Kernel4At(job, x, y), job.metric, job.cfg.luminanceWeight, job.cfg.dominantDirectionThreshold)
  }

  // ---------------------------------------------------------------------
  // The four corners of a pixel, computed directly

  /** Pixel (x, y) is K of the corner classified at (x - 1, y - 1), J of the
      one at (x, y - 1), F of its own and G of the one at (x - 1, y). Corners
      outside the image's top or left edge are never classified. */
  function TopL(job: Job, x: int, y: int): (r: bv16)
    requires ValidJob(job)
    ensures IsBlendType(r)
  {
    if x >= 1 && y >= 1 then Corner(job, x - 1, y - 1).k else BLEND_NONE
  }

  function TopR(job: Job, x: int, y: int): (r: bv16)
    requires ValidJob(job)
    ensures IsBlendType(r)
  {
    if y >= 1 then Corner(job, x, y - 1).j else BLEND_NONE
  }

  function BottomR(job: Job, x: int, y: int): (r: bv16)
    requires ValidJob(job)
    ensures IsBlendType(r)
  {
    Corner(job, x, y).f
  }

  function BottomL(job: Job, x: int, y: int): (r: bv16)
    requires ValidJob(job)
    ensures IsBlendType(r)
  {
    if x >= 1 then Corner(job, x - 1, y).g else BLEND_NONE
  }

  /** The corner record of pixel (x, y). */
  function BlendAt(job: Job, x: int, y: int): (b: Info)
    requires ValidJob(job)
    ensures b < 256
    ensures GetTopL(b) == TopL(job, x, y) && GetTopR(b) == TopR(job, x, y)
    ensures GetBottomR(b) == BottomR(job, x, y) && GetBottomL(b) == BottomL(job, x, y)
  {
    Pack(TopL(job, x, y), TopR(job, x, y), BottomR(job, x, y), BottomL(job, x, y))
  }

  // ---------------------------------------------------------------------
  // Filling a block

  /** Index `k` lies in the `rows x cols` rectangle whose top-left is `o` in a
      target whose rows are `pitch` wide. */
  predicate InRect(k: int, o: int, pitch: int, rows: int, cols: int)
    requires pitch > 0
  {
    o <= k && (k - o) / pitch < rows && (k - o) % pitch < cols
  }

  /** The rectangle of `rows` rows is the one of `rows - 1` rows plus the
      `cols` cells starting `rows - 1` rows below its origin. */
  lemma {:induction false} RectLastRow(d: int, pitch: int, rows: int, cols: int)
    requires 0 <= d && 0 <= cols <= pitch && 0 < pitch && 0 < rows
    ensures (d / pitch < rows && d % pitch < cols)
        <==> ((d / pitch < rows - 1 && d % pitch < cols) || ((rows - 1) * pitch <= d < (rows - 1) * pitch + cols))
  {
    var q := d / pitch;
    var m := d % pitch;
    assert d == q * pitch + m;
    if (rows - 1) * pitch <= d < (rows - 1) * pitch + cols {
      Grid.DivModUnique(d, pitch, rows - 1, d - (rows - 1) * pitch);
    }
    if q < rows - 1 {
      Grid.MulMono(q + 1, rows - 1, pitch);
    }
    if q >= rows {
      Grid.MulMono(rows, q, pitch);
    }
  }

  /** The target after `fillBlock(trg, trgi, pitch, col, blockSize)`:
      exactly the cells of the `blockSize x blockSize` block at `trgi`
      take `col`. */
  function FillBlock(trg: seq<Pixel>, trgi: int, pitch: int, col: Pixel, blockSize: int): (r: seq<Pixel>)
    requires 0 < blockSize && Matrix.BlockFits(|trg|, blockSize, pitch, trgi)
    ensures |r| == |trg|
  {
    seq(|trg|, k requires 0 <= k < |trg| => if InTargetBlock(k, trgi, pitch, blockSize) then col else trg[k])
  }

  /** `fillBlock` as written: row by row, `pitch` cells apart, each row
      `blockSize` cells from its start. */
  method FillBlockLoop(trg: seq<Pixel>, trgi: int, pitch: int, col: Pixel, blockSize: int) returns (r: seq<Pixel>)
    requires 0 < blockSize && Matrix.BlockFits(|trg|, blockSize, pitch, trgi)
    ensures r == FillBlock(trg, trgi, pitch, col, blockSize)
  {
    r := trg;
    var t := trgi;
    var y := 0;
    while y < blockSize
      invariant 0 <= y <= blockSize && |r| == |trg|
      invariant t == trgi + y * pitch
      invariant forall k :: 0 <= k < |trg| ==> r[k] == if InRect(k, trgi, pitch, y, blockSize) then col else trg[k]
    {
      Grid.MulMono(y, blockSize - 1, pitch);
      Grid.MulMono(0, y, pitch);
      var x := 0;
      while x < blockSize
        invariant 0 <= x <= blockSize && |r| == |trg|
        invariant forall k :: 0 <= k < |trg| ==>
          r[k] == if InRect(k, trgi, pitch, y, blockSize) || t <= k < t + x then col else trg[k]
      {
        r := r[t + x := col];
        x := x + 1;
      }
      forall k | 0 <= k < |trg| && trgi <= k
        ensures InRect(k, trgi, pitch, y + 1, blockSize)
            <==> (InRect(k, trgi, pitch, y, blockSize) || t <= k < t + blockSize)
      {
        RectLastRow(k - trgi, pitch, y + 1, blockSize);
      }
      y := y + 1;
      t := t + pitch;
    }
  }

  // ---------------------------------------------------------------------
  // One pixel of the scan, and the scan as a fold

  /** Target index of the top-left cell of pixel (x, y)'s block. */
  function BlockOrigin(s: int, trgWidth: int, x: int, y: int): int
  {
    s * y * trgWidth + s * x
  }

  /** The block of every source pixel lies inside a target that holds the
      whole scaled image. */
  lemma {:induction false} PixelBlockFits(s: int, w: int, h: int, x: int, y: int, len: int)
    requires 0 < s && 0 <= x < w && 0 <= y < h && (w * s) * (h * s) <= len
    ensures Matrix.BlockFits(len, s, w * s, BlockOrigin(s, w * s, x, y))
  {
    var tw := w * s;
    Grid.MulMono(1, w, s);
    Grid.MulMono(x + 1, w, s);
    Grid.MulMono(y + 1, h, s);
    Grid.MulMono(s * (y + 1), h * s, tw);
    assert BlockOrigin(s, tw, x, y) + (s - 1) * tw + (s - 1) == (s * (y + 1) - 1) * tw + s * (x + 1) - 1;
    assert 0 <= s * y * tw by {
      Grid.MulMono(0, y, s);
      Grid.MulMono(0, s * y, tw);
    }
    assert 0 <= s * x by {
      Grid.MulMono(0, x, s);
    }
  }

  /** Target index of the top-left cell of pixel (x, y)'s block. */
  function PixelOrigin(job: Job, x: int, y: int): int
  {
    BlockOrigin(Scale(job.scaler), TrgWidth(job), x, y)
  }

  /** The block of every pixel of the source fits the target. */
  lemma PixelBlockFitsTarget(job: Job, len: int, x: int, y: int)
    requires ValidJob(job) && TargetFits(job, len) && 0 <= x < job.w && 0 <= y < job.h
    ensures Matrix.BlockFits(len, Scale(job.scaler), TrgWidth(job), PixelOrigin(job, x, y))
  {
    PixelBlockFits(Scale(job.scaler), job.w, job.h, x, y, len);
  }

  /** Scanning pixel (x, y): fill its block with it, and when any of its
      corners is blended, run `scalePixel` for the four rotations. */
  function ProcessPixel(job: Job, trg: seq<Pixel>, x: int, y: int): (r: seq<Pixel>)
    requires ValidJob(job) && TargetFits(job, |trg|) && 0 <= x < job.w && 0 <= y < job.h
    ensures |r| == |trg|
  {
    PixelBlockFitsTarget(job, |trg|, x, y);
    BlendBlock(job.scaler, trg, PixelOrigin(job, x, y), TrgWidth(job), Px(job, x, y), BlendAt(job, x, y),
               Kernel3At(job, x, y), job.metric, job.cfg)
  }

  /** Scanning a pixel changes only its own block, and a pixel with no
      blended corner leaves a solid block of its colour. */
  lemma ProcessPixelCells(job: Job, trg: seq<Pixel>, x: int, y: int)
    requires ValidJob(job) && TargetFits(job, |trg|) && 0 <= x < job.w && 0 <= y < job.h
    ensures forall k :: 0 <= k < |trg| && !InTargetBlock(k, PixelOrigin(job, x, y), TrgWidth(job), Scale(job.scaler))
                ==> ProcessPixel(job, trg, x, y)[k] == trg[k]
    ensures BlendAt(job, x, y) == 0 ==>
      forall k :: 0 <= k < |trg| && InTargetBlock(k, PixelOrigin(job, x, y), TrgWidth(job), Scale(job.scaler))
                ==> ProcessPixel(job, trg, x, y)[k] == Px(job, x, y)
  {
    PixelBlockFitsTarget(job, |trg|, x, y);
    BlendBlockCells(job.scaler, trg, PixelOrigin(job, x, y), TrgWidth(job), Px(job, x, y), BlendAt(job, x, y),
                    Kernel3At(job, x, y), job.metric, job.cfg);
  }

  /** The block at `trgi` filled with `col`, then, unless `blend` is empty,
      the four rotations of `scalePixel` applied to it. */
  function BlendBlock(scaler: Scaler, trg: seq<Pixel>, trgi: int, trgWidth: int, col: Pixel, blend: Info,
                      ker: Kernel3, metric: Metric, cfg: Config): (r: seq<Pixel>)
    requires Matrix.BlockFits(|trg|, Scale(scaler), trgWidth, trgi)
    ensures |r| == |trg|
  {
    var filled := FillBlock(trg, trgi, trgWidth, col, Scale(scaler));
    if blend == 0 then filled
    else
      var r0 := ScalePixel.ScalePixel(scaler, 0, ker, filled, trgi, trgWidth, blend, metric, cfg);
      var r1 := ScalePixel.ScalePixel(scaler, 1, ker, r0, trgi, trgWidth, blend, metric, cfg);
      var r2 := ScalePixel.ScalePixel(scaler, 2, ker, r1, trgi, trgWidth, blend, metric, cfg);
      ScalePixel.ScalePixel(scaler, 3, ker, r2, trgi, trgWidth, blend, metric, cfg)
  }

  lemma BlendBlockCells(scaler: Scaler, trg: seq<Pixel>, trgi: int, trgWidth: int, col: Pixel, blend: Info,
                        ker: Kernel3, metric: Metric, cfg: Config)
    requires Matrix.BlockFits(|trg|, Scale(scaler), trgWidth, trgi)
    ensures forall k :: 0 <= k < |trg| && !InTargetBlock(k, trgi, trgWidth, Scale(scaler)) ==>
      BlendBlock(scaler, trg, trgi, trgWidth, col, blend, ker, metric, cfg)[k] == trg[k]
    ensures blend == 0 ==> forall k :: 0 <= k < |trg| && InTargetBlock(k, trgi, trgWidth, Scale(scaler)) ==>
      BlendBlock(scaler, trg, trgi, trgWidth, col, blend, ker, metric, cfg)[k] == col
  {
    var filled := FillBlock(trg, trgi, trgWidth, col, Scale(scaler));
    if blend != 0 {
      var r0 := ScalePixel.ScalePixel(scaler, 0, ker, filled, trgi, trgWidth, blend, metric, cfg);
      var r1 := ScalePixel.ScalePixel(scaler, 1, ker, r0, trgi, trgWidth, blend, metric, cfg);
      var r2 := ScalePixel.ScalePixel(scaler, 2, ker, r1, trgi, trgWidth, blend, metric, cfg);
      ScalePixelInBlock(scaler, 0, ker, filled, trgi, trgWidth, blend, metric, cfg);
      ScalePixelInBlock(scaler, 1, ker, r0, trgi, trgWidth, blend, metric, cfg);
      ScalePixelInBlock(scaler, 2, ker, r1, trgi, trgWidth, blend, metric, cfg);
      ScalePixelInBlock(scaler, 3, ker, r2, trgi, trgWidth, blend, metric, cfg);
    }
  }

  /** The target after scanning the first `x` pixels of row `y`. */
  function Row(job: Job, trg: seq<Pixel>, y: int, x: int): (r: seq<Pixel>)
    requires ValidJob(job) && TargetFits(job, |trg|) && 0 <= y < job.h && 0 <= x <= job.w
    ensures |r| == |trg|
    decreases x, 0
  {
    if x == 0 then trg else RowThrough(job, trg, y, x - 1)
  }

  /** The target once pixel (x, y) is scanned as well. */
  function RowThrough(job: Job, trg: seq<Pixel>, y: int, x: int): (r: seq<Pixel>)
    requires ValidJob(job) && TargetFits(job, |trg|) && 0 <= y < job.h && 0 <= x < job.w
    ensures |r| == |trg|
    decreases x, 1
  {
    ProcessPixel(job, Row(job, trg, y, x), x, y)
  }

  /** The target after scanning rows [yFirst, y). */
  function Rows(job: Job, trg: seq<Pixel>, yFirst: int, y: int): (r: seq<Pixel>)
    requires ValidJob(job) && TargetFits(job, |trg|) && 0 <= yFirst <= y <= job.h
    ensures |r| == |trg|
    decreases y - yFirst
  {
    if y == yFirst then trg else Row(job, Rows(job, trg, yFirst, y - 1), y - 1, job.w)
  }

  // ---------------------------------------------------------------------
  // Which target cells a scan writes

  /** First index of the `s` target rows that source row `y` scales to, in
      a target `w * s` cells wide. */
  function BandStart(scaler: Scaler, w: int, y: int): int
  {
    Scale(scaler) * y * (w * Scale(scaler))
  }

  /** `r` is `trg` with at most the cells in [lo, hi) changed. */
  predicate SameOutside(trg: seq<Pixel>, r: seq<Pixel>, lo: int, hi: int)
  {
    |r| == |trg| && forall k :: 0 <= k < |trg| && (k < lo || hi <= k) ==> r[k] == trg[k]
  }

  /** The cells of [lo, hi) in the columns of the first `x` blocks, each
      block `s` cells wide in a target `tw` cells wide, hold `colour`. */
  predicate Painted(t: seq<Pixel>, colour: Pixel, lo: int, hi: int, tw: int, s: int, x: int)
    requires 0 < tw && 0 < s
  {
    forall k :: 0 <= k < |t| && lo <= k < hi && k % tw / s < x ==> t[k] == colour
  }

  /** The cells of [lo, hi) in the columns of block `x` hold `colour`. */
  predicate ColumnPainted(t: seq<Pixel>, colour: Pixel, lo: int, hi: int, tw: int, s: int, x: int)
    requires 0 < tw && 0 < s
  {
    forall k :: 0 <= k < |t| && lo <= k < hi && k % tw / s == x ==> t[k] == colour
  }

  /** `b` agrees with `a` on every cell outside the columns of block `x`. */
  predicate SameOffColumn(a: seq<Pixel>, b: seq<Pixel>, tw: int, s: int, x: int)
    requires 0 < tw && 0 < s
  {
    |b| == |a| && forall k :: 0 <= k < |a| && k % tw / s != x ==> b[k] == a[k]
  }

  /** Bands of later rows start later, and the band after the last row ends
      inside a target that holds the scaled image. */
  lemma {:induction false} BandMono(job: Job, len: int, y: int, y': int)
    requires ValidJob(job) && 0 <= y <= y'
    ensures 0 <= BandStart(job.scaler, job.w, y) <= BandStart(job.scaler, job.w, y')
    ensures TargetFits(job, len) && y' <= job.h ==> BandStart(job.scaler, job.w, y') <= len
  {
    var s, tw := Scale(job.scaler), job.w * Scale(job.scaler);
    Grid.MulMono(0, job.w, s);
    Grid.MulMono(0, y, s);
    Grid.MulMono(y, y', s);
    Grid.MulMono(0, s * y, tw);
    Grid.MulMono(s * y, s * y', tw);
    if y' <= job.h {
      Grid.MulMono(y', job.h, s);
      Grid.MulMono(s * y', job.h * s, tw);
    }
  }

  /** `k` between `a * d` and `(a + n) * d` has quotient in [a, a + n). */
  lemma {:induction false} DivBetween(k: int, d: int, a: int, n: int)
    requires 0 < d && a * d <= k < (a + n) * d
    ensures a <= k / d < a + n
  {
    var q := k / d;
    if q < a {
      Grid.MulMono(q + 1, a, d);
    }
    if q >= a + n {
      Grid.MulMono(a + n, q, d);
    }
  }

  /** In a target `w * s` wide, a cell of the block whose top-left is
      `a * (w*s) + s*x` lies in the `s` rows from `a` on, in the columns of
      block x. */
  lemma {:induction false} BandOfBlockCell(s: int, w: int, a: int, x: int, k: int)
    requires 0 < s && 0 <= x < w && 0 <= a
    requires InTargetBlock(k, a * (w * s) + s * x, w * s, s)
    ensures a * (w * s) <= k < (a + s) * (w * s)
    ensures k % (w * s) / s == x
  {
    var tw := w * s;
    var d := k - (a * tw + s * x);
    var q, m := d / tw, d % tw;
    Grid.MulMono(x + 1, w, s);
    Grid.MulMono(0, x, s);
    assert k == (a + q) * tw + (s * x + m);
    Grid.DivModUnique(k, tw, a + q, s * x + m);
    Grid.DivModUnique(s * x + m, s, x, m);
    Grid.MulMono(a, a + q, tw);
    Grid.MulMono(a + q + 1, a + s, tw);
  }

  /** A cell whose row lies in the `s` rows from `a` on is in the block at
      row `a` of the `s` columns that hold it. */
  lemma {:induction false} OffsetInBlock(k: int, tw: int, a: int, s: int)
    requires 0 < s <= tw && a <= k / tw < a + s
    ensures InTargetBlock(k, a * tw + s * (k % tw / s), tw, s)
  {
    var row, col := k / tw, k % tw;
    var x, c := col / s, col % s;
    assert k == row * tw + col;
    assert col == x * s + c;
    var d := k - (a * tw + s * x);
    ShiftSplit(row, col, tw, a, x, s, c);
    assert 0 <= c < s <= tw;
    Grid.DivModUnique(d, tw, row - a, c);
  }

  /** Moving the block origin `a * tw + s * x` out of a cell `row * tw + col`
      with `col == x * s + c` leaves `(row - a) * tw + c`. */
  lemma ShiftSplit(row: int, col: int, tw: int, a: int, x: int, s: int, c: int)
    requires col == x * s + c
    ensures row * tw + col - (a * tw + s * x) == (row - a) * tw + c
  {
    assert (row - a) * tw == row * tw - a * tw;
  }

  /** Conversely, a cell of those `s` rows lies in the block of the columns
      that hold it. */
  lemma {:induction false} BlockOfBandCell(s: int, w: int, a: int, k: int)
    requires 0 < s && 0 < w && a * (w * s) <= k < (a + s) * (w * s)
    ensures 0 <= k % (w * s) / s < w
    ensures InTargetBlock(k, a * (w * s) + s * (k % (w * s) / s), w * s, s)
  {
    var tw := w * s;
    DivBetween(k, tw, a, s);
    XbrzUtil.DivBounds(k % tw, w, s);
    Grid.MulMono(1, w, s);
    OffsetInBlock(k, tw, a, s);
  }

  /** A cell of pixel (x, y)'s block lies in row y's band, in the columns of
      pixel x. */
  lemma {:induction false} BlockCell(job: Job, k: int, x: int, y: int)
    requires ValidJob(job) && 0 <= x < job.w && 0 <= y
    requires InTargetBlock(k, PixelOrigin(job, x, y), TrgWidth(job), Scale(job.scaler))
    ensures BandStart(job.scaler, job.w, y) <= k < BandStart(job.scaler, job.w, y + 1)
    ensures k % TrgWidth(job) / Scale(job.scaler) == x
  {
    var s := Scale(job.scaler);
    Grid.MulMono(0, y, s);
    BandOfBlockCell(s, job.w, s * y, x, k);
    assert BandStart(job.scaler, job.w, y + 1) == (s * y + s) * (job.w * s);
  }

  /** Every cell of row y's band lies in the block of the pixel of row y
      whose columns hold it. */
  lemma {:induction false} CellBlock(job: Job, k: int, y: int)
    requires ValidJob(job) && 0 <= y
    requires BandStart(job.scaler, job.w, y) <= k < BandStart(job.scaler, job.w, y + 1)
    ensures 0 <= k % TrgWidth(job) / Scale(job.scaler) < job.w
    ensures InTargetBlock(k, PixelOrigin(job, k % TrgWidth(job) / Scale(job.scaler), y), TrgWidth(job), Scale(job.scaler))
  {
    var s := Scale(job.scaler);
    assert BandStart(job.scaler, job.w, y + 1) == (s * y + s) * (job.w * s);
    BlockOfBandCell(s, job.w, s * y, k);
  }

  /** Agreeing outside two ranges that lie in [lo, hi) composes. */
  lemma SameOutsideTrans(a: seq<Pixel>, b: seq<Pixel>, c: seq<Pixel>, lo: int, hi: int,
                         lo1: int, hi1: int, lo2: int, hi2: int)
    requires SameOutside(a, b, lo1, hi1) && SameOutside(b, c, lo2, hi2)
    requires lo <= lo1 && hi1 <= hi && lo <= lo2 && hi2 <= hi
    ensures SameOutside(a, c, lo, hi)
  {
  }

  /** Scanning pixel (x, y) writes only row y's band, and in it only the
      columns of pixel x. */
  lemma {:induction false} PixelFrame(job: Job, trg: seq<Pixel>, x: int, y: int)
    requires ValidJob(job) && TargetFits(job, |trg|) && 0 <= x < job.w && 0 <= y < job.h
    ensures SameOutside(trg, ProcessPixel(job, trg, x, y), BandStart(job.scaler, job.w, y), BandStart(job.scaler, job.w, y + 1))
    ensures SameOffColumn(trg, ProcessPixel(job, trg, x, y), TrgWidth(job), Scale(job.scaler), x)
  {
    ProcessPixelCells(job, trg, x, y);
    forall k | 0 <= k < |trg| ensures
      (k < BandStart(job.scaler, job.w, y) || BandStart(job.scaler, job.w, y + 1) <= k
       || k % TrgWidth(job) / Scale(job.scaler) != x)
      ==> ProcessPixel(job, trg, x, y)[k] == trg[k]
    {
      if InTargetBlock(k, PixelOrigin(job, x, y), TrgWidth(job), Scale(job.scaler)) {
        BlockCell(job, k, x, y);
      }
    }
  }

  /** Scanning one more pixel of a row is processing it on what the row
      held so far. */
  lemma RowStep(job: Job, trg: seq<Pixel>, y: int, x: int)
    requires ValidJob(job) && TargetFits(job, |trg|) && 0 <= y < job.h && 0 < x <= job.w
    ensures Row(job, trg, y, x) == ProcessPixel(job, Row(job, trg, y, x - 1), x - 1, y)
  {
  }

  /** Scanning the first `x` pixels of row `y` writes only row y's band. */
  lemma {:induction false} RowFrame(job: Job, trg: seq<Pixel>, y: int, x: int)
    requires ValidJob(job) && TargetFits(job, |trg|) && 0 <= y < job.h && 0 <= x <= job.w
    ensures SameOutside(trg, Row(job, trg, y, x), BandStart(job.scaler, job.w, y), BandStart(job.scaler, job.w, y + 1))
    decreases x
  {
    if x > 0 {
      var lo, hi := BandStart(job.scaler, job.w, y), BandStart(job.scaler, job.w, y + 1);
      var prev := Row(job, trg, y, x - 1);
      RowFrame(job, trg, y, x - 1);
      PixelFrame(job, prev, x - 1, y);
      RowStep(job, trg, y, x);
      SameOutsideTrans(trg, prev, Row(job, trg, y, x), lo, hi, lo, hi, lo, hi);
    }
  }

  /** Scanning rows [yFirst, y) writes only the target rows
      [s * yFirst, s * y): slices whose row ranges do not overlap write
      disjoint parts of the target. */
  lemma {:induction false} RowsFrame(job: Job, trg: seq<Pixel>, yFirst: int, y: int)
    requires ValidJob(job) && TargetFits(job, |trg|) && 0 <= yFirst <= y <= job.h
    ensures SameOutside(trg, Rows(job, trg, yFirst, y), BandStart(job.scaler, job.w, yFirst), BandStart(job.scaler, job.w, y))
    decreases y - yFirst
  {
    if y > yFirst {
      var prev := Rows(job, trg, yFirst, y - 1);
      RowsFrame(job, trg, yFirst, y - 1);
      RowFrame(job, prev, y - 1, job.w);
      BandMono(job, |trg|, yFirst, y - 1);
      BandMono(job, |trg|, y - 1, y);
      SameOutsideTrans(trg, prev, Rows(job, trg, yFirst, y),
                       BandStart(job.scaler, job.w, yFirst), BandStart(job.scaler, job.w, y),
                       BandStart(job.scaler, job.w, yFirst), BandStart(job.scaler, job.w, y - 1),
                       BandStart(job.scaler, job.w, y - 1), BandStart(job.scaler, job.w, y));
    }
  }

  /** Scanning [a, b) and then [b, c) is scanning [a, c): a slice can be
      scaled piece by piece. */
  lemma {:induction false} RowsSplit(job: Job, trg: seq<Pixel>, a: int, b: int, c: int)
    requires ValidJob(job) && TargetFits(job, |trg|) && 0 <= a <= b <= c <= job.h
    ensures Rows(job, Rows(job, trg, a, b), b, c) == Rows(job, trg, a, c)
    decreases c - b
  {
    if c > b {
      RowsSplit(job, trg, a, b, c - 1);
    }
  }

  /** A source of one colour classifies no corner, so every pixel's record
      is empty. */
  lemma {:induction false} UniformNoBlend(job: Job, colour: Pixel, x: int, y: int)
    requires ValidJob(job)
    requires forall v, u :: 0 <= v < job.h && 0 <= u < job.w ==> job.src[v][u] == colour
    ensures BlendAt(job, x, y) == 0
  {
    forall u, v ensures Px(job, u, v) == colour {
      assert job.src[Clamp(v, job.h)][Clamp(u, job.w)] == colour;
    }
    forall u, v ensures Corner(job, u, v) == NoBlend {
      assert Flat(Kernel4At(job, u, v));
    }
    PackNone();
  }

  /** With a source of one colour, scanning pixel (x, y) paints its
      columns of row y's band with that colour. */
  lemma {:induction false} PixelUniform(job: Job, trg: seq<Pixel>, colour: Pixel, x: int, y: int)
    requires ValidJob(job) && TargetFits(job, |trg|) && 0 <= x < job.w && 0 <= y < job.h
    requires forall v, u :: 0 <= v < job.h && 0 <= u < job.w ==> job.src[v][u] == colour
    ensures 0 <= BandStart(job.scaler, job.w, y) && BandStart(job.scaler, job.w, y + 1) <= |trg|
    ensures ColumnPainted(ProcessPixel(job, trg, x, y), colour, BandStart(job.scaler, job.w, y),
                          BandStart(job.scaler, job.w, y + 1), TrgWidth(job), Scale(job.scaler), x)
  {
    BandMono(job, |trg|, y, y + 1);
    UniformNoBlend(job, colour, x, y);
    ProcessPixelCells(job, trg, x, y);
    assert Px(job, x, y) == colour by {
      assert job.src[Clamp(y, job.h)][Clamp(x, job.w)] == colour;
    }
    forall k | BandStart(job.scaler, job.w, y) <= k < BandStart(job.scaler, job.w, y + 1)
               && k % TrgWidth(job) / Scale(job.scaler) == x
      ensures ProcessPixel(job, trg, x, y)[k] == colour
    {
      CellBlock(job, k, y);
    }
  }

  /** Painting column `x - 1` of a band whose columns before it are
      painted, and touching nothing else, paints the first `x` columns. */
  lemma ColumnsStep(prev: seq<Pixel>, cur: seq<Pixel>, colour: Pixel, lo: int, hi: int, tw: int, s: int, x: int)
    requires 0 < tw && 0 < s
    ensures Painted(prev, colour, lo, hi, tw, s, x - 1) && SameOffColumn(prev, cur, tw, s, x - 1)
            && ColumnPainted(cur, colour, lo, hi, tw, s, x - 1)
            ==> Painted(cur, colour, lo, hi, tw, s, x)
  {
  }

  /** Scanning pixel x - 1 of row y leaves every cell outside its columns as
      it was. */
  lemma RowPixelFrame(job: Job, trg: seq<Pixel>, y: int, x: int)
    requires ValidJob(job) && TargetFits(job, |trg|) && 0 <= y < job.h && 0 < x <= job.w
    ensures SameOffColumn(Row(job, trg, y, x - 1), Row(job, trg, y, x), TrgWidth(job), Scale(job.scaler), x - 1)
  {
    PixelFrame(job, Row(job, trg, y, x - 1), x - 1, y);
    RowStep(job, trg, y, x);
  }

  /** With a source of one colour, scanning pixel x - 1 of row y paints its
      columns of the band. */
  lemma RowPixelUniform(job: Job, trg: seq<Pixel>, colour: Pixel, y: int, x: int)
    requires ValidJob(job) && TargetFits(job, |trg|) && 0 <= y < job.h && 0 < x <= job.w
    requires forall v, u :: 0 <= v < job.h && 0 <= u < job.w ==> job.src[v][u] == colour
    ensures ColumnPainted(Row(job, trg, y, x), colour, BandStart(job.scaler, job.w, y), BandStart(job.scaler, job.w, y + 1),
                          TrgWidth(job), Scale(job.scaler), x - 1)
  {
    PixelUniform(job, Row(job, trg, y, x - 1), colour, x - 1, y);
    RowStep(job, trg, y, x);
  }

  /** With a source of one colour, the cells of row y's band in the columns
      of the first `x` pixels all take that colour. */
  lemma {:induction false} UniformRow(job: Job, trg: seq<Pixel>, colour: Pixel, y: int, x: int)
    requires ValidJob(job) && TargetFits(job, |trg|) && 0 <= y < job.h && 0 <= x <= job.w
    requires forall v, u :: 0 <= v < job.h && 0 <= u < job.w ==> job.src[v][u] == colour
    ensures Painted(Row(job, trg, y, x), colour, BandStart(job.scaler, job.w, y), BandStart(job.scaler, job.w, y + 1),
                    TrgWidth(job), Scale(job.scaler), x)
    decreases x
  {
    if x > 0 {
      UniformRow(job, trg, colour, y, x - 1);
      RowPixelFrame(job, trg, y, x);
      RowPixelUniform(job, trg, colour, y, x);
      ColumnsStep(Row(job, trg, y, x - 1), Row(job, trg, y, x), colour, BandStart(job.scaler, job.w, y),
                  BandStart(job.scaler, job.w, y + 1), TrgWidth(job), Scale(job.scaler), x);
    }
  }

  /** With a source of one colour, scanning rows [0, y) paints the first y
      bands with that colour. */
  lemma {:induction false} UniformRows(job: Job, trg: seq<Pixel>, colour: Pixel, y: int)
    requires ValidJob(job) && TargetFits(job, |trg|) && 0 <= y <= job.h
    requires forall v, u :: 0 <= v < job.h && 0 <= u < job.w ==> job.src[v][u] == colour
    ensures BandStart(job.scaler, job.w, y) <= |trg|
    ensures forall k :: 0 <= k < BandStart(job.scaler, job.w, y) ==> Rows(job, trg, 0, y)[k] == colour
    decreases y
  {
    BandMono(job, |trg|, 0, y);
    if y > 0 {
      BandMono(job, |trg|, 0, y - 1);
      var prev := Rows(job, trg, 0, y - 1);
      UniformRows(job, trg, colour, y - 1);
      RowFrame(job, prev, y - 1, job.w);
      UniformRow(job, prev, colour, y - 1, job.w);
      forall k | BandStart(job.scaler, job.w, y - 1) <= k < BandStart(job.scaler, job.w, y)
        ensures Rows(job, trg, 0, y)[k] == colour
      {
        CellBlock(job, k, y - 1);
      }
    }
  }

  /** A source of one colour scales to a target of that colour: every cell
      of the `(w*s) x (h*s)` image takes it. */
  lemma UniformStaysUniform(job: Job, trg: seq<Pixel>, colour: Pixel)
    requires ValidJob(job) && TargetFits(job, |trg|)
    requires forall v, u :: 0 <= v < job.h && 0 <= u < job.w ==> job.src[v][u] == colour
    ensures forall k :: 0 <= k < TrgWidth(job) * (job.h * Scale(job.scaler)) ==> Rows(job, trg, 0, job.h)[k] == colour
  {
    UniformRows(job, trg, colour, job.h);
    assert BandStart(job.scaler, job.w, job.h) == TrgWidth(job) * (job.h * Scale(job.scaler));
  }

  /** The same for the row-major source `scaleImage` reads: `w * h` pixels
      of one colour scale to `(w*s) * (h*s)` target cells of that colour. */
  lemma UniformSourceScales(scaler: Scaler, metric: Metric, cfg: Config, src: seq<Pixel>, trg: seq<Pixel>,
                            w: int, h: int, colour: Pixel)
    requires 0 < w && 0 < h && w * h <= |src| && TargetFits(Job([], w, h, scaler, metric, cfg), |trg|)
    requires forall i :: 0 <= i < w * h ==> src[i] == colour
    ensures forall k :: 0 <= k < (w * Scale(scaler)) * (h * Scale(scaler)) ==>
      Rows(Job(SourceRows(src, w, h), w, h, scaler, metric, cfg), trg, 0, h)[k] == colour
  {
    var job := Job(SourceRows(src, w, h), w, h, scaler, metric, cfg);
    SourceRowsCells(src, w, h);
    forall v, u | 0 <= v < job.h && 0 <= u < job.w ensures job.src[v][u] == colour {
      Grid.IdxInRange(w, h, u, v);
    }
    UniformStaysUniform(job, trg, colour);
  }

  // ---------------------------------------------------------------------
  // The scan with its carried corner records

  /** Whether the clamped slice [max(yFirst, 0), min(yLast, h)) of a source
      `w` wide is scanned at all. */
  predicate Scanned(w: int, h: int, yFirst: int, yLast: int)
  {
    Max(yFirst, 0) < Min(yLast, h) && w > 0
  }

  /** `scaleImage(src, trg, srcWidth, srcHeight, yFirst, yLast)`. Each
      corner is classified once, when the scan is at its top-left pixel, and
      OR-set into the records of the four pixels sharing it: `blendXY` for
      the current pixel, `blendXY1` for the pixel below and right of it, and
      `preProcBuffer` for the rest of this row and the next. The result is
      the fold that computes every pixel's corners directly. */
  method ScaleImage(scaler: Scaler, metric: Metric, cfg: Config, src: seq<Pixel>, trg: seq<Pixel>,
                    srcWidth: int, srcHeight: int, yFirst: int, yLast: int) returns (r: seq<Pixel>)
    requires Scanned(srcWidth, srcHeight, yFirst, yLast) ==>
      srcWidth * srcHeight <= |src| && TargetFits(Job([], srcWidth, srcHeight, scaler, metric, cfg), |trg|)
    ensures |r| == |trg|
    ensures !Scanned(srcWidth, srcHeight, yFirst, yLast) ==> r == trg
    ensures Scanned(srcWidth, srcHeight, yFirst, yLast) ==>
      r == Rows(Job(SourceRows(src, srcWidth, srcHeight), srcWidth, srcHeight, scaler, metric, cfg),
                trg, Max(yFirst, 0), Min(yLast, srcHeight))
    ensures SameOutside(trg, r, BandStart(scaler, srcWidth, Max(yFirst, 0)), BandStart(scaler, srcWidth, Min(yLast, srcHeight)))
  {
    var yF := Max(yFirst, 0);
    var yL := Min(yLast, srcHeight);
    if yF >= yL || srcWidth <= 0 {
      return trg;
    }
    var job := Job(SourceRows(src, srcWidth, srcHeight), srcWidth, srcHeight, scaler, metric, cfg);
    r := ScanRows(job, trg, yF, yL);
    RowsFrame(job, trg, yF, yL);
  }

  /** The row loop of `scaleImage` over the clamped, non-empty slice
      [yFirst, yLast). */
  method ScanRows(job: Job, trg: seq<Pixel>, yFirst: int, yLast: int) returns (r: seq<Pixel>)
    requires ValidJob(job) && TargetFits(job, |trg|) && 0 <= yFirst < yLast <= job.h
    ensures r == Rows(job, trg, yFirst, yLast)
  {
    var preProcBuffer := FirstRowBuffer(job, yFirst);
    r := trg;
    var y := yFirst;
    while y != yLast
      invariant yFirst <= y <= yLast
      decreases yLast - y
      invariant r == Rows(job, trg, yFirst, y)
      invariant RowBuffer(job, preProcBuffer, y)
    {
      r, preProcBuffer := ScanRow(job, r, y, preProcBuffer);
      y := y + 1;
    }
  }

  /** The record of pixel (x, y) before the scan reaches it: its two top
      corners. */
  function Above(job: Job, x: int, y: int): Info
    requires ValidJob(job)
  {
    Pack(TopL(job, x, y), TopR(job, x, y), BLEND_NONE, BLEND_NONE)
  }

  /** The record of pixel (x, y) once its left neighbour is scanned. */
  function AllButBottomR(job: Job, x: int, y: int): Info
    requires ValidJob(job)
  {
    Pack(TopL(job, x, y), TopR(job, x, y), BLEND_NONE, BottomL(job, x, y))
  }

  /** The record of pixel (x, y) holding only its top-left corner. */
  function OnlyTopL(job: Job, x: int, y: int): Info
    requires ValidJob(job)
  {
    Pack(TopL(job, x, y), BLEND_NONE, BLEND_NONE, BLEND_NONE)
  }

  /** `preProcBuffer` at the start of row `y`: the top corners of every
      pixel of the row. */
  predicate RowBuffer(job: Job, buf: seq<Info>, y: int)
    requires ValidJob(job)
  {
    buf == seq(job.w, x => Above(job, x, y))
  }

  /** The records on the image's top and left edges start empty. */
  lemma EdgeRecords(job: Job, x: int, y: int)
    requires ValidJob(job)
    ensures OnlyTopL(job, 0, y) == 0
    ensures Above(job, x, 0) == 0
    ensures AllButBottomR(job, 0, y) == Above(job, 0, y)
  {
    PackNone();
  }

  /** OR-setting the corner below-right of (x, y) into the four records
      sharing it fills a lane that is still none in each, so it acts as an
      assignment: F completes (x, y); J is the second corner of (x, y + 1);
      K starts (x + 1, y + 1); G is the third corner of (x + 1, y). */
  lemma CornerLanes(job: Job, x: int, y: int)
    requires ValidJob(job)
    ensures SetBottomR(AllButBottomR(job, x, y), Corner(job, x, y).f) == BlendAt(job, x, y)
    ensures SetTopR(OnlyTopL(job, x, y + 1), Corner(job, x, y).j) == Above(job, x, y + 1)
    ensures SetTopL(0, Corner(job, x, y).k) == OnlyTopL(job, x + 1, y + 1)
    ensures SetBottomL(Above(job, x + 1, y), Corner(job, x, y).g) == AllButBottomR(job, x + 1, y)
  {
    var c := Corner(job, x, y);
    SetIntoPacked(TopL(job, x, y), TopR(job, x, y), 0, BottomL(job, x, y), c.f);
    SetIntoPacked(TopL(job, x, y + 1), 0, 0, 0, c.j);
    SetIntoPacked(0, 0, 0, 0, c.k);
    PackNone();
    SetIntoPacked(TopL(job, x + 1, y), TopR(job, x + 1, y), 0, 0, c.g);
  }

  /** The part of `scaleImage` before the row loop: `preProcBuffer` starts
      empty, and when the slice does not start at the top, the corners below
      row `yFirst - 1` are classified to give row `yFirst` its top corners. */
  method FirstRowBuffer(job: Job, yFirst: int) returns (buf: seq<Info>)
    requires ValidJob(job) && 0 <= yFirst
    ensures RowBuffer(job, buf, yFirst)
  {
    buf := seq(job.w, _ => 0 as bv16);
    if yFirst > 0 {
      var x := 0;
      EdgeRecords(job, 0, yFirst);
      while x != job.w
        invariant 0 <= x <= job.w
        invariant Primed(job, yFirst, x, buf)
        decreases job.w - x
      {
        buf := PrimeStep(job, yFirst, x, buf);
        x := x + 1;
      }
    } else {
      forall x | 0 <= x < job.w
        ensures buf[x] == Above(job, x, yFirst)
      {
        EdgeRecords(job, x, yFirst);
      }
    }
  }

  /** The buffer once the corners below the first `x` pixels of row
      `yFirst - 1` are classified: the pixels before `x` have both top
      corners, pixel `x` its top-left one, the rest none. */
  predicate Primed(job: Job, yFirst: int, x: int, buf: seq<Info>)
    requires ValidJob(job) && 0 <= x <= job.w
  {
    && |buf| == job.w
    && (forall x' :: 0 <= x' < x ==> buf[x'] == Above(job, x', yFirst))
    && (x < job.w ==> buf[x] == OnlyTopL(job, x, yFirst))
    && (forall x' :: x < x' < job.w ==> buf[x'] == 0)
  }

  /** One step of the loop before the row loop: the corner below-right of
      (x, yFirst - 1) gives pixel x its top-right and pixel x + 1 its
      top-left corner. */
  method PrimeStep(job: Job, yFirst: int, x: int, buf: seq<Info>) returns (buf': seq<Info>)
    requires ValidJob(job) && 0 < yFirst && 0 <= x < job.w
    requires Primed(job, yFirst, x, buf)
    ensures Primed(job, yFirst, x + 1, buf')
  {
    var res := Corner(job, x, yFirst - 1);
    PrimeLanes(job, x, yFirst);
    buf' := buf[x := SetTopR(buf[x], res.j)];
    assert buf'[x] == Above(job, x, yFirst);
    if x + 1 < job.w {
      buf' := buf'[x + 1 := SetTopL(buf'[x + 1], res.k)];
      assert buf'[x + 1] == OnlyTopL(job, x + 1, yFirst);
    }
  }

  /** The two lanes a priming step sets, from the corner above-left. */
  lemma PrimeLanes(job: Job, x: int, yFirst: int)
    requires ValidJob(job) && 0 < yFirst
    ensures SetTopR(OnlyTopL(job, x, yFirst), Corner(job, x, yFirst - 1).j) == Above(job, x, yFirst)
    ensures SetTopL(0, Corner(job, x, yFirst - 1).k) == OnlyTopL(job, x + 1, yFirst)
  {
    CornerLanes(job, x, yFirst - 1);
  }

  /** One row of the scan, the inner loop of `scaleImage`. On entry the
      buffer holds the top corners of the row's pixels; on exit those of the
      next row. */
  method ScanRow(job: Job, trg: seq<Pixel>, y: int, preProcBuffer: seq<Info>) returns (r: seq<Pixel>, buf: seq<Info>)
    requires ValidJob(job) && TargetFits(job, |trg|) && 0 <= y < job.h
    requires RowBuffer(job, preProcBuffer, y)
    ensures RowScanned(job, trg, y, r)
    ensures RowBuffer(job, buf, y + 1)
  {
    var trgi := Scale(job.scaler) * y * TrgWidth(job);
    var blendXY1: Info := 0;
    OriginStep(job, 0, y);
    EdgeRecords(job, 0, y + 1);
    EdgeRecords(job, 0, y);
    buf := preProcBuffer;
    r := trg;
    var x := 0;
    while x != job.w
      invariant 0 <= x <= job.w
      invariant InRow(job, trg, y, x, r, buf, blendXY1, trgi)
      decreases job.w - x
    {
      r, buf, blendXY1, trgi := ScanPixel(job, trg, y, x, r, buf, blendXY1, trgi);
      x := x + 1;
    }
  }

  /** `r` is `trg` with the whole of row `y` scanned. */
  predicate RowScanned(job: Job, trg: seq<Pixel>, y: int, r: seq<Pixel>)
    requires ValidJob(job) && TargetFits(job, |trg|) && 0 <= y < job.h
  {
    r == Row(job, trg, y, job.w)
  }

  /** The state of the inner loop of `scaleImage` before pixel (x, y): the
      first `x` pixels are scanned, `trgi` is the origin of the next block,
      and the records are carried as `Carried` says. */
  predicate InRow(job: Job, trg: seq<Pixel>, y: int, x: int, r: seq<Pixel>, buf: seq<Info>, blendXY1: Info, trgi: int)
    requires ValidJob(job) && TargetFits(job, |trg|) && 0 <= y < job.h && 0 <= x <= job.w
  {
    && r == Row(job, trg, y, x)
    && trgi == PixelOrigin(job, x, y)
    && Carried(job, y, x, buf, blendXY1)
  }

  /** The corner records before pixel (x, y) is scanned: the buffer holds
      the top corners of the next row up to `x`, those of this row from `x`
      on, with the bottom-left corner of pixel `x` added, and `blendXY1` the
      top-left corner of (x, y + 1). */
  predicate Carried(job: Job, y: int, x: int, buf: seq<Info>, blendXY1: Info)
    requires ValidJob(job) && 0 <= x <= job.w
  {
    && |buf| == job.w
    && (forall x' :: 0 <= x' < x ==> buf[x'] == Above(job, x', y + 1))
    && (x < job.w ==> buf[x] == AllButBottomR(job, x, y))
    && (forall x' :: x < x' < job.w ==> buf[x'] == Above(job, x', y))
    && blendXY1 == OnlyTopL(job, x, y + 1)
  }

  /** One step of the inner loop of `scaleImage`, at pixel (x, y): the
      corner below-right of it is classified and handed on, then the pixel's
      block is written. */
  method ScanPixel(job: Job, trg: seq<Pixel>, y: int, x: int, r: seq<Pixel>, buf: seq<Info>, blendXY1: Info, trgi: int)
      returns (r': seq<Pixel>, buf': seq<Info>, blendXY1': Info, trgi': int)
    requires ValidJob(job) && TargetFits(job, |trg|) && 0 <= y < job.h && 0 <= x < job.w
    requires InRow(job, trg, y, x, r, buf, blendXY1, trgi)
    ensures InRow(job, trg, y, x + 1, r', buf', blendXY1', trgi')
  {
    var blendXY;
    blendXY, buf', blendXY1' := CarryCorner(job, y, x, buf, blendXY1);
    PixelBlockFitsTarget(job, |r|, x, y);
    r' := BlendBlock(job.scaler, r, trgi, TrgWidth(job), Px(job, x, y), blendXY, Kernel3At(job, x, y), job.metric, job.cfg);
    OriginStep(job, x + 1, y);
    trgi' := trgi + Scale(job.scaler);
  }

  /** The record keeping of one step: the corner below-right of (x, y) is
      classified and OR-set into the records of the four pixels sharing it,
      which completes the record of (x, y). */
  method CarryCorner(job: Job, y: int, x: int, buf: seq<Info>, blendXY1: Info)
      returns (blendXY: Info, buf': seq<Info>, blendXY1': Info)
    requires ValidJob(job) && 0 <= x < job.w
    requires Carried(job, y, x, buf, blendXY1)
    ensures blendXY == BlendAt(job, x, y)
    ensures Carried(job, y, x + 1, buf', blendXY1')
  {
    var res := Corner(job, x, y);
    CornerLanes(job, x, y);
    // all four corners of (x, y) are known now
    blendXY := SetBottomR(buf[x], res.f);
    // the second corner of (x, y + 1), kept for the next row
    buf' := buf[x := SetTopR(blendXY1, res.j)];
    // the first corner of (x + 1, y + 1)
    blendXY1' := SetTopL(0, res.k);
    // the third corner of (x + 1, y)
    if x + 1 < job.w {
      buf' := buf'[x + 1 := SetBottomL(buf'[x + 1], res.g)];
    }
  }

  /** The blocks of a row lie `s` cells apart, starting `s * y` target rows
      down. */
  lemma OriginStep(job: Job, x: int, y: int)
    ensures PixelOrigin(job, x, y) == PixelOrigin(job, x - 1, y) + Scale(job.scaler)
    ensures PixelOrigin(job, 0, y) == Scale(job.scaler) * y * TrgWidth(job)
  {
  }

  /** The record with all four lanes none is zero. */
  lemma PackNone()
    ensures Pack(0, 0, 0, 0) == 0
  {
  }
}
