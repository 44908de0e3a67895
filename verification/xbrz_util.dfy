/*
 * Colour helpers of the xBRZ scaler: channel extraction, the integer
 * weighted blend `alphaBlend`, the channel differences the colour metric
 * starts from, and the identity case of the colour distance.
 */
module XbrzUtil {
  import opened Common
  import Grid

  /** Place value of the lowest bit of each colour channel: `RED_MASK` is
      `0xff * RED`, `GREEN_MASK` is `0xff * GREEN`, `BLUE_MASK` is `0xff * BLUE`. */
  const RED: nat := 0x10000
  const GREEN: nat := 0x100
  const BLUE: nat := 0x1

  predicate IsChannel(unit: nat) { unit == RED || unit == GREEN || unit == BLUE }

  /** The 8-bit value of the channel whose lowest bit is worth `unit`. */
  function Chan(p: int, unit: nat): (c: nat)
    requires unit > 0
    ensures c < 256
  {
    p / unit % 256
  }

  function Red(p: Pixel): nat { Chan(p, RED) }
  function Green(p: Pixel): nat { Chan(p, GREEN) }
  function Blue(p: Pixel): nat { Chan(p, BLUE) }
  function Alpha(p: Pixel): nat { p / 0x100_0000 }

  /** `v & mask` for a non-negative `v` and the mask `0xff * unit`. */
  function Mask(v: int, unit: nat): int
    requires unit > 0
  {
    Chan(v, unit) * unit
  }

  // ---------------------------------------------------------------------
  // Arithmetic helpers

  /** Bounds on `a / m` from bounds on `a`. */
  lemma {:induction false} DivBounds(a: int, b: int, m: int)
    requires m > 0
    ensures a <= b * m ==> a / m <= b
    ensures a < b * m ==> a / m < b
    ensures a >= b * m ==> a / m >= b
  {
    var q := a / m;
    assert q * m <= a < q * m + m;
    Grid.MulAwayFromZero(q - b, m);
    assert (q - b) * m == q * m - b * m;
  }

  /** Scaling every term of a weighted sum by `unit` scales the sum. */
  lemma {:induction false} ScaledSum(c: int, d: int, n: int, k: int, unit: int)
    ensures (c * unit) * n + (d * unit) * k == (c * n + d * k) * unit
  {
  }

  /** Dividing twice is dividing by the product. */
  lemma {:induction false} DivDiv(a: int, b: int, c: int)
    requires b > 0 && c > 0
    ensures (a / b) / c == a / (b * c)
  {
    var q1 := a / b;
    var r1 := a % b;
    var q2 := q1 / c;
    var r2 := q1 % c;
    assert a == q2 * (b * c) + (r2 * b + r1) by {
      assert a == q1 * b + r1;
      assert q1 == q2 * c + r2;
      assert q1 * b == q2 * (b * c) + r2 * b;
    }
    assert r2 * b <= b * c - b by {
      Grid.MulMono(r2, c - 1, b);
    }
    assert 0 <= r2 * b;
    Grid.DivModUnique(a, b * c, q2, r2 * b + r1);
  }

  /** A common factor cancels: (x*u)/(m*u) == x/m. */
  lemma {:induction false} DivCancel(x: int, u: int, m: int)
    requires u > 0 && m > 0
    ensures (x * u) / (m * u) == x / m
  {
    var q := x / m;
    var r := x % m;
    assert x * u == q * (m * u) + r * u by {
      assert x == q * m + r;
    }
    assert r * u <= m * u - u by {
      Grid.MulMono(r, m - 1, u);
    }
    assert 0 <= r * u;
    Grid.DivModUnique(x * u, m * u, q, r * u);
  }

  /** floor(floor(x*unit/m)/unit) == floor(x/m). */
  lemma {:induction false} DivScaled(x: int, unit: int, m: int)
    requires unit > 0 && m > 0
    ensures (x * unit / m) / unit == x / m
  {
    DivDiv(x * unit, m, unit);
    DivCancel(x, unit, m);
  }

  // ---------------------------------------------------------------------
  // blendComponent / alphaBlend

  /** The weighted average of two channel values, rounded down:
      floor((c * n + d * (m - n)) / m). */
  function WeightedChannel(c: int, d: int, n: int, m: int): int
    requires m > 0
  {
    (c * n + d * (m - n)) / m
  }

  /** A weighted average lies between the two values it averages. */
  lemma {:induction false} WeightedChannelBetween(c: int, d: int, n: int, m: int)
    requires 0 < n < m
    ensures Min(c, d) <= WeightedChannel(c, d, n, m) <= Max(c, d)
    ensures c == d ==> WeightedChannel(c, d, n, m) == c
  {
    var x := c * n + d * (m - n);
    var lo := Min(c, d);
    var hi := Max(c, d);
    SumBetween(c, d, lo, hi, n, m - n);
    DivBounds(x, lo, m);
    DivBounds(x, hi, m);
  }

  lemma {:induction false} SumBetween(c: int, d: int, lo: int, hi: int, n: int, k: int)
    requires lo <= c <= hi && lo <= d <= hi && 0 <= n && 0 <= k
    ensures lo * (n + k) <= c * n + d * k <= hi * (n + k)
  {
    Grid.MulMono(lo, c, n);
    Grid.MulMono(c, hi, n);
    Grid.MulMono(lo, d, k);
    Grid.MulMono(d, hi, k);
  }

  /** The red-channel intermediate `(col & RED_MASK) * n + (dst & RED_MASK) * (m - n)`
      is at most `0xff0000 * m`, and that bound fits a signed 32-bit `int`
      exactly when m <= 128. */
  lemma {:induction false} RedIntermediateBound(dst: Pixel, col: Pixel, n: int, m: int)
    requires 0 < n < m
    ensures 0 <= Mask(col, RED) * n + Mask(dst, RED) * (m - n) <= 0xff0000 * m
    ensures 0xff0000 * m <= 0x7fff_ffff <==> m <= 128
  {
    SumBetween(Mask(col, RED), Mask(dst, RED), 0, 0xff0000, n, m - n);
  }

  /** `blendComponent(mask, n, m, inPixel, setPixel)`: one channel of the
      blend, still at its place in the packed word. The source computes on the
      masked (shifted) channel values; the result equals the weighted average
      of the plain 8-bit channels, put back in place. */
  function BlendComponent(unit: nat, n: int, m: int, inPixel: Pixel, setPixel: Pixel): (r: int)
    requires IsChannel(unit)
    requires 0 < n < m < 256
    ensures r == WeightedChannel(Chan(setPixel, unit), Chan(inPixel, unit), n, m) * unit
  {
    var inChan := Mask(inPixel, unit);
    var setChan := Mask(setPixel, unit);
    var blend := setChan * n + inChan * (m - n);
    BlendComponentValue(unit, n, m, inPixel, setPixel);
    Mask(blend / m, unit)
  }

  lemma {:induction false} BlendComponentValue(unit: nat, n: int, m: int, inPixel: Pixel, setPixel: Pixel)
    requires IsChannel(unit)
    requires 0 < n < m
    ensures Mask((Mask(setPixel, unit) * n + Mask(inPixel, unit) * (m - n)) / m, unit)
         == WeightedChannel(Chan(setPixel, unit), Chan(inPixel, unit), n, m) * unit
  {
    var c := Chan(setPixel, unit);
    var d := Chan(inPixel, unit);
    var x := c * n + d * (m - n);
    ScaledSum(c, d, n, m - n, unit);
    WeightedChannelBetween(c, d, n, m);
    MaskScaledQuotient(x, unit, m);
  }

  /** Masking `floor(x*unit/m)` keeps `floor(x/m)*unit` when that quotient
      is a channel value. */
  lemma {:induction false} MaskScaledQuotient(x: int, unit: nat, m: int)
    requires unit > 0 && m > 0 && 0 <= x / m < 256
    ensures Mask(x * unit / m, unit) == (x / m) * unit
  {
    DivScaled(x, unit, m);
  }

  /** The packed word of the given channels. The three blended channels
      occupy disjoint bytes, so the source's `|` of them is their sum. */
  function Argb(a: int, r: int, g: int, b: int): (p: Pixel)
    requires 0 <= a < 256 && 0 <= r < 256 && 0 <= g < 256 && 0 <= b < 256
    ensures Alpha(p) == a && Red(p) == r && Green(p) == g && Blue(p) == b
  {
    var p := a * 0x100_0000 + r * RED + g * GREEN + b * BLUE;
    Grid.DivModUnique(p, RED, a * 0x100 + r, g * GREEN + b);
    Grid.DivModUnique(a * 0x100 + r, 256, a, r);
    Grid.DivModUnique(p, GREEN, a * 0x10000 + r * 0x100 + g, b);
    Grid.DivModUnique(a * 0x10000 + r * 0x100 + g, 256, a * 0x100 + r, g);
    Grid.DivModUnique(p, 256, a * 0x10000 + r * 0x100 + g, b);
    Grid.DivModUnique(p, 0x100_0000, a, r * RED + g * GREEN + b);
    p
  }

  /** `alphaBlend(n, m, dst, col)`: blends `n/m` of `col` into `dst` channel by
      channel and stores the result fully opaque, for every weight its
      assertions admit. Computed without the 32-bit wrap-around of the
      source, this is the blend the source intends; the two agree whenever
      m <= 128. */
  function AlphaBlend(n: int, m: int, dst: Pixel, col: Pixel): (r: Pixel)
    requires 0 < n < m < 256
    ensures Alpha(r) == 0xff
    ensures Red(r) == WeightedChannel(Red(col), Red(dst), n, m)
    ensures Green(r) == WeightedChannel(Green(col), Green(dst), n, m)
    ensures Blue(r) == WeightedChannel(Blue(col), Blue(dst), n, m)
  {
    var redComponent := BlendComponent(RED, n, m, dst, col);
    var greenComponent := BlendComponent(GREEN, n, m, dst, col);
    var blueComponent := BlendComponent(BLUE, n, m, dst, col);
    WeightedChannelBetween(Red(col), Red(dst), n, m);
    WeightedChannelBetween(Green(col), Green(dst), n, m);
    WeightedChannelBetween(Blue(col), Blue(dst), n, m);
    Argb(0xff, redComponent / RED, greenComponent / GREEN, blueComponent / BLUE)
  }

  /** Each blended channel lies between the two input channels, and blending
      a colour into a destination with the same RGB keeps that RGB. */
  lemma AlphaBlendBetween(n: int, m: int, dst: Pixel, col: Pixel)
    requires 0 < n < m < 256
    ensures Min(Red(col), Red(dst)) <= Red(AlphaBlend(n, m, dst, col)) <= Max(Red(col), Red(dst))
    ensures Min(Green(col), Green(dst)) <= Green(AlphaBlend(n, m, dst, col)) <= Max(Green(col), Green(dst))
    ensures Min(Blue(col), Blue(dst)) <= Blue(AlphaBlend(n, m, dst, col)) <= Max(Blue(col), Blue(dst))
    ensures Red(col) == Red(dst) && Green(col) == Green(dst) && Blue(col) == Blue(dst) ==>
      Red(AlphaBlend(n, m, dst, col)) == Red(dst) && Green(AlphaBlend(n, m, dst, col)) == Green(dst)
      && Blue(AlphaBlend(n, m, dst, col)) == Blue(dst)
  {
    WeightedChannelBetween(Red(col), Red(dst), n, m);
    WeightedChannelBetween(Green(col), Green(dst), n, m);
    WeightedChannelBetween(Blue(col), Blue(dst), n, m);
  }

  // ---------------------------------------------------------------------
  // alphaBlend exactly as the 32-bit Java code computes it

  /** `blendComponent` with 32-bit arithmetic, admitting every weight that
      the assertions in `alphaBlend` admit (0 < n < m < 256). The final mask
      reads the two's-complement bits of the quotient. */
  function BlendComponentAsWritten(unit: nat, n: int, m: int, inPixel: Pixel, setPixel: Pixel): int
    requires IsChannel(unit)
    requires 0 < n < m < 256
  {
    var inChan := Mask(inPixel, unit);
    var setChan := Mask(setPixel, unit);
    var blend := Wrap32(Wrap32(setChan * n) + Wrap32(inChan * (m - n)));
    Mask(JavaDiv(blend, m) % 0x1_0000_0000, unit)
  }

  /** For the weights every pattern uses (m <= 128) the 32-bit computation
      never wraps and agrees with `BlendComponent`. */
  lemma {:induction false} BlendComponentAsWrittenAgrees(unit: nat, n: int, m: int, inPixel: Pixel, setPixel: Pixel)
    requires IsChannel(unit)
    requires 0 < n < m <= 128
    ensures BlendComponentAsWritten(unit, n, m, inPixel, setPixel) == BlendComponent(unit, n, m, inPixel, setPixel)
  {
    var inChan := Mask(inPixel, unit);
    var setChan := Mask(setPixel, unit);
    Grid.MulMono(Chan(inPixel, unit), 255, unit);
    Grid.MulMono(Chan(setPixel, unit), 255, unit);
    Grid.MulMono(unit, RED, 255);
    NoWrap(setChan, inChan, n, m);
  }

  /** With both masked channels at most `0xff0000` and m <= 128 no
      intermediate of `blendComponent` leaves the signed 32-bit range. */
  lemma {:induction false} NoWrap(a: int, b: int, n: int, m: int)
    requires 0 <= a <= 0xff0000 && 0 <= b <= 0xff0000 && 0 < n < m <= 128
    ensures Wrap32(Wrap32(a * n) + Wrap32(b * (m - n))) == a * n + b * (m - n)
    ensures JavaDiv(a * n + b * (m - n), m) % 0x1_0000_0000 == (a * n + b * (m - n)) / m
  {
    SumBetween(a, b, 0, 0xff0000, n, m - n);
    Grid.MulMono(m, 128, 0xff0000);
    var x := a * n + b * (m - n);
    Grid.MulMono(0, a, n);
    Grid.MulMono(0, b, m - n);
    assert 0 <= a * n <= x < 0x8000_0000;
    DivBounds(x, 0, m);
    DivBounds(x, 0x8000_0000, m);
  }

  /** The assertions admit m = 200, and then the red intermediate overflows:
      blending 1/200 of black into pure red gives red 182 as written, while
      the corrected `AlphaBlend` gives the intended 253. */
  lemma AlphaBlendOverflowWitness()
    ensures BlendComponentAsWritten(RED, 1, 200, 0x00ff_0000, 0) == 182 * RED
    ensures WeightedChannel(0, 0xff, 1, 200) == 253
    ensures Red(AlphaBlend(1, 200, 0x00ff_0000, 0)) == 253
  {
    assert Mask(0x00ff_0000, RED) == 0xff_0000;
    assert Mask(0, RED) == 0;
    var blend := Wrap32(Wrap32(0) + Wrap32(0xff_0000 * 199));
    assert blend == -969342976;
    assert JavaDiv(blend, 200) == -4846714;
    assert (-4846714) % 0x1_0000_0000 == 4290120582;
    assert Mask(4290120582, RED) == 182 * RED;
  }

  // ---------------------------------------------------------------------
  // colour metric inputs

  /** Java's `>>` on `int`: an arithmetic shift, i.e. division rounding down. */
  function ShiftRight(v: int, k: nat): int
  {
    v / Pow2(k)
  }

  function Pow2(k: nat): (r: nat)
    ensures r > 0
  {
    if k == 0 then 1 else 2 * Pow2(k - 1)
  }

  /** `r_diff`, `g_diff`, `b_diff` of `distYCbCr`: the exact signed
      differences of the three channels. */
  function ChannelDiffs(pix1: Pixel, pix2: Pixel): (d: (int, int, int))
    ensures d.0 == Red(pix1) - Red(pix2) && d.1 == Green(pix1) - Green(pix2) && d.2 == Blue(pix1) - Blue(pix2)
    ensures -255 <= d.0 <= 255 && -255 <= d.1 <= 255 && -255 <= d.2 <= 255
  {
    assert Pow2(16) == RED && Pow2(8) == GREEN;
    var rDiff := ShiftRight(Mask(pix1, RED) - Mask(pix2, RED), 16);
    var gDiff := ShiftRight(Mask(pix1, GREEN) - Mask(pix2, GREEN), 8);
    var bDiff := Mask(pix1, BLUE) - Mask(pix2, BLUE);
    Grid.DivModUnique(Mask(pix1, RED) - Mask(pix2, RED), RED, Red(pix1) - Red(pix2), 0);
    Grid.DivModUnique(Mask(pix1, GREEN) - Mask(pix2, GREEN), GREEN, Green(pix1) - Green(pix2), 0);
    (rDiff, gDiff, bDiff)
  }

  /** The perceptual distance `distYCbCr(pix1, pix2, lumaWeight)`. Its
      floating-point formula is not modelled: any real-valued function of
      the two pixels and the luminance weight stands for it. */
  type Metric = (Pixel, Pixel, real) -> real

  /** `colorDist`: identical pixels are at distance 0; otherwise the metric. */
  function ColorDist(metric: Metric, pix1: Pixel, pix2: Pixel, luminanceWeight: real): (r: real)
    ensures pix1 == pix2 ==> r == 0.0
    ensures pix1 != pix2 ==> r == metric(pix1, pix2, luminanceWeight)
  {
    if pix1 == pix2 then 0.0 else metric(pix1, pix2, luminanceWeight)
  }

  /** `sqr`. */
  function Sqr(x: real): real { x * x }

  /** `scalePixel`'s colour equality: squared distance below the squared
      tolerance `eqColorThres`. */
  predicate ColorEq(metric: Metric, luminanceWeight: real, equalColorTolerance: real, pix1: Pixel, pix2: Pixel)
  {
    ColorDist(metric, pix1, pix2, luminanceWeight) < Sqr(equalColorTolerance)
  }
}

/*
 * `XBRZConfig`: the tuning parameters of the scaler, with their defaults.
 */
module XbrzConfig {

  datatype Config = Config(
    luminanceWeight: real,
    equalColorTolerance: real,
    dominantDirectionThreshold: real,
    steepDirectionThreshold: real)

  /** `new XBRZConfig()`; the Java defaults are the `double`s nearest to
      these decimals. */
  function DefaultConfig(): Config
  {
    Config(1.0, 30.0, 3.6, 2.2)
  }
}
