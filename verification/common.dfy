/*
 * Shared vocabulary of the model: pixels, the error-carrying result type and
 * the row-major grid arithmetic every filter uses.
 */
module Common {

  /** A packed ARGB pixel. Java stores it in a signed 32-bit `int`; the model
      keeps its unsigned 32-bit pattern, which has the same equalities and
      makes the channel masks plain division and remainder. */
  type Pixel = x: int | 0 <= x < 0x1_0000_0000

  /** Outcome of an operation that throws `IllegalArgumentException` in Java. */
  datatype Result<T> = Ok(value: T) | IllegalArgument(message: string)

  /** Java's nullable references. */
  datatype Option<T> = None | Some(value: T)

  /** Java's decimal rendering of an `int`, as string concatenation uses it. */
  function DecimalString(v: int): (s: string)
    ensures |s| > 0
    decreases if v < 0 then 1 - v else v
  {
    if v < 0 then "-" + DecimalString(-v)
    else if v < 10 then [Digit(v)]
    else DecimalString(v / 10) + [Digit(v % 10)]
  }

  function Digit(d: int): char
    requires 0 <= d < 10
  {
    "0123456789"[d]
  }

  function Max(a: int, b: int): int { if a < b then b else a }

  function Min(a: int, b: int): int { if a < b then a else b }

  /** The signed 32-bit value of an integer: Java's wrap-around. */
  function Wrap32(v: int): (r: int)
    ensures -0x8000_0000 <= r < 0x8000_0000
    ensures -0x8000_0000 <= v < 0x8000_0000 ==> r == v
  {
    (v + 0x8000_0000) % 0x1_0000_0000 - 0x8000_0000
  }

  /** Java's `int` division, which truncates toward zero. */
  function JavaDiv(a: int, b: int): int
    requires b > 0
  {
    if a >= 0 then a / b else -((-a) / b)
  }

  /** `java.lang.Math.max(lo, min(v, hi))`-style clamping of a coordinate into
      [0, n), the way the scalers clamp neighbour rows and columns. */
  function Clamp(v: int, n: int): (r: int)
    requires n > 0
    ensures 0 <= r < n
    ensures 0 <= v < n ==> r == v
    ensures v < 0 ==> r == 0
    ensures v >= n ==> r == n - 1
  {
    Min(Max(v, 0), n - 1)
  }
}

/*
 * Row-major grid addressing: cell (x, y) of a grid `w` cells wide lives at
 * flat index `y * w + x`.
 */
module Grid {

  function Idx(w: int, x: int, y: int): int { y * w + x }

  lemma MulMono(a: int, b: int, c: int)
    requires 0 <= c && a <= b
    ensures a * c <= b * c
  {
  }

  /** Every in-range cell has an in-range flat index. */
  lemma {:induction false} IdxInRange(w: int, h: int, x: int, y: int)
    requires 0 <= x < w && 0 <= y < h
    ensures 0 <= Idx(w, x, y) < w * h
    ensures Idx(w, x, y) <= w * h - 1
  {
    MulMono(y + 1, h, w);
    assert (y + 1) * w == y * w + w;
  }

  /** A non-zero multiple of `d` is at least `d` away from zero. */
  lemma {:induction false} MulAwayFromZero(k: int, d: int)
    requires d > 0
    ensures k >= 1 ==> k * d >= d
    ensures k <= -1 ==> k * d <= -d
  {
    if k >= 1 {
      MulMono(1, k, d);
    } else if k <= -1 {
      MulMono(k, -1, d);
    }
  }

  /** Division and remainder are determined by any decomposition `a == q*d + r`
      with `0 <= r < d`. */
  lemma {:induction false} DivModUnique(a: int, d: int, q: int, r: int)
    requires d > 0 && 0 <= r < d && a == q * d + r
    ensures a / d == q && a % d == r
  {
    var q' := a / d;
    var r' := a % d;
    assert (q - q') * d == r' - r;
    MulAwayFromZero(q - q', d);
  }

  /** Distinct cells have distinct flat indices. */
  lemma {:induction false} IdxInjective(w: int, x: int, y: int, x': int, y': int)
    requires 0 <= x < w && 0 <= x' < w && 0 <= y && 0 <= y'
    requires Idx(w, x, y) == Idx(w, x', y')
    ensures x == x' && y == y'
  {
    DivModUnique(Idx(w, x, y), w, y, x);
    DivModUnique(Idx(w, x', y'), w, y', x');
  }

  /** Every flat index is the index of the cell (k % w, k / w). */
  lemma {:induction false} IdxSplit(w: int, k: int)
    requires w > 0 && 0 <= k
    ensures 0 <= k % w < w && 0 <= k / w
    ensures Idx(w, k % w, k / w) == k
  {
  }

  /** A flat index below `w * h` names a cell in row < h. */
  lemma {:induction false} IdxRowBound(w: int, h: int, k: int)
    requires w > 0 && 0 <= k < w * h
    ensures k / w < h
  {
    IdxSplit(w, k);
    if k / w >= h {
      MulMono(h, k / w, w);
      assert false;
    }
  }
}
