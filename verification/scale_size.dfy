/*
 * `XBRZScaleSize`: the four supported scale factors, each tied to its
 * scaler, with lookup by ordinal (`cast`) and by factor (`valueOf`).
 */
module ScaleSize {
  import opened Common
  import Scaler

  datatype ScaleSize = Times2 | Times3 | Times4 | Times5

  /** The `scaler` field of each constant. */
  function ScalerOf(s: ScaleSize): Scaler.Scaler
  {
    match s
    case Times2 => Scaler.X2
    case Times3 => Scaler.X3
    case Times4 => Scaler.X4
    case Times5 => Scaler.X5
  }

  /** `values()`, in declaration order. */
  function Values(): (vs: seq<ScaleSize>)
    ensures |vs| == 4
  {
    [Times2, Times3, Times4, Times5]
  }

  /** `ordinal()`. */
  function Ordinal(s: ScaleSize): (r: nat)
    ensures r < |Values()| && Values()[r] == s
  {
    match s
    case Times2 => 0
    case Times3 => 1
    case Times4 => 2
    case Times5 => 3
  }

  /** The `size` field, `scaler.scale()`: two more than the ordinal. */
  function Size(s: ScaleSize): (r: int)
    ensures 2 <= r <= 5
    ensures r == Ordinal(s) + 2
  {
    Scaler.Scale(ScalerOf(s))
  }

  /** `cast(ordinal)`: clamps the ordinal into the range of `values()`. */
  function Cast(ordinal: int): (r: ScaleSize)
    ensures 0 <= ordinal < |Values()| ==> Ordinal(r) == ordinal
    ensures ordinal < 0 ==> r == Times2
    ensures ordinal >= |Values()| ==> r == Times5
  {
    var ord1 := Max(ordinal, 0);
    var ord2 := Min(ord1, |Values()| - 1);
    Values()[ord2]
  }

  /** `cast` undoes `ordinal`. */
  lemma CastOrdinal(s: ScaleSize)
    ensures Cast(Ordinal(s)) == s
  {
  }

  /** The first constant from position `from` on whose size is `value`. */
  function Find(value: int, from: nat): (r: Option<ScaleSize>)
    requires from <= |Values()|
    ensures r.Some? ==> Size(r.value) == value
    ensures r.None? ==> forall t :: from <= t < |Values()| ==> Size(Values()[t]) != value
    decreases |Values()| - from
  {
    if from == |Values()| then None
    else if Size(Values()[from]) == value then Some(Values()[from])
    else Find(value, from + 1)
  }

  /** `valueOf(value)`: the constant of that size, or
      `IllegalArgumentException` for any unsupported size. */
  function ValueOf(value: int): (r: Result<ScaleSize>)
    ensures r.Ok? <==> 2 <= value <= 5
    ensures r.Ok? ==> Size(r.value) == value
    ensures r.IllegalArgument? ==> r.message == "unsupported scale size: " + DecimalString(value)
  {
    FindSupported(value);
    match Find(value, 0)
    case Some(s) => Ok(s)
    case None => IllegalArgument("unsupported scale size: " + DecimalString(value))
  }

  /** The search finds every supported size. */
  lemma FindSupported(value: int)
    ensures 2 <= value <= 5 ==> Find(value, 0).Some?
  {
    if 2 <= value <= 5 {
      assert Size(Values()[value - 2]) == value;
    }
  }

  /** `valueOf` undoes `size`. */
  lemma ValueOfSize(s: ScaleSize)
    ensures ValueOf(Size(s)) == Ok(s)
  {
  }
}
