/*
 * The per-pixel corner record of the xBRZ scaler: four 2-bit lanes packed
 * into a Java `char` (top-left in bits 0-1, top-right in 2-3, bottom-right in
 * 4-5, bottom-left in 6-7). Java widens the `char` to `int`, shifts and
 * truncates back to 16 bits, which is exactly `bv16` arithmetic.
 */
module BlendInfo {

  type Info = bv16

  /** Blend strengths; they must fit into two bits. */
  const BLEND_NONE: bv16 := 0
  const BLEND_NORMAL: bv16 := 1
  const BLEND_DOMINANT: bv16 := 2

  predicate IsBlendType(t: bv16) { t <= BLEND_DOMINANT }

  /** Lane `k` (0 = top-left, 1 = top-right, 2 = bottom-right, 3 = bottom-left). */
  function Lane(b: Info, k: nat): (r: bv16)
    requires k < 4
    ensures r <= 3
  {
    if k == 0 then b & 3
    else if k == 1 then (b >> 2) & 3
    else if k == 2 then (b >> 4) & 3
    else (b >> 6) & 3
  }

  function GetTopL(b: Info): (r: bv16)
    ensures r == Lane(b, 0)
  {
    b & 0x3
  }

  function GetTopR(b: Info): (r: bv16)
    ensures r == Lane(b, 1)
  {
    (b >> 2) & 0x3
  }

  function GetBottomR(b: Info): (r: bv16)
    ensures r == Lane(b, 2)
  {
    (b >> 4) & 0x3
  }

  function GetBottomL(b: Info): (r: bv16)
    ensures r == Lane(b, 3)
  {
    (b >> 6) & 0x3
  }

  /** The setters OR the new strength into their lane. The other three lanes
      are untouched, and on a lane that is still none the OR is an assignment. */
  function SetTopL(b: Info, bt: bv16): (r: Info)
    ensures bt <= 3 ==> GetTopR(r) == GetTopR(b) && GetBottomR(r) == GetBottomR(b) && GetBottomL(r) == GetBottomL(b)
    ensures bt <= 3 && GetTopL(b) == BLEND_NONE ==> GetTopL(r) == bt
    ensures GetTopL(r) == GetTopL(b) | (bt & 3)
  {
    b | bt
  }

  function SetTopR(b: Info, bt: bv16): (r: Info)
    ensures bt <= 3 ==> GetTopL(r) == GetTopL(b) && GetBottomR(r) == GetBottomR(b) && GetBottomL(r) == GetBottomL(b)
    ensures bt <= 3 && GetTopR(b) == BLEND_NONE ==> GetTopR(r) == bt
    ensures GetTopR(r) == GetTopR(b) | (bt & 3)
  {
    b | (bt << 2)
  }

  function SetBottomR(b: Info, bt: bv16): (r: Info)
    ensures bt <= 3 ==> GetTopL(r) == GetTopL(b) && GetTopR(r) == GetTopR(b) && GetBottomL(r) == GetBottomL(b)
    ensures bt <= 3 && GetBottomR(b) == BLEND_NONE ==> GetBottomR(r) == bt
    ensures GetBottomR(r) == GetBottomR(b) | (bt & 3)
  {
    b | (bt << 4)
  }

  function SetBottomL(b: Info, bt: bv16): (r: Info)
    ensures bt <= 3 ==> GetTopL(r) == GetTopL(b) && GetTopR(r) == GetTopR(b) && GetBottomR(r) == GetBottomR(b)
    ensures bt <= 3 && GetBottomL(b) == BLEND_NONE ==> GetBottomL(r) == bt
    ensures GetBottomL(r) == GetBottomL(b) | (bt & 3)
  {
    b | (bt << 6)
  }

  /** Rotation by `rotDeg` quarter turns: each lane moves `rotDeg` places
      forward, the lanes that fall off the top of the low byte coming back in
      at the bottom. Bits above the low byte may be left set; no getter reads
      them. */
  function Rotate(b: Info, rotDeg: int): Info
    requires 0 <= rotDeg < 4
  {
    var l: bv16 := (rotDeg as bv16) << 1;
    var r: bv16 := 8 - l;
    (b << l) | (b >> r)
  }

  /** Lane `k` of `Rotate(b, rotDeg)` is lane `(k - rotDeg) mod 4` of `b`,
      for every record in the low byte; no rotation leaves it unchanged. */
  lemma RotateLanes(b: Info, rotDeg: int)
    requires b < 256 && 0 <= rotDeg < 4
    ensures GetTopL(Rotate(b, rotDeg)) == Lane(b, (4 - rotDeg) % 4)
    ensures GetTopR(Rotate(b, rotDeg)) == Lane(b, (5 - rotDeg) % 4)
    ensures GetBottomR(Rotate(b, rotDeg)) == Lane(b, (6 - rotDeg) % 4)
    ensures GetBottomL(Rotate(b, rotDeg)) == Lane(b, (7 - rotDeg) % 4)
    ensures rotDeg == 0 ==> Rotate(b, rotDeg) == b
  {
    if rotDeg == 0 {
      assert Rotate(b, 0) == (b << 0) | (b >> 8);
    } else if rotDeg == 1 {
      QuarterTurnLanes(b);
    } else if rotDeg == 2 {
      HalfTurnLanes(b);
    } else {
      ThreeQuarterTurnLanes(b);
    }
  }

  lemma QuarterTurnLanes(b: Info)
    requires b < 256
    ensures GetTopL(Rotate(b, 1)) == GetBottomL(b) && GetTopR(Rotate(b, 1)) == GetTopL(b)
    ensures GetBottomR(Rotate(b, 1)) == GetTopR(b) && GetBottomL(Rotate(b, 1)) == GetBottomR(b)
  {
    assert Rotate(b, 1) == (b << 2) | (b >> 6);
  }

  lemma HalfTurnLanes(b: Info)
    requires b < 256
    ensures GetTopL(Rotate(b, 2)) == GetBottomR(b) && GetTopR(Rotate(b, 2)) == GetBottomL(b)
    ensures GetBottomR(Rotate(b, 2)) == GetTopL(b) && GetBottomL(Rotate(b, 2)) == GetTopR(b)
  {
    assert Rotate(b, 2) == (b << 4) | (b >> 4);
  }

  lemma ThreeQuarterTurnLanes(b: Info)
    requires b < 256
    ensures GetTopL(Rotate(b, 3)) == GetTopR(b) && GetTopR(Rotate(b, 3)) == GetBottomR(b)
    ensures GetBottomR(Rotate(b, 3)) == GetBottomL(b) && GetBottomL(Rotate(b, 3)) == GetTopL(b)
  {
    assert Rotate(b, 3) == (b << 6) | (b >> 2);
  }

  /** The record whose four lanes hold the given strengths. */
  function Pack(tl: bv16, tr: bv16, br: bv16, bl: bv16): (r: Info)
    requires tl <= 3 && tr <= 3 && br <= 3 && bl <= 3
    ensures r < 256
    ensures GetTopL(r) == tl && GetTopR(r) == tr && GetBottomR(r) == br && GetBottomL(r) == bl
  {
    tl | (tr << 2) | (br << 4) | (bl << 6)
  }

  /** `Pack` is the only way to have these lane values in the low byte: two
      records below 256 with equal lanes are equal. */
  lemma LanesDetermine(a: Info, b: Info)
    requires a < 256 && b < 256
    requires GetTopL(a) == GetTopL(b) && GetTopR(a) == GetTopR(b)
    requires GetBottomR(a) == GetBottomR(b) && GetBottomL(a) == GetBottomL(b)
    ensures a == b
  {
  }

  /** Round trip of the getter and setter of each lane on an empty record. */
  lemma SetGetRoundTrip(v: bv16)
    requires v <= 3
    ensures GetTopL(SetTopL(0, v)) == v && GetTopR(SetTopR(0, v)) == v
    ensures GetBottomR(SetBottomR(0, v)) == v && GetBottomL(SetBottomL(0, v)) == v
  {
  }

  /** OR-setting fills exactly one lane of a packed record whose lane is
      still none: the result is the record packed with the new value. */
  lemma SetIntoPacked(tl: bv16, tr: bv16, br: bv16, bl: bv16, v: bv16)
    requires tl <= 3 && tr <= 3 && br <= 3 && bl <= 3 && v <= 3
    ensures tl == 0 ==> SetTopL(Pack(tl, tr, br, bl), v) == Pack(v, tr, br, bl)
    ensures tr == 0 ==> SetTopR(Pack(tl, tr, br, bl), v) == Pack(tl, v, br, bl)
    ensures br == 0 ==> SetBottomR(Pack(tl, tr, br, bl), v) == Pack(tl, tr, v, bl)
    ensures bl == 0 ==> SetBottomL(Pack(tl, tr, br, bl), v) == Pack(tl, tr, br, v)
  {
  }

}
