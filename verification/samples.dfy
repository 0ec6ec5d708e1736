/** Fixed-point gain on 32-bit samples (`gain` in output_pack.c). */
module Samples {
  const MAX_S32: int := 0x7fff_ffff
  const MIN_S32: int := -0x8000_0000
  const MAX_SCALESAMPLE: int := 0x7fff_ffff_ffff
  const FIXED_ONE: S32 := 0x1_0000

  type S32 = x: int | MIN_S32 <= x <= MAX_S32

  function Clamp(x: int, lo: int, hi: int): int
    requires lo <= hi
  {
    if x < lo then lo else if x > hi then hi else x
  }

  /** The arithmetic shift by 16 rounds towards minus infinity, as `/` does for a positive divisor. */
  function Gain(g: S32, sample: S32): S32 {
    Clamp(g * sample, -MAX_SCALESAMPLE, MAX_SCALESAMPLE) / 0x1_0000
  }

  /** The 48-bit clamp before the shift is the 32-bit clamp after it. */
  lemma GainSaturates(g: S32, sample: S32)
    ensures Gain(g, sample) == Clamp(g * sample / 0x1_0000, MIN_S32, MAX_S32)
  {
    var p := g * sample;
    DivideOrdered(p);
  }

  lemma DivideOrdered(p: int)
    ensures p > MAX_SCALESAMPLE ==> p / 0x1_0000 > MAX_S32
    ensures p < -MAX_SCALESAMPLE ==> p / 0x1_0000 <= MIN_S32
    ensures -MAX_SCALESAMPLE <= p <= MAX_SCALESAMPLE ==> MIN_S32 <= p / 0x1_0000 <= MAX_S32
  {}

  /** Only unity gain leaves every sample alone, the one whose product is cut off by the clamp included. */
  lemma UnityGain(g: S32)
    ensures (forall x: S32 :: Gain(g, x) == x) <==> g == FIXED_ONE
  {
    assert Gain(g, 0x1_0000) == g;
  }

  /** A gain that is not negative keeps the order of samples, through saturation too. */
  lemma GainIsMonotone(g: S32, x: S32, y: S32)
    requires g >= 0 && x <= y
    ensures Gain(g, x) <= Gain(g, y)
  {
    var p, q := g * x, g * y;
    ProductsOrdered(g, x, y);
    ClampedAndDivided(p, q);
  }

  lemma ProductsOrdered(g: nat, x: int, y: int)
    requires x <= y
    ensures g * x <= g * y
  {}

  lemma ClampedAndDivided(p: int, q: int)
    requires p <= q
    ensures Clamp(p, -MAX_SCALESAMPLE, MAX_SCALESAMPLE) / 0x1_0000
         <= Clamp(q, -MAX_SCALESAMPLE, MAX_SCALESAMPLE) / 0x1_0000
  {}

  /** `(l + r) / 2` in 64 bits, truncated towards zero. */
  function Average(l: S32, r: S32): S32 {
    if l + r >= 0 then (l + r) / 2 else -(-(l + r) / 2)
  }
}
