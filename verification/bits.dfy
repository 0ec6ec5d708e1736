/** Powers of two, single-bit tests on naturals, and the bit-reversed counter shared by the FFT and dsd2pcm. */
module Bits {

  function Pow2(k: nat): (p: nat)
    ensures p >= 1
  {
    if k == 0 then 1 else 2 * Pow2(k - 1)
  }

  lemma Pow2Step(k: nat)
    ensures Pow2(k + 1) == 2 * Pow2(k) && Pow2(0) == 1
  {}

  /** `j & bit` is non-zero, for a power of two `bit` (or 0). */
  predicate Has(j: nat, bit: nat) {
    bit != 0 && (j / bit) % 2 == 1
  }

  /** `j ^ bit`, for a power of two `bit` (or 0). */
  function Toggle(j: nat, bit: nat): (r: nat)
    ensures Has(j, bit) ==> r == j - bit
    ensures !Has(j, bit) ==> r == j + bit
  {
    if Has(j, bit) then HasMeansAtLeast(j, bit); j - bit else j + bit
  }

  lemma HasMeansAtLeast(j: nat, bit: nat)
    requires Has(j, bit)
    ensures j >= bit
  {}

  /** The low `bits` bits of i in opposite order. */
  function Rev(bits: nat, i: nat): (r: nat)
    ensures r < Pow2(bits)
  {
    if bits == 0 then 0
    else if i % 2 == 1 then Pow2(bits - 1) + Rev(bits - 1, i / 2)
    else Rev(bits - 1, i / 2)
  }

  /** Increment of a counter whose most significant bit is read first: clear set bits from `bit` down, then set one. */
  function CarryDown(j: nat, bit: nat): nat
    decreases bit
  {
    if Has(j, bit) then CarryDown(Toggle(j, bit), bit / 2) else Toggle(j, bit)
  }

  lemma CarryStep(j: nat, bit: nat)
    ensures Has(j, bit) ==> bit > 0 && CarryDown(j, bit) == CarryDown(Toggle(j, bit), bit / 2)
    ensures !Has(j, bit) ==> CarryDown(j, bit) == Toggle(j, bit)
  {}

  lemma MulAtLeast(p: nat, d: int)
    ensures d >= 1 ==> p * d >= p
    ensures d <= -1 ==> p * d + p <= 0
  {
    if d >= 1 {
      assert p * (d - 1) >= 0;
    } else if d <= -1 {
      assert p * (-1 - d) >= 0;
    }
  }

  lemma QuotientIs(a: nat, p: nat, q: nat, r: nat)
    requires r < p && a == q * p + r
    ensures a / p == q && a % p == r
  {
    var d := a / p - q;
    assert a == p * (a / p) + a % p;
    assert p * d == p * (a / p) - q * p;
    MulAtLeast(p, d);
  }

  lemma TopBit(low: nat, p: nat)
    requires low < p
    ensures Has(p + low, p) && !Has(low, p)
  {
    assert (p + low) / p == 1;
    assert low / p == 0;
  }

  lemma RevStep(bits: nat, i: nat)
    ensures Rev(0, i) == 0
    ensures i % 2 == 1 ==> Rev(bits + 1, i) == Pow2(bits) + Rev(bits, i / 2)
    ensures i % 2 == 0 ==> Rev(bits + 1, i) == Rev(bits, i / 2)
  {}

  /** Adding one to the plain counter is a downward carry in the reversed one. */
  lemma {:induction false} RevNext(bits: nat, i: nat)
    requires bits >= 1 && i + 1 < Pow2(bits)
    ensures CarryDown(Rev(bits, i), Pow2(bits - 1)) == Rev(bits, i + 1)
  {
    hide *;
    Pow2Step(bits - 1);
    RevStep(bits - 1, i); RevStep(bits - 1, i + 1);
    var p, low := Pow2(bits - 1), Rev(bits - 1, i / 2);
    if i % 2 == 1 {
      assert (i + 1) / 2 == i / 2 + 1;
      Pow2Step(0);
      assert bits >= 2;
      Pow2Step(bits - 2);
      RevNext(bits - 1, i / 2);
      CarryClears(low, p);
    } else {
      assert (i + 1) / 2 == i / 2;
      CarrySets(low, p);
    }
  }

  lemma CarryClears(low: nat, p: nat)
    requires low < p
    ensures CarryDown(p + low, p) == CarryDown(low, p / 2)
  {
    TopBit(low, p);
  }

  lemma CarrySets(low: nat, p: nat)
    requires low < p
    ensures CarryDown(low, p) == p + low
  {
    TopBit(low, p);
  }

  /** The low bit of the argument is the high bit of the result, and the other way round. */
  lemma {:induction false} RevHigh(bits: nat, k: nat)
    requires k < Pow2(bits)
    ensures Rev(bits + 1, k) == 2 * Rev(bits, k)
    ensures Rev(bits + 1, k + Pow2(bits)) == 2 * Rev(bits, k) + 1
  {
    hide *;
    Pow2Step(0);
    RevStep(bits, k); RevStep(bits, k + Pow2(bits));
    RevStep(0, k / 2);
    if bits == 0 {
      RevStep(0, 0);
    } else {
      var p := Pow2(bits - 1);
      Pow2Step(bits - 1);
      RevHigh(bits - 1, k / 2);
      RevStep(bits - 1, k);
      assert (k + 2 * p) % 2 == k % 2 && (k + 2 * p) / 2 == k / 2 + p;
    }
  }

  lemma {:induction false} RevInvolution(bits: nat, i: nat)
    requires i < Pow2(bits)
    ensures Rev(bits, Rev(bits, i)) == i
  {
    if bits > 0 {
      var m := Rev(bits - 1, i / 2);
      RevInvolution(bits - 1, i / 2);
      RevHigh(bits - 1, m);
      assert i % 2 == 0 || i % 2 == 1;
    }
  }
}
