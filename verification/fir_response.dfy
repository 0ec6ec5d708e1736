/** The reported frequency response: the stored partitions are enough to recover the transfer function of all taps. */
module FirResponse {
  import opened ComplexNumbers
  import opened Polynomials
  import opened Bits
  import opened Fft
  import opened Convolution
  import opened Spectra

  lemma {:induction false} PolyConcat(a: seq<Complex>, b: seq<Complex>, z: Complex)
    ensures Poly(a + b, z) == Add(Poly(a, z), Mul(Pow(z, |a|), Poly(b, z)))
  {
    hide *;
    PolyStep([], z); PowStep(z, 0);
    if a == [] {
      assert a + b == b;
      MulZero(Poly(b, z));
    } else {
      var t := a[1..];
      assert (a + b)[1..] == t + b;
      PolyConcat(t, b, z);
      PolyStep(a, z); PolyStep(a + b, z);
      PowStep(z, |t|);
      MulAdd(z, Poly(t, z), Mul(Pow(z, |t|), Poly(b, z)));
      MulAssoc(z, Pow(z, |t|), Poly(b, z));
      AddAssoc(a[0], Mul(z, Poly(t, z)), Mul(Pow(z, |a|), Poly(b, z)));
    }
  }

  /** The sign the code applies to bin k of partition p. */
  function Sign(k: nat, p: nat): real {
    if k % 2 == 1 && p % 2 == 1 then -1.0 else 1.0
  }

  lemma {:induction false} SignOfPower(m: nat)
    ensures Pow(Complex(-1.0, 0.0), m) == Complex(if m % 2 == 1 then -1.0 else 1.0, 0.0)
  {
    if m % 2 == 1 {
      MinusOnePow(m / 2);
      assert m == 2 * (m / 2) + 1;
    } else {
      assert m == 2 * (m / 2);
      hide *;
      PowSquare(Complex(-1.0, 0.0), m / 2);
      MinusOneSquared();
      PowOfOne(m / 2);
      assert ONE == Complex(1.0, 0.0);
    }
  }

  lemma ParityOfProduct(k: nat, p: nat)
    ensures (k * p) % 2 == 1 <==> k % 2 == 1 && p % 2 == 1
  {
    var a, b := k / 2, p / 2;
    assert k * p == 2 * (a * p) + (k % 2) * p;
    if k % 2 == 1 {
      assert k * p == 2 * (a * p) + p;
    } else {
      assert k * p == 2 * (a * p);
    }
  }

  lemma SignIsParity(k: nat, p: nat)
    ensures Sign(k, p) == if (k * p) % 2 == 1 then -1.0 else 1.0
  {
    ParityOfProduct(k, p);
  }

  /** A delay of p partitions is a half turn per odd bin and odd partition. */
  lemma DelayPhase(root: Twiddle, P: nat, bits: nat, k: nat, p: nat)
    requires IsTwiddle(root) && 2 * P == Pow2(bits) && bits > 0
    ensures Pow(Pow(Factor(root, false, 2 * P), k), p * P) == Complex(Sign(k, p), 0.0)
  {
    hide *;
    Pow2Step(bits - 1);
    HalfTurn(root, false, bits - 1);
    SignIsParity(k, p);
    var w := Factor(root, false, 2 * P);
    PowOfPow(w, k, p * P);
    ReorderProduct(P, k, p);
    PowOfPow(w, P, k * p);
    SignOfPower(k * p);
  }

  lemma ReorderProduct(P: nat, k: nat, p: nat)
    ensures k * (p * P) == P * (k * p)
  {}

  lemma ScaleIsMul(r: real, c: Complex)
    ensures Mul(Complex(r, 0.0), c) == Scale(r, c)
  {}

  /** The taps of the first p partitions, with the phase-corrected next one, are the taps of the first p + 1. */
  lemma ResponseStep(taps: seq<real>, P: nat, p: nat, root: Twiddle, bits: nat, k: nat)
    requires IsTwiddle(root) && 2 * P == Pow2(bits) && bits > 0
    ensures
      var z := Pow(Factor(root, false, 2 * P), k);
      Poly(Embed(Segment(taps, 0, (p + 1) * P)), z)
        == Add(Poly(Embed(Segment(taps, 0, p * P)), z), Scale(Sign(k, p), Poly(Embed(Block(taps, p, P)), z)))
  {
    var z := Pow(Factor(root, false, 2 * P), k);
    var a, b := Embed(Segment(taps, 0, p * P)), Embed(Block(taps, p, P));
    assert (p + 1) * P == p * P + P;
    assert Embed(Segment(taps, 0, p * P + P)) == a + b;
    hide *;
    PolyConcat(a, b, z);
    DelayPhase(root, P, bits, k, p);
    ScaleIsMul(Sign(k, p), Poly(b, z));
    LengthOf(taps, p * P);
  }

  lemma LengthOf(taps: seq<real>, n: nat)
    ensures |Embed(Segment(taps, 0, n))| == n
  {}

  lemma NothingYet(taps: seq<real>, P: nat, z: Complex)
    ensures 0 * P == 0 && Poly(Embed(Segment(taps, 0, 0)), z) == ZERO
  {}

  lemma AllTaps(taps: seq<real>, n: nat, z: Complex)
    requires |taps| <= n
    ensures Poly(Embed(Segment(taps, 0, n)), z) == Poly(Embed(taps), z)
  {
    assert Embed(Segment(taps, 0, n)) == Embed(taps) + seq(n - |taps|, _ => ZERO);
    hide *;
    PolyPad(Embed(taps), n - |taps|, z);
  }

  /** The summation of `_fir_response` for one channel: the transfer function of the whole filter at bin k. */
  method ResponseAtBin(taps: seq<real>, P: nat, parts: seq<seq<Complex>>, root: Twiddle, k: nat, ghost bits: nat)
    returns (h: Complex)
    requires IsTwiddle(root) && 2 * P == Pow2(bits) && bits > 0
    requires |taps| <= |parts| * P && k <= P
    requires forall p | 0 <= p < |parts| :: parts[p] == Spectrum(Block(taps, p, P), root)
    ensures h == Poly(Embed(taps), Pow(Factor(root, false, 2 * P), k))
  {
    hide Poly, Pow, Factor, IsTwiddle, Spectrum, Block, Embed, Add, Scale, Sign, Pow2;
    ghost var z := Pow(Factor(root, false, 2 * P), k);
    h := ZERO;
    NothingYet(taps, P, z);
    var p := 0;
    while p < |parts|
      invariant 0 <= p <= |parts|
      invariant h == Poly(Embed(Segment(taps, 0, p * P)), z)
    {
      ResponseStep(taps, P, p, root, bits, k);
      SpectrumBin(Block(taps, p, P), root, k);
      h := Add(h, Scale(Sign(k, p), parts[p][k]));
      p := p + 1;
    }
    AllTaps(taps, |parts| * P, z);
  }
}
