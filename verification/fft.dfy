/** The in-place radix-2 transform `_fft`: what it computes, that this is the DFT, and that its inverse undoes it. */
module Fft {
  import opened ComplexNumbers
  import opened Polynomials
  import opened Bits

  /** root(len) stands for the code's cos/sin pair at angle -2 pi / len. */
  type Twiddle = nat -> Complex

  /** All that the proofs use of the twiddle factors. */
  ghost predicate IsTwiddle(root: Twiddle) {
    && root(2) == Complex(-1.0, 0.0)
    && forall s: nat :: Mul(root(Pow2(s + 1)), root(Pow2(s + 1))) == root(Pow2(s))
  }

  /** The factor the code uses for length len: the inverse transform flips the sign of the angle. */
  function Factor(root: Twiddle, inverse: bool, len: nat): Complex {
    if inverse then Conj(root(len)) else root(len)
  }

  // ---------------------------------------------------------------- specification

  /** Bin k of the discrete Fourier transform: the sum over t of x[t] w^(k t). */
  ghost function DftBin(x: seq<Complex>, w: Complex, k: nat, from: nat): Complex
    requires from <= |x|
    decreases |x| - from
  {
    if from == |x| then ZERO
    else Add(Mul(x[from], Pow(w, k * from)), DftBin(x, w, k, from + 1))
  }

  ghost function Dft(x: seq<Complex>, w: Complex): (y: seq<Complex>)
    ensures |y| == |x|
  {
    seq(|x|, k requires 0 <= k < |x| => DftBin(x, w, k, 0))
  }

  /** One butterfly over a block: even half e, odd half o. */
  function Butterfly(e: seq<Complex>, o: seq<Complex>, w: Complex): (r: seq<Complex>)
    requires |e| == |o|
    ensures |r| == 2 * |e|
  {
    seq(|e|, k requires 0 <= k < |e| => Add(e[k], Mul(o[k], Pow(w, k)))) +
    seq(|e|, k requires 0 <= k < |e| => Sub(e[k], Mul(o[k], Pow(w, k))))
  }

  /** n is a whole number of blocks of length len. */
  predicate Blocks(n: nat, len: nat)
    requires len > 0
  {
    if n < len then n == 0 else Blocks(n - len, len)
  }

  /** One pass over the array: a butterfly in every block of length 2 half. */
  function Pass(b: seq<Complex>, half: nat, w: Complex): (r: seq<Complex>)
    requires half > 0 && Blocks(|b|, 2 * half)
    ensures |r| == |b|
    decreases |b|
  {
    if |b| < 2 * half then b
    else Butterfly(b[..half], b[half..2 * half], w) + Pass(b[2 * half..], half, w)
  }

  function BitReversed(x: seq<Complex>, bits: nat): (r: seq<Complex>)
    requires |x| == Pow2(bits)
    ensures |r| == |x|
    decreases bits
  {
    if bits == 0 then x else BitReversed(Evens(x), bits - 1) + BitReversed(Odds(x), bits - 1)
  }

  /** The array after the passes of length 2, 4, ..., 2^s on the bit-reversed x. */
  function Staged(x: seq<Complex>, bits: nat, s: nat, root: Twiddle, inverse: bool): (r: seq<Complex>)
    requires |x| == Pow2(bits) && s <= bits
    ensures |r| == |x|
    decreases bits
  {
    if bits == 0 then x
    else
      var t := if s == bits then s - 1 else s;
      var e, o := Staged(Evens(x), bits - 1, t, root, inverse), Staged(Odds(x), bits - 1, t, root, inverse);
      if s == bits then Butterfly(e, o, Factor(root, inverse, |x|)) else e + o
  }

  // ---------------------------------------------------------------- the passes compute Staged

  lemma {:induction false} StagedZero(x: seq<Complex>, bits: nat, root: Twiddle, inverse: bool)
    requires |x| == Pow2(bits)
    ensures Staged(x, bits, 0, root, inverse) == BitReversed(x, bits)
    decreases bits
  {
    if bits > 0 {
      StagedZero(Evens(x), bits - 1, root, inverse);
      StagedZero(Odds(x), bits - 1, root, inverse);
    }
  }

  lemma {:induction false} PassSplit(a: seq<Complex>, b: seq<Complex>, half: nat, w: Complex)
    requires half > 0 && Blocks(|a|, 2 * half) && Blocks(|b|, 2 * half)
    ensures Blocks(|a| + |b|, 2 * half)
    ensures Pass(a + b, half, w) == Pass(a, half, w) + Pass(b, half, w)
    decreases |a|
  {
    hide *;
    BlocksAdd(|a|, |b|, 2 * half);
    PassStep(a, half, w); PassStep(a + b, half, w);
    if |a| < 2 * half {
      assert a == [];
      assert a + b == b;
    } else {
      PassSplit(a[2 * half..], b, half, w);
      assert (a + b)[2 * half..] == a[2 * half..] + b;
      assert (a + b)[..half] == a[..half] && (a + b)[half..2 * half] == a[half..2 * half];
    }
  }

  lemma PassStep(b: seq<Complex>, half: nat, w: Complex)
    requires half > 0 && Blocks(|b|, 2 * half)
    ensures |b| < 2 * half ==> b == [] && Pass(b, half, w) == []
    ensures |b| >= 2 * half ==> Blocks(|b| - 2 * half, 2 * half)
    ensures |b| >= 2 * half ==>
      Pass(b, half, w) == Butterfly(b[..half], b[half..2 * half], w) + Pass(b[2 * half..], half, w)
  {}

  lemma {:induction false} BlocksAdd(a: nat, b: nat, len: nat)
    requires len > 0 && Blocks(a, len) && Blocks(b, len)
    ensures Blocks(a + b, len)
  {
    if a >= len {
      BlocksAdd(a - len, b, len);
    }
  }

  lemma {:induction false} Pow2Blocks(s: nat, bits: nat)
    requires s <= bits
    ensures Blocks(Pow2(bits), Pow2(s))
    decreases bits
  {
    if s < bits {
      Pow2Blocks(s, bits - 1);
      BlocksAdd(Pow2(bits - 1), Pow2(bits - 1), Pow2(s));
    } else {
      assert Blocks(0, Pow2(s));
    }
  }

  lemma PassOfOneBlock(e: seq<Complex>, o: seq<Complex>, w: Complex)
    requires |e| == |o| > 0
    ensures Blocks(2 * |e|, 2 * |e|)
    ensures Pass(e + o, |e|, w) == Butterfly(e, o, w)
  {
    hide Butterfly;
    var b := e + o;
    assert Blocks(0, 2 * |e|);
    assert b[..|e|] == e && b[|e|..2 * |e|] == o && b[2 * |e|..] == [];
    assert Pass([], |e|, w) == [];
  }

  /** Each pass takes the array from one stage to the next. */
  lemma {:induction false} PassAdvances(x: seq<Complex>, bits: nat, s: nat, root: Twiddle, inverse: bool)
    requires |x| == Pow2(bits) && s < bits
    ensures Blocks(|x|, 2 * Pow2(s))
    ensures Pass(Staged(x, bits, s, root, inverse), Pow2(s), Factor(root, inverse, 2 * Pow2(s)))
         == Staged(x, bits, s + 1, root, inverse)
    decreases bits
  {
    hide *;
    Pow2Blocks(s + 1, bits); Pow2Step(s); LengthSplits(x, bits);
    var w := Factor(root, inverse, 2 * Pow2(s));
    var e, o := Staged(Evens(x), bits - 1, s, root, inverse), Staged(Odds(x), bits - 1, s, root, inverse);
    StagedStep(x, bits, s, root, inverse);
    if s + 1 == bits {
      PassOfOneBlock(e, o, w);
      StagedLast(x, bits, root, inverse);
    } else {
      PassAdvances(Evens(x), bits - 1, s, root, inverse);
      PassAdvances(Odds(x), bits - 1, s, root, inverse);
      PassSplit(e, o, Pow2(s), w);
      StagedStep(x, bits, s + 1, root, inverse);
    }
  }

  lemma StagedStep(x: seq<Complex>, bits: nat, s: nat, root: Twiddle, inverse: bool)
    requires |x| == Pow2(bits) && s < bits
    ensures Staged(x, bits, s, root, inverse)
         == Staged(Evens(x), bits - 1, s, root, inverse) + Staged(Odds(x), bits - 1, s, root, inverse)
  {}

  // ---------------------------------------------------------------- the last stage is the DFT

  lemma FactorSquares(root: Twiddle, inverse: bool, s: nat)
    requires IsTwiddle(root)
    ensures Factor(root, inverse, 2) == Complex(-1.0, 0.0)
    ensures Mul(Factor(root, inverse, Pow2(s + 1)), Factor(root, inverse, Pow2(s + 1)))
        == Factor(root, inverse, Pow2(s))
  {
    ConjMul(root(Pow2(s + 1)), root(Pow2(s + 1)));
  }

  /** w^(len/2) is -1 for the factor of length len. */
  lemma {:induction false} HalfTurn(root: Twiddle, inverse: bool, s: nat)
    requires IsTwiddle(root)
    ensures Pow(Factor(root, inverse, Pow2(s + 1)), Pow2(s)) == Complex(-1.0, 0.0)
  {
    var w := Factor(root, inverse, Pow2(s + 1));
    FactorSquares(root, inverse, s);
    if s == 0 {
      assert Pow2(1) == 2;
      hide *;
      PowStep(w, 0);
      MulZero(w);
    } else {
      HalfTurn(root, inverse, s - 1);
      assert Pow2(s) == 2 * Pow2(s - 1);
      hide *;
      PowSquare(w, Pow2(s - 1));
    }
  }

  lemma PowSquare(w: Complex, k: nat)
    ensures Pow(w, 2 * k) == Pow(Mul(w, w), k)
    ensures Pow(w, 2 * k) == Mul(Pow(w, k), Pow(w, k))
  {
    hide *;
    PowOfProduct(w, w, k);
    PowAdd(w, k, k);
  }

  lemma SubAsAdd(e: Complex, w: Complex, o: Complex)
    ensures Add(e, Mul(w, o)) == Add(e, Mul(o, w))
    ensures Add(e, Mul(Mul(Complex(-1.0, 0.0), w), o)) == Sub(e, Mul(o, w))
  {}

  /** Bin k of the last stage is the polynomial with coefficients x at the k-th power of the root. */
  lemma {:induction false} StagedIsPoly(x: seq<Complex>, bits: nat, root: Twiddle, inverse: bool, k: nat)
    requires IsTwiddle(root) && |x| == Pow2(bits) && k < |x|
    ensures Staged(x, bits, bits, root, inverse)[k] == Poly(x, Pow(Factor(root, inverse, |x|), k))
    decreases bits
  {
    hide *;
    var w := Factor(root, inverse, |x|);
    if bits == 0 {
      OneBin(x, root, inverse, w);
      PowStep(w, 0);
    } else {
      var half := Pow2(bits - 1);
      LengthSplits(x, bits);
      var j := if k < half then k else k - half;
      StagedIsPoly(Evens(x), bits - 1, root, inverse, j);
      StagedIsPoly(Odds(x), bits - 1, root, inverse, j);
      FactorSquares(root, inverse, bits - 1);
      HalfTurn(root, inverse, bits - 1);
      StagedLast(x, bits, root, inverse);
      ButterflyAt(Staged(Evens(x), bits - 1, bits - 1, root, inverse),
                  Staged(Odds(x), bits - 1, bits - 1, root, inverse), w, j);
      BinSplit(x, w, j, half);
      SubAsAdd(Poly(Evens(x), Pow(Mul(w, w), j)), Pow(w, j), Poly(Odds(x), Pow(Mul(w, w), j)));
    }
  }

  lemma LengthSplits(x: seq<Complex>, bits: nat)
    requires bits > 0 && |x| == Pow2(bits)
    ensures Pow2(bits) == 2 * Pow2(bits - 1)
    ensures |Evens(x)| == Pow2(bits - 1) && |Odds(x)| == Pow2(bits - 1)
  {}

  lemma OneBin(x: seq<Complex>, root: Twiddle, inverse: bool, w: Complex)
    requires |x| == Pow2(0)
    ensures |x| == 1 && Staged(x, 0, 0, root, inverse)[0] == Poly(x, Pow(w, 0))
  {
    assert x == [x[0]] && x[1..] == [];
    hide Mul, Add, Pow, Poly;
    PolyStep(x, Pow(w, 0)); PolyStep([], Pow(w, 0));
    MulZero(Pow(w, 0)); MulZero(x[0]);
  }

  lemma StagedLast(x: seq<Complex>, bits: nat, root: Twiddle, inverse: bool)
    requires bits > 0 && |x| == Pow2(bits)
    ensures Staged(x, bits, bits, root, inverse)
         == Butterfly(Staged(Evens(x), bits - 1, bits - 1, root, inverse),
                      Staged(Odds(x), bits - 1, bits - 1, root, inverse), Factor(root, inverse, |x|))
  {
    hide Butterfly, Factor;
  }

  lemma ButterflyAt(e: seq<Complex>, o: seq<Complex>, w: Complex, j: nat)
    requires |e| == |o| && j < |e|
    ensures Butterfly(e, o, w)[j] == Add(e[j], Mul(o[j], Pow(w, j)))
    ensures Butterfly(e, o, w)[j + |e|] == Sub(e[j], Mul(o[j], Pow(w, j)))
  {
    hide Mul, Add, Sub, Pow;
  }

  lemma BinSplit(x: seq<Complex>, w: Complex, j: nat, half: nat)
    requires Pow(w, half) == Complex(-1.0, 0.0)
    ensures Poly(x, Pow(w, j))
         == Add(Poly(Evens(x), Pow(Mul(w, w), j)), Mul(Pow(w, j), Poly(Odds(x), Pow(Mul(w, w), j))))
    ensures Poly(x, Pow(w, j + half))
         == Add(Poly(Evens(x), Pow(Mul(w, w), j)),
                Mul(Mul(Complex(-1.0, 0.0), Pow(w, j)), Poly(Odds(x), Pow(Mul(w, w), j))))
  {
    hide *;
    var z, m := Pow(w, j), Complex(-1.0, 0.0);
    PowSquare(w, j);
    PolySplit(x, z);
    PowAdd(w, j, half);
    MulComm(z, m);
    PolySplit(x, Mul(m, z));
    MulSwap(m, z, m, z);
    MinusOneSquared();
    MulZero(Mul(z, z));
  }

  lemma MinusOneSquared()
    ensures Mul(Complex(-1.0, 0.0), Complex(-1.0, 0.0)) == ONE
  {}

  lemma {:induction false} DftBinIsPoly(x: seq<Complex>, w: Complex, k: nat, from: nat)
    requires from <= |x|
    ensures DftBin(x, w, k, from) == Mul(Pow(Pow(w, k), from), Poly(x[from..], Pow(w, k)))
    decreases |x| - from
  {
    var z := Pow(w, k);
    PowOfPow(w, k, from);
    if from == |x| {
      hide *;
      PolyStep([], z); MulZero(Pow(z, from));
      assert x[from..] == [];
      DftBinStep(x, w, k, from);
    } else {
      DftBinIsPoly(x, w, k, from + 1);
      hide *;
      DftBinStep(x, w, k, from);
      assert x[from..][1..] == x[from + 1..];
      PolyStep(x[from..], z);
      PowStep(z, from);
      var p, t := Pow(z, from), Poly(x[from + 1..], z);
      MulAdd(p, x[from], Mul(z, t));
      MulComm(p, x[from]);
      MulAssoc(p, z, t); MulComm(p, z);
    }
  }

  lemma DftBinStep(x: seq<Complex>, w: Complex, k: nat, from: nat)
    requires from <= |x|
    ensures from == |x| ==> DftBin(x, w, k, from) == ZERO
    ensures from < |x| ==> DftBin(x, w, k, from) == Add(Mul(x[from], Pow(w, k * from)), DftBin(x, w, k, from + 1))
  {}

  lemma DftBinAt(x: seq<Complex>, w: Complex, k: nat)
    requires k < |x|
    ensures Dft(x, w)[k] == Poly(x, Pow(w, k))
  {
    assert Dft(x, w)[k] == DftBin(x, w, k, 0);
    assert x[0..] == x;
    hide *;
    DftBinIsPoly(x, w, k, 0);
    PowStep(Pow(w, k), 0);
    MulZero(Poly(x, Pow(w, k)));
  }

  /** The last stage is the discrete Fourier transform at the factor of the full length. */
  lemma StagedIsDft(x: seq<Complex>, bits: nat, root: Twiddle, inverse: bool)
    requires IsTwiddle(root) && |x| == Pow2(bits)
    ensures Staged(x, bits, bits, root, inverse) == Dft(x, Factor(root, inverse, |x|))
  {
    var w := Factor(root, inverse, |x|);
    forall k | 0 <= k < |x|
      ensures Staged(x, bits, bits, root, inverse)[k] == Dft(x, w)[k]
    {
      StagedIsPoly(x, bits, root, inverse, k);
      DftBinAt(x, w, k);
    }
  }

  // ---------------------------------------------------------------- inversion

  lemma {:induction false} MinusOnePow(m: nat)
    ensures Pow(Complex(-1.0, 0.0), 2 * m + 1) == Complex(-1.0, 0.0)
  {
    hide *;
    var z := Complex(-1.0, 0.0);
    PowSquare(z, m);
    MinusOneSquared();
    PowOfOne(m);
    PowStep(z, 2 * m);
    MulZero(z);
  }

  lemma OnePlusMinusOne(g: Complex)
    ensures Add(g, Mul(Complex(-1.0, 0.0), g)) == ZERO
  {}

  /** The powers of a non-trivial n-th root of unity cancel. */
  lemma {:induction false} RootsCancel(root: Twiddle, inverse: bool, s: nat, m: nat)
    requires IsTwiddle(root) && 0 < m < Pow2(s)
    ensures Geometric(Pow(Factor(root, inverse, Pow2(s)), m), Pow2(s)) == ZERO
  {
    hide *;
    Pow2Step(0);
    Pow2Step(s - 1);
    HalfTurn(root, inverse, s - 1);
    FactorSquares(root, inverse, s - 1);
    var w, h := Factor(root, inverse, Pow2(s)), Pow2(s - 1);
    var z := Pow(w, m);
    GeometricSplit(z, h, h);
    if m % 2 == 1 {
      PowOfPow(w, m, h); PowOfPow(w, h, m);
      assert m * h == h * m;
      assert m == 2 * (m / 2) + 1;
      MinusOnePow(m / 2);
      OnePlusMinusOne(Geometric(z, h));
    } else {
      PowSquare(w, m / 2);
      RootsCancel(root, inverse, s - 1, m / 2);
      MulZero(Pow(z, h)); MulZero(ZERO);
    }
  }

  lemma NormIsReal(w: Complex)
    ensures Mul(w, Conj(w)) == Complex(w.re * w.re + w.im * w.im, 0.0) && w.re * w.re + w.im * w.im >= 0.0
    ensures Mul(Conj(w), w) == Mul(w, Conj(w))
    ensures Conj(Conj(w)) == w
  {}

  lemma ProductOrder(a: real, b: real, c: real)
    requires a >= 0.0 && b <= c
    ensures a * b <= a * c
  {}

  lemma SquareOrder(r: real)
    requires r >= 0.0
    ensures r > 1.0 ==> r * r > 1.0
    ensures r < 1.0 ==> r * r < 1.0
  {
    if r < 1.0 {
      ProductOrder(r, r, 1.0);
    } else {
      ProductOrder(r, 1.0, r);
    }
  }

  lemma {:induction false} UnitCircle(root: Twiddle, s: nat)
    requires IsTwiddle(root)
    ensures Mul(root(Pow2(s)), Conj(root(Pow2(s)))) == ONE
  {
    hide *;
    var w := root(Pow2(s));
    if s == 0 {
      RootOfOne(root);
      NormIsReal(w);
    } else {
      UnitCircle(root, s - 1);
      RootSquares(root, s - 1);
      ConjMul(w, w);
      MulSwap(w, w, Conj(w), Conj(w));
      NormIsReal(w);
      SquareOfReal(w.re * w.re + w.im * w.im);
    }
  }

  lemma RootSquares(root: Twiddle, s: nat)
    requires IsTwiddle(root)
    ensures Mul(root(Pow2(s + 1)), root(Pow2(s + 1))) == root(Pow2(s))
  {}

  lemma RootOfOne(root: Twiddle)
    requires IsTwiddle(root)
    ensures root(Pow2(0)) == ONE
    ensures Mul(ONE, Conj(ONE)) == ONE
  {
    assert Pow2(0 + 1) == 2;
    MinusOneSquared();
  }

  lemma SquareOfReal(r: real)
    requires r >= 0.0 && Mul(Complex(r, 0.0), Complex(r, 0.0)) == ONE
    ensures Complex(r, 0.0) == ONE
  {
    assert r * r == 1.0;
    SquareOrder(r);
  }

  lemma FactorInverse(root: Twiddle, inverse: bool, s: nat)
    requires IsTwiddle(root)
    ensures Mul(Factor(root, inverse, Pow2(s)), Factor(root, !inverse, Pow2(s))) == ONE
  {
    UnitCircle(root, s);
    MulComm(root(Pow2(s)), Conj(root(Pow2(s))));
  }

  /** v^j w^o is 1 when o == j, and otherwise a lower power of one of the two reciprocal roots. */
  lemma ReciprocalPowers(v: Complex, w: Complex, j: nat, o: nat)
    requires Mul(v, w) == ONE
    ensures o == j ==> Mul(Pow(v, j), Pow(w, o)) == ONE
    ensures o > j ==> Mul(Pow(v, j), Pow(w, o)) == Pow(w, o - j)
    ensures o < j ==> Mul(Pow(v, j), Pow(w, o)) == Pow(v, j - o)
  {
    hide *;
    var m := if o < j then o else j;
    PowOfProduct(v, w, m);
    PowOfOne(m);
    if o > j {
      PowAdd(w, j, o - j);
      MulAssoc(Pow(v, j), Pow(w, j), Pow(w, o - j));
      MulZero(Pow(w, o - j));
    } else if o < j {
      PowAdd(v, j - o, o);
      MulAssoc(Pow(v, j - o), Pow(v, o), Pow(w, o));
      MulZero(Pow(v, j - o));
    }
  }

  /** What coefficient o of x contributes to coefficient j of the transform taken back. */
  lemma CoefficientWeight(root: Twiddle, inverse: bool, s: nat, j: nat, o: nat)
    requires IsTwiddle(root) && j < Pow2(s) && o < Pow2(s)
    ensures Geometric(Mul(Pow(Factor(root, !inverse, Pow2(s)), j), Pow(Factor(root, inverse, Pow2(s)), o)), Pow2(s))
         == if o == j then Complex(Pow2(s) as real, 0.0) else ZERO
  {
    hide *;
    var v, w := Factor(root, !inverse, Pow2(s)), Factor(root, inverse, Pow2(s));
    FactorInverse(root, !inverse, s);
    ReciprocalPowers(v, w, j, o);
    if o == j {
      GeometricOfOne(Pow2(s));
    } else if o > j {
      RootsCancel(root, inverse, s, o - j);
    } else {
      RootsCancel(root, !inverse, s, j - o);
    }
  }

  lemma {:induction false} CrossSumPicks(x: seq<Complex>, root: Twiddle, inverse: bool, s: nat, j: nat, o: nat)
    requires IsTwiddle(root) && |x| == Pow2(s) && j < |x| && o <= |x|
    ensures CrossSum(x, o, Factor(root, inverse, |x|), Pow(Factor(root, !inverse, |x|), j), |x|)
         == if o <= j then Mul(x[j], Complex(|x| as real, 0.0)) else ZERO
    decreases |x| - o
  {
    hide *;
    var w, z := Factor(root, inverse, |x|), Pow(Factor(root, !inverse, |x|), j);
    if o == |x| {
      CrossSumOfNothing(x, w, z, |x|);
    } else {
      CrossSumPicks(x, root, inverse, s, j, o + 1);
      PeelCoefficient(x, o, w, z, |x|);
      CoefficientWeight(root, inverse, s, j, o);
      MulZero(x[o]);
      MulZero(Mul(x[j], Complex(|x| as real, 0.0)));
      MulZero(ZERO);
    }
  }

  lemma {:induction false} CrossSumOfNothing(x: seq<Complex>, w: Complex, z: Complex, n: nat)
    ensures CrossSum(x, |x|, w, z, n) == ZERO
  {
    hide *;
    CrossSumStep(x, |x|, w, z, 0);
    if n > 0 {
      CrossSumOfNothing(x, w, z, n - 1);
      CrossSumStep(x, |x|, w, z, n - 1);
      assert x[|x|..] == [];
      PolyStep([], Pow(w, n - 1));
      MulZero(Pow(Pow(w, n - 1), |x|)); MulZero(Pow(z, n - 1)); MulZero(ZERO);
    }
  }

  /** The first n terms of the polynomial on a transform, as a double sum. */
  lemma {:induction false} PolyOfDft(x: seq<Complex>, w: Complex, z: Complex, n: nat)
    requires n <= |x|
    ensures Poly(Dft(x, w)[..n], z) == CrossSum(x, 0, w, z, n)
  {
    hide *;
    CrossSumStep(x, 0, w, z, 0);
    var y := Dft(x, w);
    if n == 0 {
      assert y[..0] == [];
      PolyStep([], z);
    } else {
      PolyOfDft(x, w, z, n - 1);
      assert y[..n] == y[..n - 1] + [y[n - 1]];
      PolySnoc(y[..n - 1], y[n - 1], z);
      DftBinAt(x, w, n - 1);
      CrossSumStep(x, 0, w, z, n - 1);
      assert x[0..] == x;
      PowStep(Pow(w, n - 1), 0);
      MulZero(Poly(x, Pow(w, n - 1)));
    }
  }

  /** Transforming forward and then back multiplies every coefficient by the length. */
  lemma TransformTwice(x: seq<Complex>, bits: nat, root: Twiddle, inverse: bool, j: nat)
    requires IsTwiddle(root) && |x| == Pow2(bits) && j < |x|
    ensures Dft(Dft(x, Factor(root, inverse, |x|)), Factor(root, !inverse, |x|))[j]
         == Mul(x[j], Complex(|x| as real, 0.0))
  {
    hide *;
    var w, v := Factor(root, inverse, |x|), Factor(root, !inverse, |x|);
    var y := Dft(x, w);
    DftBinAt(y, v, j);
    assert y[..|x|] == y;
    PolyOfDft(x, w, Pow(v, j), |x|);
    CrossSumPicks(x, root, inverse, bits, j, 0);
  }

  /** The value `_fft` leaves in its array: the inverse transform also divides by the length. */
  ghost function Transform(x: seq<Complex>, root: Twiddle, inverse: bool): (y: seq<Complex>)
    ensures |y| == |x|
  {
    var d := Dft(x, Factor(root, inverse, |x|));
    if inverse then seq(|x|, i requires 0 <= i < |x| => DivideBy(d[i], |x|)) else d
  }

  function DivideBy(a: Complex, n: nat): Complex
    requires n > 0
  {
    Complex(a.re / n as real, a.im / n as real)
  }

  lemma DivideScaled(a: Complex, n: nat)
    requires n > 0
    ensures DivideBy(Mul(a, Complex(n as real, 0.0)), n) == a
  {}

  /** The inverse transform of the forward transform is the original array. */
  lemma InverseOfForward(x: seq<Complex>, bits: nat, root: Twiddle)
    requires IsTwiddle(root) && |x| == Pow2(bits)
    ensures Transform(Transform(x, root, false), root, true) == x
  {
    var y := Transform(Transform(x, root, false), root, true);
    forall j | 0 <= j < |x|
      ensures y[j] == x[j]
    {
      TransformTwice(x, bits, root, false, j);
      DivideScaled(x[j], |x|);
    }
  }
}
