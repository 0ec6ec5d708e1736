/** Polynomial evaluation, the meaning given to one DFT bin, and the sums behind the inversion theorem. */
module Polynomials {
  import opened ComplexNumbers

  /** x[0] + x[1] z + x[2] z^2 + ... */
  function Poly(x: seq<Complex>, z: Complex): Complex {
    if x == [] then ZERO else Add(x[0], Mul(z, Poly(x[1..], z)))
  }

  function Evens(x: seq<Complex>): (e: seq<Complex>)
    ensures |e| == (|x| + 1) / 2
  {
    seq((|x| + 1) / 2, i requires 0 <= i < (|x| + 1) / 2 => x[2 * i])
  }

  function Odds(x: seq<Complex>): (o: seq<Complex>)
    ensures |o| == |x| / 2
  {
    seq(|x| / 2, i requires 0 <= i < |x| / 2 => x[2 * i + 1])
  }

  lemma PolyStep(x: seq<Complex>, z: Complex)
    ensures x == [] ==> Poly(x, z) == ZERO
    ensures x != [] ==> Poly(x, z) == Add(x[0], Mul(z, Poly(x[1..], z)))
  {}

  lemma TwoStepRing(a: Complex, b: Complex, z: Complex, e: Complex, o: Complex)
    ensures Add(a, Mul(z, Add(b, Mul(z, Add(e, Mul(z, o))))))
         == Add(Add(a, Mul(Mul(z, z), e)), Mul(z, Add(b, Mul(Mul(z, z), o))))
  {
    hide *;
    var zz := Mul(z, z);
    MulAdd(z, b, Mul(z, Add(e, Mul(z, o))));
    MulAssoc(z, z, Add(e, Mul(z, o)));
    MulAdd(zz, e, Mul(z, o));
    MulAdd(z, b, Mul(zz, o));
    MulAssoc(zz, z, o); MulComm(zz, z); MulAssoc(z, zz, o);
    var p, q, r, s := Mul(z, b), Mul(zz, e), Mul(z, Mul(zz, o)), a;
    AddRearrange(s, p, q, r);
  }

  lemma AddRearrange(a: Complex, p: Complex, q: Complex, r: Complex)
    ensures Add(a, Add(p, Add(q, r))) == Add(Add(a, q), Add(p, r))
  {}

  /** A polynomial splits into its even and odd coefficients, evaluated at the square. */
  lemma {:induction false} PolySplit(x: seq<Complex>, z: Complex)
    ensures Poly(x, z) == Add(Poly(Evens(x), Mul(z, z)), Mul(z, Poly(Odds(x), Mul(z, z))))
  {
    if |x| < 2 {
      assert |x| == 1 ==> Evens(x) == x;
      assert |x| == 0 ==> Evens(x) == [];
      assert Odds(x) == [];
      PolyTiny(x, z);
    } else {
      var y := x[2..];
      assert x[1..][1..] == y;
      assert Evens(x) == [x[0]] + Evens(y);
      assert Odds(x) == [x[1]] + Odds(y);
      assert Evens(x)[1..] == Evens(y) && Odds(x)[1..] == Odds(y);
      hide *;
      var zz := Mul(z, z);
      PolySplit(y, z);
      PolyStep(x, z); PolyStep(x[1..], z);
      PolyStep(Evens(x), zz); PolyStep(Odds(x), zz);
      TwoStepRing(x[0], x[1], z, Poly(Evens(y), zz), Poly(Odds(y), zz));
    }
  }

  lemma PolyTiny(x: seq<Complex>, z: Complex)
    requires |x| < 2
    ensures Poly(x, z) == Add(Poly(x, Mul(z, z)), Mul(z, Poly([], Mul(z, z))))
  {
    hide *;
    var zz := Mul(z, z);
    PolyStep([], z); PolyStep([], zz);
    MulZero(z); MulZero(zz);
    MulZero(ZERO);
    if |x| == 1 {
      assert x[1..] == [];
      PolyStep(x, z); PolyStep(x, zz);
      MulZero(x[0]);
    }
  }

  /** Appending a coefficient of degree |x|. */
  lemma {:induction false} PolySnoc(x: seq<Complex>, c: Complex, z: Complex)
    ensures Poly(x + [c], z) == Add(Poly(x, z), Mul(Pow(z, |x|), c))
  {
    hide *;
    PolyStep([], z);
    if x == [] {
      assert x + [c] == [c] && [c][1..] == [];
      PolyStep([c], z); PowStep(z, 0);
      MulZero(c); MulZero(z);
    } else {
      var y := x[1..];
      assert (x + [c])[1..] == y + [c];
      PolySnoc(y, c, z);
      PolyStep(x, z); PolyStep(x + [c], z);
      PowStep(z, |y|);
      MulAdd(z, Poly(y, z), Mul(Pow(z, |y|), c));
      MulAssoc(z, Pow(z, |y|), c);
      AddAssoc(x[0], Mul(z, Poly(y, z)), Mul(Pow(z, |x|), c));
    }
  }

  lemma AddAssoc(a: Complex, b: Complex, c: Complex)
    ensures Add(Add(a, b), c) == Add(a, Add(b, c))
    ensures Add(a, b) == Add(b, a)
  {}

  /** Trailing zero coefficients change nothing. */
  lemma {:induction false} PolyPad(x: seq<Complex>, k: nat, z: Complex)
    ensures Poly(x + seq(k, _ => ZERO), z) == Poly(x, z)
  {
    if k == 0 {
      assert x + seq(k, _ => ZERO) == x;
    } else {
      var y := x + seq(k - 1, _ => ZERO);
      assert x + seq(k, _ => ZERO) == y + [ZERO];
      PolyPad(x, k - 1, z);
      hide *;
      PolySnoc(y, ZERO, z);
      MulZero(Pow(z, |y|));
      MulZero(Poly(y, z));
    }
  }

  /** 1 + z + ... + z^(n-1) */
  function Geometric(z: Complex, n: nat): Complex {
    if n == 0 then ZERO else Add(Geometric(z, n - 1), Pow(z, n - 1))
  }

  lemma GeometricStep(z: Complex, n: nat)
    ensures Geometric(z, 0) == ZERO
    ensures Geometric(z, n + 1) == Add(Geometric(z, n), Pow(z, n))
  {}

  lemma {:induction false} GeometricOfOne(n: nat)
    ensures Geometric(ONE, n) == Complex(n as real, 0.0)
  {
    hide *;
    GeometricStep(ONE, 0);
    AddOne(n as real - 1.0);
    if n > 0 {
      GeometricOfOne(n - 1);
      PowOfOne(n - 1);
      GeometricStep(ONE, n - 1);
    }
  }

  lemma AddOne(r: real)
    ensures Add(Complex(r, 0.0), ONE) == Complex(r + 1.0, 0.0)
    ensures ZERO == Complex(0.0, 0.0)
  {}

  /** The first n + m powers are the first n, and z^n times the first m. */
  lemma {:induction false} GeometricSplit(z: Complex, n: nat, m: nat)
    ensures Geometric(z, n + m) == Add(Geometric(z, n), Mul(Pow(z, n), Geometric(z, m)))
  {
    hide *;
    GeometricStep(z, 0);
    if m == 0 {
      MulZero(Pow(z, n)); MulZero(Geometric(z, n));
    } else {
      GeometricSplit(z, n, m - 1);
      GeometricStep(z, n + m - 1);
      GeometricStep(z, m - 1);
      PowAdd(z, n, m - 1);
      MulAdd(Pow(z, n), Geometric(z, m - 1), Pow(z, m - 1));
      AddAssoc(Geometric(z, n), Mul(Pow(z, n), Geometric(z, m - 1)), Pow(z, n + m - 1));
    }
  }

  /** Sum over k < n of z^k (w^k)^o x[o..](w^k): the DFT of x summed against powers of z, from coefficient o on. */
  ghost function CrossSum(x: seq<Complex>, o: nat, w: Complex, z: Complex, n: nat): Complex
    requires o <= |x|
  {
    if n == 0 then ZERO
    else Add(CrossSum(x, o, w, z, n - 1), CrossTerm(x, o, w, z, n - 1))
  }

  ghost function CrossTerm(x: seq<Complex>, o: nat, w: Complex, z: Complex, k: nat): Complex
    requires o <= |x|
  {
    Mul(Pow(z, k), Mul(Pow(Pow(w, k), o), Poly(x[o..], Pow(w, k))))
  }

  lemma CrossSumStep(x: seq<Complex>, o: nat, w: Complex, z: Complex, n: nat)
    requires o <= |x|
    ensures CrossSum(x, o, w, z, 0) == ZERO
    ensures CrossSum(x, o, w, z, n + 1) == Add(CrossSum(x, o, w, z, n), CrossTerm(x, o, w, z, n))
    ensures CrossTerm(x, o, w, z, n) == Mul(Pow(z, n), Mul(Pow(Pow(w, n), o), Poly(x[o..], Pow(w, n))))
  {}

  lemma PeelRing(zk: Complex, p: Complex, c: Complex, wk: Complex, t: Complex)
    ensures Mul(zk, Mul(p, Add(c, Mul(wk, t)))) == Add(Mul(c, Mul(zk, p)), Mul(zk, Mul(Mul(wk, p), t)))
  {
    hide *;
    MulAdd(p, c, Mul(wk, t));
    MulAdd(zk, Mul(p, c), Mul(p, Mul(wk, t)));
    MulAssoc(zk, p, c); MulComm(Mul(zk, p), c);
    MulAssoc(p, wk, t); MulComm(p, wk);
  }

  lemma PeelTerm(x: seq<Complex>, o: nat, w: Complex, z: Complex, k: nat)
    requires o < |x|
    ensures CrossTerm(x, o, w, z, k)
         == Add(Mul(x[o], Pow(Mul(z, Pow(w, o)), k)), CrossTerm(x, o + 1, w, z, k))
  {
    hide *;
    var wk := Pow(w, k);
    CrossSumStep(x, o, w, z, k); CrossSumStep(x, o + 1, w, z, k);
    assert x[o..][1..] == x[o + 1..];
    PolyStep(x[o..], wk);
    PowStep(wk, o);
    PeelRing(Pow(z, k), Pow(wk, o), x[o], wk, Poly(x[o + 1..], wk));
    PowOfProduct(z, Pow(w, o), k);
    PowOfPow(w, k, o); PowOfPow(w, o, k);
    assert k * o == o * k;
  }

  /** One coefficient of x contributes x[o] times a geometric sum. */
  lemma {:induction false} PeelCoefficient(x: seq<Complex>, o: nat, w: Complex, z: Complex, n: nat)
    requires o < |x|
    ensures CrossSum(x, o, w, z, n)
         == Add(Mul(x[o], Geometric(Mul(z, Pow(w, o)), n)), CrossSum(x, o + 1, w, z, n))
  {
    hide *;
    var y := Mul(z, Pow(w, o));
    CrossSumStep(x, o, w, z, 0); CrossSumStep(x, o + 1, w, z, 0);
    GeometricStep(y, 0);
    if n == 0 {
      MulZero(x[o]); MulZero(ZERO);
    } else {
      PeelCoefficient(x, o, w, z, n - 1);
      CrossSumStep(x, o, w, z, n - 1); CrossSumStep(x, o + 1, w, z, n - 1);
      GeometricStep(y, n - 1);
      PeelTerm(x, o, w, z, n - 1);
      MulAdd(x[o], Geometric(y, n - 1), Pow(y, n - 1));
      AddMiddle(Mul(x[o], Geometric(y, n - 1)), CrossSum(x, o + 1, w, z, n - 1),
                Mul(x[o], Pow(y, n - 1)), CrossTerm(x, o + 1, w, z, n - 1));
    }
  }

  lemma AddMiddle(a: Complex, b: Complex, c: Complex, d: Complex)
    ensures Add(Add(a, b), Add(c, d)) == Add(Add(a, c), Add(b, d))
  {}
}
