/** Complex arithmetic over exact reals, as `struct complex_value` is used by the FFT and the FIR engine. */
module ComplexNumbers {

  datatype Complex = Complex(re: real, im: real)

  const ZERO := Complex(0.0, 0.0)
  const ONE := Complex(1.0, 0.0)

  function Add(a: Complex, b: Complex): Complex {
    Complex(a.re + b.re, a.im + b.im)
  }

  function Sub(a: Complex, b: Complex): Complex {
    Complex(a.re - b.re, a.im - b.im)
  }

  function Mul(a: Complex, b: Complex): Complex {
    Complex(a.re * b.re - a.im * b.im, a.re * b.im + a.im * b.re)
  }

  function Scale(r: real, a: Complex): Complex {
    Complex(r * a.re, r * a.im)
  }

  function Conj(a: Complex): Complex {
    Complex(a.re, -a.im)
  }

  function Pow(z: Complex, k: nat): Complex {
    if k == 0 then ONE else Mul(z, Pow(z, k - 1))
  }

  lemma MulComm(a: Complex, b: Complex)
    ensures Mul(a, b) == Mul(b, a)
  {}

  lemma MulAssoc(a: Complex, b: Complex, c: Complex)
    ensures Mul(Mul(a, b), c) == Mul(a, Mul(b, c))
  {}

  lemma MulAdd(a: Complex, b: Complex, c: Complex)
    ensures Mul(a, Add(b, c)) == Add(Mul(a, b), Mul(a, c))
    ensures Mul(Add(b, c), a) == Add(Mul(b, a), Mul(c, a))
  {}

  lemma MulZero(a: Complex)
    ensures Mul(a, ZERO) == ZERO && Mul(ZERO, a) == ZERO
    ensures Mul(a, ONE) == a && Mul(ONE, a) == a
    ensures Add(a, ZERO) == a && Add(ZERO, a) == a
  {}

  /** The exchange law that every index calculation below ends in. */
  lemma MulSwap(a: Complex, b: Complex, c: Complex, d: Complex)
    ensures Mul(Mul(a, b), Mul(c, d)) == Mul(Mul(a, c), Mul(b, d))
  {
    hide *;
    MulAssoc(a, b, Mul(c, d));
    MulAssoc(b, c, d);
    MulComm(b, c);
    MulAssoc(c, b, d);
    MulAssoc(a, c, Mul(b, d));
  }

  /** The defining equation of Pow, for proofs that treat Mul as an abstract product (`hide *`). */
  lemma PowStep(z: Complex, k: nat)
    ensures Pow(z, 0) == ONE
    ensures Pow(z, k + 1) == Mul(z, Pow(z, k))
  {}

  lemma {:induction false} PowAdd(z: Complex, j: nat, k: nat)
    ensures Pow(z, j + k) == Mul(Pow(z, j), Pow(z, k))
  {
    hide *;
    PowStep(z, 0);
    if j == 0 {
      MulZero(Pow(z, k));
    } else {
      PowAdd(z, j - 1, k);
      MulAssoc(z, Pow(z, j - 1), Pow(z, k));
      PowStep(z, j - 1);
      PowStep(z, j + k - 1);
    }
  }

  lemma {:induction false} PowOfProduct(y: Complex, z: Complex, k: nat)
    ensures Pow(Mul(y, z), k) == Mul(Pow(y, k), Pow(z, k))
  {
    hide *;
    if k == 0 {
      PowStep(y, 0); PowStep(z, 0); PowStep(Mul(y, z), 0);
      MulZero(ONE);
    } else {
      PowStep(y, k - 1); PowStep(z, k - 1); PowStep(Mul(y, z), k - 1);
      PowOfProduct(y, z, k - 1);
      MulSwap(y, z, Pow(y, k - 1), Pow(z, k - 1));
    }
  }

  lemma {:induction false} PowOfPow(z: Complex, j: nat, k: nat)
    ensures Pow(Pow(z, j), k) == Pow(z, j * k)
  {
    hide *;
    PowStep(z, 0);
    PowStep(Pow(z, j), 0);
    if k != 0 {
      PowOfPow(z, j, k - 1);
      assert j * k == j + j * (k - 1);
      PowStep(Pow(z, j), k - 1);
      PowAdd(z, j, j * (k - 1));
    }
  }

  lemma {:induction false} PowOfOne(k: nat)
    ensures Pow(ONE, k) == ONE
  {
    hide *;
    PowStep(ONE, 0);
    if k > 0 {
      PowOfOne(k - 1);
      PowStep(ONE, k - 1);
      MulZero(ONE);
    }
  }

  lemma ConjMul(a: Complex, b: Complex)
    ensures Conj(Mul(a, b)) == Mul(Conj(a), Conj(b))
    ensures Conj(ONE) == ONE
  {}

  lemma {:induction false} ConjPow(z: Complex, k: nat)
    ensures Conj(Pow(z, k)) == Pow(Conj(z), k)
  {
    hide *;
    PowStep(z, 0); PowStep(Conj(z), 0);
    ConjMul(z, z);
    if k > 0 {
      ConjPow(z, k - 1);
      ConjMul(z, Pow(z, k - 1));
      PowStep(z, k - 1); PowStep(Conj(z), k - 1);
    }
  }
}
