/** `_fft` itself: loops that permute and rewrite the array they are given. */
module FftInPlace {
  import opened ComplexNumbers
  import opened Bits
  import opened Polynomials
  import opened Fft

  lemma {:induction false} BitReversedAt(x: seq<Complex>, bits: nat, k: nat)
    requires |x| == Pow2(bits) && k < |x|
    ensures BitReversed(x, bits)[k] == x[Rev(bits, k)]
    decreases bits
  {
    hide *;
    BitReversedStep(x, bits);
    if bits == 0 {
      Pow2Step(0);
    } else {
      LengthSplits(x, bits);
      var half := Pow2(bits - 1);
      var j := if k < half then k else k - half;
      BitReversedAt(Evens(x), bits - 1, j);
      BitReversedAt(Odds(x), bits - 1, j);
      RevHigh(bits - 1, j);
      SplitAt(x, Rev(bits - 1, j));
    }
  }

  lemma BitReversedStep(x: seq<Complex>, bits: nat)
    requires |x| == Pow2(bits)
    ensures bits == 0 ==> BitReversed(x, bits) == x
    ensures bits > 0 ==> |Evens(x)| == Pow2(bits - 1) == |Odds(x)|
    ensures bits > 0 ==> BitReversed(x, bits) == BitReversed(Evens(x), bits - 1) + BitReversed(Odds(x), bits - 1)
  {}

  lemma SplitAt(x: seq<Complex>, i: nat)
    requires 2 * i + 1 < |x|
    ensures Evens(x)[i] == x[2 * i] && Odds(x)[i] == x[2 * i + 1]
  {}

  lemma {:induction false} RevOfZero(bits: nat)
    ensures Rev(bits, 0) == 0
  {
    if bits > 0 {
      RevOfZero(bits - 1);
    }
  }

  /** The array part-way through the first loop: the pairs with a member below i have been exchanged. */
  ghost function Exchanged(x: seq<Complex>, bits: nat, i: nat): (r: seq<Complex>)
    requires |x| == Pow2(bits)
    ensures |r| == |x|
  {
    seq(|x|, k requires 0 <= k < |x| => if k < i || Rev(bits, k) < i then x[Rev(bits, k)] else x[k])
  }

  lemma ExchangeStarts(x: seq<Complex>, bits: nat)
    requires |x| == Pow2(bits)
    ensures Exchanged(x, bits, 1) == x
  {
    RevOfZero(bits);
    forall k | 0 <= k < |x|
      ensures Exchanged(x, bits, 1)[k] == x[k]
    {
      RevInvolution(bits, k);
      hide Rev;
    }
  }

  lemma ExchangeStep(x: seq<Complex>, bits: nat, i: nat)
    requires |x| == Pow2(bits) && i < |x|
    ensures
      var y, j := Exchanged(x, bits, i), Rev(bits, i);
      Exchanged(x, bits, i + 1) == if i < j then y[i := y[j]][j := y[i]] else y
  {
    hide Rev;
    var y, j := Exchanged(x, bits, i), Rev(bits, i);
    RevInvolution(bits, i);
    forall k | 0 <= k < |x|
      ensures Exchanged(x, bits, i + 1)[k] == if i < j then y[i := y[j]][j := y[i]][k] else y[k]
    {
      RevInvolution(bits, k);
    }
  }

  lemma ExchangeEnds(x: seq<Complex>, bits: nat)
    requires |x| == Pow2(bits)
    ensures Exchanged(x, bits, |x|) == BitReversed(x, bits)
  {
    forall k | 0 <= k < |x|
      ensures Exchanged(x, bits, |x|)[k] == BitReversed(x, bits)[k]
    {
      BitReversedAt(x, bits, k);
    }
  }

  /** The carry loop: the reversed counter takes the value that belongs to i. */
  method NextReversed(j0: nat, i: nat, n: nat, ghost bits: nat) returns (j: nat)
    requires n == Pow2(bits) && 1 <= i < n && j0 == Rev(bits, i - 1)
    ensures j == Rev(bits, i)
  {
    hide Has, Toggle, CarryDown, Rev;
    RevNext(bits, i - 1);
    j := j0;
    var bit: nat := n / 2;
    while Has(j, bit)
      invariant CarryDown(j, bit) == Rev(bits, i)
      decreases bit
    {
      CarryStep(j, bit);
      j := Toggle(j, bit);
      bit := bit / 2;
    }
    CarryStep(j, bit);
    j := Toggle(j, bit);
  }

  /** The first loop: a reversed counter j runs beside i, and each pair is exchanged once. */
  method BitReverse(a: array<Complex>, ghost bits: nat)
    requires a.Length == Pow2(bits)
    modifies a
    ensures a[..] == BitReversed(old(a[..]), bits)
  {
    hide Rev, BitReversed, Pow2;
    ghost var x := a[..];
    RevOfZero(bits);
    ExchangeStarts(x, bits);
    var i, j := 1, 0;
    while i < a.Length
      invariant 1 <= i <= a.Length
      invariant j == Rev(bits, i - 1)
      invariant a[..] == Exchanged(x, bits, i)
    {
      j := NextReversed(j, i, a.Length, bits);
      ExchangeStep(x, bits, i);
      if i < j {
        a[i], a[j] := a[j], a[i];
      }
      i := i + 1;
    }
    ExchangeEnds(x, bits);
  }

  /** The array after j steps of the innermost loop on the block that starts at `start`. */
  ghost function PartButterfly(b: seq<Complex>, start: nat, half: nat, w0: Complex, j: nat): (r: seq<Complex>)
    requires j <= half && start + 2 * half <= |b|
    ensures |r| == |b|
  {
    seq(|b|, k requires 0 <= k < |b| =>
      if start <= k < start + j then Add(b[k], Mul(b[k + half], Pow(w0, k - start)))
      else if start + half <= k < start + half + j then Sub(b[k - half], Mul(b[k], Pow(w0, k - half - start)))
      else b[k])
  }

  lemma PartButterflyStep(b: seq<Complex>, start: nat, half: nat, w0: Complex, j: nat)
    requires j < half && start + 2 * half <= |b|
    ensures
      var r := PartButterfly(b, start, half, w0, j);
      var u, v := r[start + j], Mul(r[start + half + j], Pow(w0, j));
      PartButterfly(b, start, half, w0, j + 1) == r[start + j := Add(u, v)][start + half + j := Sub(u, v)]
  {
    hide Add, Sub, Mul, Pow;
  }

  /** The array with the block that starts at `start` replaced by its butterfly. */
  ghost function WithButterfly(b: seq<Complex>, start: nat, half: nat, w0: Complex): (r: seq<Complex>)
    requires start + 2 * half <= |b|
    ensures |r| == |b|
  {
    b[..start] + Butterfly(b[start..start + half], b[start + half..start + 2 * half], w0) + b[start + 2 * half..]
  }

  lemma WithButterflyAt(b: seq<Complex>, start: nat, half: nat, w0: Complex, k: nat)
    requires start + 2 * half <= |b| && k < |b|
    ensures WithButterfly(b, start, half, w0)[k]
         == if start <= k < start + half then Add(b[k], Mul(b[k + half], Pow(w0, k - start)))
            else if start + half <= k < start + 2 * half then Sub(b[k - half], Mul(b[k], Pow(w0, k - half - start)))
            else b[k]
  {
    hide Add, Sub, Mul, Pow, Butterfly;
    var e, o := b[start..start + half], b[start + half..start + 2 * half];
    var y := Butterfly(e, o, w0);
    assert WithButterfly(b, start, half, w0) == b[..start] + y + b[start + 2 * half..];
    if start <= k < start + half {
      ButterflyAt(e, o, w0, k - start);
    } else if start + half <= k < start + 2 * half {
      ButterflyAt(e, o, w0, k - half - start);
    }
  }

  lemma PartButterflyStarts(b: seq<Complex>, start: nat, half: nat, w0: Complex)
    requires start + 2 * half <= |b|
    ensures PartButterfly(b, start, half, w0, 0) == b
  {
    hide Add, Sub, Mul, Pow;
  }

  lemma PartButterflyEnds(b: seq<Complex>, start: nat, half: nat, w0: Complex)
    requires start + 2 * half <= |b|
    ensures PartButterfly(b, start, half, w0, half) == WithButterfly(b, start, half, w0)
  {
    hide Add, Sub, Mul, Pow, WithButterfly;
    forall k | 0 <= k < |b|
      ensures PartButterfly(b, start, half, w0, half)[k] == WithButterfly(b, start, half, w0)[k]
    {
      WithButterflyAt(b, start, half, w0, k);
    }
  }

  /** The innermost loop: one butterfly, with the twiddle power carried from step to step. */
  method ButterflyBlock(a: array<Complex>, start: nat, half: nat, w0: Complex)
    requires start + 2 * half <= a.Length
    modifies a
    ensures a[..] == WithButterfly(old(a[..]), start, half, w0)
  {
    hide *;
    ghost var b := a[..];
    PartButterflyStarts(b, start, half, w0);
    PartButterflyEnds(b, start, half, w0);
    PowStep(w0, 0);
    var w := ONE;
    var j := 0;
    while j < half
      invariant 0 <= j <= half
      invariant w == Pow(w0, j)
      invariant a[..] == PartButterfly(b, start, half, w0, j)
    {
      var u, v := a[start + j], Mul(a[start + half + j], w);
      PartButterflyStep(b, start, half, w0, j);
      PowStep(w0, j);
      MulComm(w, w0);
      w := Mul(w, w0);
      a[start + j] := Add(u, v);
      a[start + half + j] := Sub(u, v);
      j := j + 1;
    }
  }

  lemma BlocksStep(n: nat, len: nat)
    requires len > 0
    ensures Blocks(0, len)
    ensures n > 0 && Blocks(n, len) ==> n >= len && Blocks(n - len, len)
  {}

  /** The array after the middle loop has done the blocks before `start`. */
  ghost function PartPass(x: seq<Complex>, start: nat, half: nat, w0: Complex): seq<Complex>
    requires half > 0 && start <= |x| && Blocks(start, 2 * half)
  {
    Pass(x[..start], half, w0) + x[start..]
  }

  lemma PartPassEnds(x: seq<Complex>, half: nat, w0: Complex)
    requires half > 0 && Blocks(|x|, 2 * half)
    ensures Blocks(0, 2 * half) && PartPass(x, 0, half, w0) == x
    ensures PartPass(x, |x|, half, w0) == Pass(x, half, w0)
  {
    hide Pass;
    PassStep([], half, w0);
    assert x[..0] == [] && x[..|x|] == x;
  }

  lemma WithButterflyParts(p: seq<Complex>, e: seq<Complex>, o: seq<Complex>, r: seq<Complex>, w0: Complex)
    requires |e| == |o|
    ensures WithButterfly(p + e + o + r, |p|, |e|, w0) == p + Butterfly(e, o, w0) + r
  {
    hide Butterfly;
    var b := p + e + o + r;
    assert b[..|p|] == p && b[|p|..|p| + |e|] == e;
    assert b[|p| + |e|..|p| + 2 * |e|] == o && b[|p| + 2 * |e|..] == r;
  }

  lemma PartPassHere(x: seq<Complex>, start: nat, half: nat, w0: Complex)
    requires half > 0 && start + 2 * half <= |x| && Blocks(start, 2 * half)
    ensures PartPass(x, start, half, w0)
         == Pass(x[..start], half, w0) + x[start..start + half] + x[start + half..start + 2 * half]
            + x[start + 2 * half..]
  {
    hide Pass, Blocks;
    var e, o, r := x[start..start + half], x[start + half..start + 2 * half], x[start + 2 * half..];
    assert x[start..] == e + o + r;
  }

  lemma PartPassNext(x: seq<Complex>, start: nat, half: nat, w0: Complex)
    requires half > 0 && start + 2 * half <= |x| && Blocks(start, 2 * half)
    ensures Blocks(start + 2 * half, 2 * half)
    ensures PartPass(x, start + 2 * half, half, w0)
         == Pass(x[..start], half, w0) + Butterfly(x[start..start + half], x[start + half..start + 2 * half], w0)
            + x[start + 2 * half..]
  {
    hide Pass, Blocks, Butterfly;
    var e, o := x[start..start + half], x[start + half..start + 2 * half];
    assert x[..start + 2 * half] == x[..start] + (e + o);
    PassOfOneBlock(e, o, w0);
    PassSplit(x[..start], e + o, half, w0);
  }

  lemma PartPassStep(x: seq<Complex>, start: nat, half: nat, w0: Complex)
    requires half > 0 && start < |x| && Blocks(start, 2 * half) && Blocks(|x| - start, 2 * half)
    ensures start + 2 * half <= |x|
    ensures Blocks(start + 2 * half, 2 * half) && Blocks(|x| - start - 2 * half, 2 * half)
    ensures |PartPass(x, start, half, w0)| == |x|
    ensures WithButterfly(PartPass(x, start, half, w0), start, half, w0) == PartPass(x, start + 2 * half, half, w0)
  {
    hide *;
    BlocksStep(|x| - start, 2 * half);
    PartPassHere(x, start, half, w0);
    PartPassNext(x, start, half, w0);
    WithButterflyParts(Pass(x[..start], half, w0), x[start..start + half], x[start + half..start + 2 * half],
                       x[start + 2 * half..], w0);
  }

  /** The middle loop: a butterfly in each block of length 2 half. */
  method ButterflyPass(a: array<Complex>, half: nat, w0: Complex)
    requires half > 0 && Blocks(a.Length, 2 * half)
    modifies a
    ensures a[..] == Pass(old(a[..]), half, w0)
  {
    hide *;
    ghost var x := a[..];
    var start := 0;
    PartPassEnds(x, half, w0);
    while start < a.Length
      invariant 0 <= start <= a.Length && Blocks(start, 2 * half) && Blocks(a.Length - start, 2 * half)
      invariant a[..] == PartPass(x, start, half, w0)
    {
      PartPassStep(x, start, half, w0);
      ButterflyBlock(a, start, half, w0);
      start := start + 2 * half;
    }
  }

  lemma {:induction false} Pow2Order(s: nat, bits: nat)
    ensures s < bits <==> Pow2(s + 1) <= Pow2(bits)
    decreases bits
  {
    if s > 0 && bits > 0 {
      Pow2Order(s - 1, bits - 1);
    }
  }

  /** The scaling loop that only the inverse transform runs. */
  method DivideAll(a: array<Complex>)
    modifies a
    ensures forall k | 0 <= k < a.Length :: a[k] == DivideBy(old(a[k]), a.Length)
  {
    var i := 0;
    while i < a.Length
      invariant 0 <= i <= a.Length
      invariant forall k | 0 <= k < i :: a[k] == DivideBy(old(a[k]), a.Length)
      invariant forall k | i <= k < a.Length :: a[k] == old(a[k])
    {
      a[i] := DivideBy(a[i], a.Length);
      i := i + 1;
    }
  }

  /** `_fft`: leaves the discrete Fourier transform of the array in the array, or its inverse. */
  method InPlaceFft(a: array<Complex>, root: Twiddle, inverse: bool, ghost bits: nat)
    requires IsTwiddle(root) && a.Length == Pow2(bits)
    modifies a
    ensures a[..] == Transform(old(a[..]), root, inverse)
  {
    hide Pass, Staged, Dft, BitReversed, Pow2, Blocks, IsTwiddle;
    ghost var x := a[..];
    BitReverse(a, bits);
    StagedZero(x, bits, root, inverse);
    ghost var s := 0;
    var len := 2;
    Pow2Step(0);
    while len <= a.Length
      invariant 0 <= s <= bits && len == 2 * Pow2(s)
      invariant a[..] == Staged(x, bits, s, root, inverse)
      decreases a.Length - len
    {
      Pow2Order(s, bits);
      Pow2Step(s);
      PassAdvances(x, bits, s, root, inverse);
      ButterflyPass(a, len / 2, Factor(root, inverse, len));
      s := s + 1;
      len := 2 * len;
    }
    Pow2Order(s, bits);
    Pow2Step(s);
    StagedIsDft(x, bits, root, inverse);
    ghost var d := a[..];
    if inverse {
      DivideAll(a);
    }
    assert a[..] == Transform(x, root, inverse);
  }
}
