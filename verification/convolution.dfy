/** Direct FIR convolution over the reals, how it decomposes into blocks and partitions, and the convolution theorem. */
module Convolution {
  import opened ComplexNumbers
  import opened Polynomials

  /** x[i], and zero outside the sequence. */
  function At(x: seq<real>, i: int): real {
    if 0 <= i < |x| then x[i] else 0.0
  }

  /** The direct FIR: h[0] x[n] + h[1] x[n-1] + ... */
  function Conv(x: seq<real>, h: seq<real>, n: int): real {
    if h == [] then 0.0 else h[0] * At(x, n) + Conv(x, h[1..], n - 1)
  }

  lemma ConvStep(x: seq<real>, h: seq<real>, n: int)
    ensures h == [] ==> Conv(x, h, n) == 0.0
    ensures h != [] ==> Conv(x, h, n) == h[0] * At(x, n) + Conv(x, h[1..], n - 1)
  {}

  /** A unit impulse brings out the taps, one after another. */
  lemma {:induction false} ImpulseResponse(h: seq<real>, n: int)
    ensures Conv([1.0], h, n) == if 0 <= n < |h| then h[n] else 0.0
  {
    if h != [] {
      ImpulseResponse(h[1..], n - 1);
      if n < 0 {
        assert At([1.0], n) == 0.0;
      }
    }
  }

  /** Causality: only x[0..n] matters, and nothing comes out before the first sample. */
  lemma {:induction false} ConvAgrees(x: seq<real>, y: seq<real>, h: seq<real>, n: int)
    requires forall i :: i <= n ==> At(x, i) == At(y, i)
    ensures Conv(x, h, n) == Conv(y, h, n)
    decreases |h|
  {
    if h != [] {
      ConvAgrees(x, y, h[1..], n - 1);
    }
  }

  lemma {:induction false} ConvSilent(x: seq<real>, h: seq<real>, n: int)
    requires forall i :: i <= n ==> At(x, i) == 0.0
    ensures Conv(x, h, n) == 0.0
    decreases |h|
  {
    if h != [] {
      ConvSilent(x, h[1..], n - 1);
    }
  }

  lemma {:induction false} ConvAppendTaps(x: seq<real>, g: seq<real>, h: seq<real>, n: int)
    ensures Conv(x, g + h, n) == Conv(x, g, n) + Conv(x, h, n - |g|)
  {
    hide Conv, At;
    ConvStep(x, g, n); ConvStep(x, g + h, n);
    if g == [] {
      assert g + h == h;
    } else {
      assert (g + h)[1..] == g[1..] + h;
      ConvAppendTaps(x, g[1..], h, n - 1);
    }
  }

  lemma {:induction false} ConvZeroTaps(x: seq<real>, h: seq<real>, n: int)
    requires forall i | 0 <= i < |h| :: h[i] == 0.0
    ensures Conv(x, h, n) == 0.0
    decreases |h|
  {
    if h != [] {
      ConvZeroTaps(x, h[1..], n - 1);
    }
  }

  // ---------------------------------------------------------------- blocks and partitions

  /** P samples from position `from` on, with zeros outside the signal. */
  function Segment(x: seq<real>, from: int, P: nat): (r: seq<real>)
    ensures |r| == P
    ensures forall i | 0 <= i < P :: r[i] == At(x, from + i)
  {
    seq(P, i requires 0 <= i < P => At(x, from + i))
  }

  /** Block b of length P of a signal, or partition b of a filter. */
  function Block(x: seq<real>, b: int, P: nat): (r: seq<real>)
    ensures |r| == P
  {
    Segment(x, b * P, P)
  }

  /** One block of output needs two blocks of input: the part that starts here and the tail of the one before. */
  lemma {:induction false} OverlapAdd(x: seq<real>, h: seq<real>, P: nat, b: int, j: int)
    requires j < P && |h| <= P + j + 1
    ensures Conv(x, h, b * P + j) == Conv(Block(x, b, P), h, j) + Conv(Block(x, b - 1, P), h, P + j)
    decreases |h|
  {
    hide Conv, At;
    var n := b * P + j;
    ConvStep(x, h, n); ConvStep(Block(x, b, P), h, j); ConvStep(Block(x, b - 1, P), h, P + j);
    if h != [] {
      OverlapAdd(x, h[1..], P, b, j - 1);
      SampleOfBlocks(x, P, b, j);
      var u, v := At(Block(x, b, P), j), At(Block(x, b - 1, P), P + j);
      assert h[0] * (u + v) == h[0] * u + h[0] * v;
    }
  }

  lemma SampleOfBlocks(x: seq<real>, P: nat, b: int, j: int)
    requires 0 <= j + P && j < P
    ensures At(x, b * P + j) == At(Block(x, b, P), j) + At(Block(x, b - 1, P), P + j)
  {
    assert (b - 1) * P + (P + j) == b * P + j;
    if j >= 0 {
      assert Block(x, b, P)[j] == At(x, b * P + j);
    } else {
      assert Block(x, b - 1, P)[P + j] == At(x, (b - 1) * P + (P + j));
    }
  }

  function Take(h: seq<real>, m: nat): seq<real> {
    if m <= |h| then h[..m] else h
  }

  /** Sum over the first k partitions of the filter, each delayed by its offset. */
  function PartitionSum(x: seq<real>, h: seq<real>, P: nat, k: nat, n: int): real {
    if k == 0 then 0.0
    else PartitionSum(x, h, P, k - 1, n) + Conv(x, Block(h, k - 1, P), n - (k - 1) * P)
  }

  lemma PartitionSumStep(x: seq<real>, h: seq<real>, P: nat, k: nat, n: int)
    ensures PartitionSum(x, h, P, 0, n) == 0.0
    ensures PartitionSum(x, h, P, k + 1, n) == PartitionSum(x, h, P, k, n) + Conv(x, Block(h, k, P), n - k * P)
  {}

  lemma NextPartition(x: seq<real>, h: seq<real>, P: nat, k: nat, n: int)
    ensures Conv(x, Take(h, (k + 1) * P), n) == Conv(x, Take(h, k * P), n) + Conv(x, Block(h, k, P), n - k * P)
  {
    var s := k * P;
    assert (k + 1) * P == s + P;
    PartitionTaps(x, h, P, s, n);
  }

  lemma PartitionTaps(x: seq<real>, h: seq<real>, P: nat, s: nat, n: int)
    ensures Conv(x, Take(h, s + P), n)
         == Conv(x, Take(h, s), n) + Conv(x, Segment(h, s, P), n - s)
  {
    hide Conv;
    var part := Segment(h, s, P);
    if s >= |h| {
      assert Take(h, s) == h && Take(h, s + P) == h;
      ConvZeroTaps(x, part, n - s);
    } else {
      var taps := Take(h, s + P)[s..];
      var zeros := part[|taps|..];
      assert part == taps + zeros;
      ConvAppendTaps(x, taps, zeros, n - s);
      ConvZeroTaps(x, zeros, n - s - |taps|);
      assert Take(h, s + P) == Take(h, s) + taps;
      ConvAppendTaps(x, Take(h, s), taps, n);
    }
  }

  /** Partitioning the filter changes nothing. */
  lemma {:induction false} PartitionsAddUp(x: seq<real>, h: seq<real>, P: nat, k: nat, n: int)
    ensures PartitionSum(x, h, P, k, n) == Conv(x, Take(h, k * P), n)
  {
    hide *;
    PartitionSumStep(x, h, P, 0, n);
    if k == 0 {
      TakeNone(h);
      ConvStep(x, [], n);
      assert 0 * P == 0;
    } else {
      PartitionsAddUp(x, h, P, k - 1, n);
      PartitionSumStep(x, h, P, k - 1, n);
      NextPartition(x, h, P, k - 1, n);
    }
  }

  lemma TakeNone(h: seq<real>)
    ensures Take(h, 0) == []
  {}

  /** Sample i of the (unwrapped) product of block b with the whole filter, k partitions of it. */
  function BlockSum(x: seq<real>, h: seq<real>, P: nat, k: nat, b: int, i: int): real {
    if k == 0 then 0.0
    else BlockSum(x, h, P, k - 1, b, i) + Conv(Block(x, b - (k - 1), P), Block(h, k - 1, P), i)
  }

  lemma BlockSumStep(x: seq<real>, h: seq<real>, P: nat, k: nat, b: int, i: int)
    ensures BlockSum(x, h, P, 0, b, i) == 0.0
    ensures BlockSum(x, h, P, k + 1, b, i)
         == BlockSum(x, h, P, k, b, i) + Conv(Block(x, b - k, P), Block(h, k, P), i)
  {}

  lemma {:induction false} BlocksMakePartitions(x: seq<real>, h: seq<real>, P: nat, k: nat, b: int, i: nat)
    requires i < P
    ensures PartitionSum(x, h, P, k, b * P + i) == BlockSum(x, h, P, k, b, i) + BlockSum(x, h, P, k, b - 1, P + i)
  {
    hide *;
    PartitionSumStep(x, h, P, 0, b * P + i);
    BlockSumStep(x, h, P, 0, b, i); BlockSumStep(x, h, P, 0, b - 1, P + i);
    if k > 0 {
      var p := k - 1;
      BlocksMakePartitions(x, h, P, p, b, i);
      PartitionSumStep(x, h, P, p, b * P + i);
      BlockSumStep(x, h, P, p, b, i); BlockSumStep(x, h, P, p, b - 1, P + i);
      assert b * P + i - p * P == (b - p) * P + i;
      BlockLength(h, p, P);
      OverlapAdd(x, Block(h, p, P), P, b - p, i);
      assert b - p - 1 == b - 1 - p;
    }
  }

  lemma BlockLength(x: seq<real>, b: int, P: nat)
    ensures |Block(x, b, P)| == P
  {}

  /** Overlap-add over all partitions is the direct FIR, for enough partitions to hold every tap. */
  lemma OverlapAddIsConvolution(x: seq<real>, h: seq<real>, P: nat, count: nat, b: int, i: nat)
    requires i < P && |h| <= count * P
    ensures BlockSum(x, h, P, count, b, i) + BlockSum(x, h, P, count, b - 1, P + i) == Conv(x, h, b * P + i)
  {
    hide Conv, BlockSum, PartitionSum, At, Block;
    BlocksMakePartitions(x, h, P, count, b, i);
    PartitionsAddUp(x, h, P, count, b * P + i);
    assert Take(h, count * P) == h;
  }

  // ---------------------------------------------------------------- the convolution theorem

  function Embed(x: seq<real>): (c: seq<Complex>)
    ensures |c| == |x|
  {
    seq(|x|, i requires 0 <= i < |x| => Complex(x[i], 0.0))
  }

  function Zeros(k: nat): (c: seq<Complex>)
    ensures |c| == k
  {
    seq(k, _ => ZERO)
  }

  lemma {:induction false} PolyAdd(a: seq<Complex>, b: seq<Complex>, z: Complex)
    requires |a| == |b|
    ensures Poly(seq(|a|, i requires 0 <= i < |a| => Add(a[i], b[i])), z) == Add(Poly(a, z), Poly(b, z))
  {
    hide Poly, Add, Mul;
    var s := seq(|a|, i requires 0 <= i < |a| => Add(a[i], b[i]));
    PolyStep(a, z); PolyStep(b, z); PolyStep(s, z);
    if a == [] {
      MulZero(ZERO);
    } else {
      var a', b' := a[1..], b[1..];
      assert s[1..] == seq(|a'|, i requires 0 <= i < |a'| => Add(a'[i], b'[i]));
      PolyAdd(a', b', z);
      MulAdd(z, Poly(a', z), Poly(b', z));
      AddMiddle(a[0], Mul(z, Poly(a', z)), b[0], Mul(z, Poly(b', z)));
    }
  }

  lemma {:induction false} PolyScale(c: Complex, a: seq<Complex>, z: Complex)
    ensures Poly(seq(|a|, i requires 0 <= i < |a| => Mul(c, a[i])), z) == Mul(c, Poly(a, z))
  {
    hide Poly, Add, Mul;
    var s := seq(|a|, i requires 0 <= i < |a| => Mul(c, a[i]));
    PolyStep(a, z); PolyStep(s, z);
    if a == [] {
      MulZero(c);
    } else {
      var a' := a[1..];
      assert s[1..] == seq(|a'|, i requires 0 <= i < |a'| => Mul(c, a'[i]));
      PolyScale(c, a', z);
      MulAdd(c, a[0], Mul(z, Poly(a', z)));
      MulAssoc(c, z, Poly(a', z)); MulComm(c, z); MulAssoc(z, c, Poly(a', z));
    }
  }

  lemma {:induction false} PolyOfZeros(k: nat, z: Complex)
    ensures Poly(Zeros(k), z) == ZERO
  {
    assert Zeros(k) == [] + seq(k, _ => ZERO);
    hide *;
    PolyPad([], k, z);
    PolyStep([], z);
  }

  /** The first N samples of the direct convolution. */
  function ConvSeq(x: seq<real>, h: seq<real>, N: nat): (r: seq<real>)
    ensures |r| == N
  {
    seq(N, i requires 0 <= i < N => Conv(x, h, i))
  }

  /** Dropping the first tap: a scaled copy of x plus the rest shifted by one. */
  lemma ConvSeqPeel(x: seq<real>, h: seq<real>, N: nat)
    requires h != [] && N >= |x| && N > 0
    ensures
      var c := Complex(h[0], 0.0);
      var padded := Embed(x) + Zeros(N - |x|);
      var shifted := [ZERO] + Embed(ConvSeq(x, h[1..], N - 1));
      Embed(ConvSeq(x, h, N)) == seq(N, i requires 0 <= i < N =>
        Add(seq(N, t requires 0 <= t < N => Mul(c, padded[t]))[i], shifted[i]))
  {
    var c := Complex(h[0], 0.0);
    var padded := Embed(x) + Zeros(N - |x|);
    var shifted := [ZERO] + Embed(ConvSeq(x, h[1..], N - 1));
    forall i | 0 <= i < N
      ensures Embed(ConvSeq(x, h, N))[i] == Add(Mul(c, padded[i]), shifted[i])
    {
      ConvStep(x, h, i);
      hide Conv;
      assert padded[i] == Complex(At(x, i), 0.0);
      if i == 0 {
        ConvSilent(x, h[1..], -1);
      } else {
        assert shifted[i] == Complex(Conv(x, h[1..], i - 1), 0.0);
      }
    }
  }

  /** The peeled convolution as a polynomial: the scaled copy, and the rest times z. */
  lemma PolyPeel(x: seq<real>, h: seq<real>, N: nat, z: Complex)
    requires h != [] && N >= |x| && N > 0
    ensures Poly(Embed(ConvSeq(x, h, N)), z)
         == Add(Mul(Complex(h[0], 0.0), Poly(Embed(x), z)), Mul(z, Poly(Embed(ConvSeq(x, h[1..], N - 1)), z)))
  {
    var c := Complex(h[0], 0.0);
    var padded := Embed(x) + Zeros(N - |x|);
    var scaled := seq(N, t requires 0 <= t < N => Mul(c, padded[t]));
    var tail := Embed(ConvSeq(x, h[1..], N - 1));
    var shifted := [ZERO] + tail;
    ConvSeqPeel(x, h, N);
    assert shifted[1..] == tail;
    assert Zeros(N - |x|) == seq(N - |x|, _ => ZERO);
    hide *;
    PolyPad(Embed(x), N - |x|, z);
    PolyScale(c, padded, z);
    PolyAdd(scaled, shifted, z);
    PolyStep(shifted, z);
    MulZero(Mul(z, Poly(tail, z)));
  }

  /** Multiplying the two polynomials convolves their coefficients, when there is room for the tail. */
  lemma {:induction false} ConvolutionTheorem(x: seq<real>, h: seq<real>, N: nat, z: Complex)
    requires |x| + |h| <= N
    ensures Poly(Embed(ConvSeq(x, h, N)), z) == Mul(Poly(Embed(x), z), Poly(Embed(h), z))
    decreases |h|
  {
    if h == [] {
      NoTaps(x, N);
      hide *;
      PolyOfZeros(N, z);
      EmbedNothing();
      PolyStep([], z);
      MulZero(Poly(Embed(x), z));
    } else {
      hide *;
      var c, rest := Complex(h[0], 0.0), h[1..];
      ConvolutionTheorem(x, rest, N - 1, z);
      PolyPeel(x, h, N, z);
      EmbedStep(h);
      PolyStep(Embed(h), z);
      var X, H := Poly(Embed(x), z), Poly(Embed(rest), z);
      MulAdd(X, c, Mul(z, H));
      MulComm(X, c);
      MulAssoc(X, z, H); MulComm(X, z); MulAssoc(z, X, H);
    }
  }

  lemma EmbedStep(h: seq<real>)
    requires h != []
    ensures Embed(h) != [] && Embed(h)[0] == Complex(h[0], 0.0) && Embed(h)[1..] == Embed(h[1..])
  {}

  lemma EmbedNothing()
    ensures Embed([]) == []
  {}

  lemma NoTaps(x: seq<real>, N: nat)
    ensures Embed(ConvSeq(x, [], N)) == Zeros(N)
  {}
}
