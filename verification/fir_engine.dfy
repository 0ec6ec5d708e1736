/** The partitioned FIR engine: one lane per channel, a ring of block spectra shared by position. */
module FirEngine {
  import opened ComplexNumbers
  import opened Bits
  import opened Fft
  import opened FftInPlace
  import opened Convolution
  import opened Spectra

  const FIR_PARTITION_FRAMES: nat := 512

  /** The partition size in use meets what the engine asks of one: a block and its padding are a power of two long. */
  lemma PartitionSizeIsUsable()
    ensures 2 * FIR_PARTITION_FRAMES == Pow2(10)
  {
    assert Pow2(5) == 32;
  }

  /** Ring slot that holds the spectrum of the block p blocks before the one that goes to `head`. */
  function Slot(head: nat, p: nat, count: nat): (s: nat)
    requires head < count && p <= count
    ensures s < count
  {
    if p <= head then head - p else head + count - p
  }

  lemma SlotIsModulo(head: nat, p: nat, count: nat)
    requires head < count && p < count
    ensures (head + count - p) % count == Slot(head, p, count)
  {
    if p <= head {
      ModWrap(head - p, count);
    } else {
      ModWrap(head + count - p, count);
    }
  }

  lemma ModWrap(a: nat, n: nat)
    requires a < n
    ensures a % n == a && (a + n) % n == a
  {}

  /** Advancing the head makes every block one older and drops the oldest. */
  lemma SlotAges(head: nat, p: nat, count: nat)
    requires head < count && p < count
    ensures (head + 1) % count < count
    ensures Slot((head + 1) % count, p + 1, count) == Slot(head, p, count)
    ensures p > 0 ==> Slot(head, p, count) != head
    ensures Slot(head, 0, count) == head
  {
    if head + 1 < count {
      ModWrap(head + 1, count);
    } else {
      ModWrap(0, count);
    }
  }

  lemma DelayedOutput(x: seq<real>, h: seq<real>, P: nat, count: nat, n: nat, i: nat)
    requires i < P && |h| <= count * P
    ensures Delayed(x, h, P, (n + 1) * P + i)
         == BlockSum(x, h, P, count, n, i) + BlockSum(x, h, P, count, n - 1, P + i)
  {
    OverlapAddIsConvolution(x, h, P, count, n, i);
    assert (n + 1) * P + i - P == n * P + i;
    assert (n + 1) * P >= P;
  }

  /** The played sample and the kept tail, in terms of the signal with the new block. */
  lemma PlayedAndKept(x: seq<real>, more: seq<real>, h: seq<real>, P: nat, count: nat, n: nat, i: nat)
    requires i < P && |h| <= count * P && |x| == n * P
    ensures
      var sums := Embed(BlockSums(x + more, h, P, count, n));
      && sums[i].re + BlockSum(x, h, P, count, n - 1, P + i) == Delayed(x + more, h, P, (n + 1) * P + i)
      && sums[i + P].re == BlockSum(x + more, h, P, count, n, P + i)
  {
    hide BlockSum, Conv, Delayed, Embed;
    SumsAt(x + more, h, P, count, n, i); SumsAt(x + more, h, P, count, n, i + P);
    BlockSumOfOlder(x, more, h, P, n, count, n - 1, P + i);
    DelayedOutput(x + more, h, P, count, n, i);
  }

  lemma SumsAt(x: seq<real>, h: seq<real>, P: nat, k: nat, b: int, i: nat)
    requires i < 2 * P
    ensures Embed(BlockSums(x, h, P, k, b))[i].re == BlockSum(x, h, P, k, b, i)
  {}

  // ---------------------------------------------------------------- what a new block leaves alone

  lemma MulOrder(b: int, n: int, P: nat)
    requires b < n
    ensures b * P + P <= n * P
  {
    assert (n - b) * P == n * P - b * P;
    assert (n - b - 1) * P >= 0;
  }

  lemma BlockOfOlder(x: seq<real>, more: seq<real>, P: nat, n: nat, b: int)
    requires |x| == n * P && b < n
    ensures Block(x + more, b, P) == Block(x, b, P)
  {
    MulOrder(b, n, P);
    forall i | 0 <= i < P
      ensures Block(x + more, b, P)[i] == Block(x, b, P)[i]
    {
      var k := b * P + i;
      assert At(x + more, k) == At(x, k);
    }
  }

  lemma BlockOfNewest(x: seq<real>, more: seq<real>, P: nat, n: nat)
    requires |x| == n * P && |more| == P
    ensures Block(x + more, n, P) == more
  {
    forall i | 0 <= i < P
      ensures Block(x + more, n, P)[i] == more[i]
    {
      assert At(x + more, n * P + i) == more[i];
    }
  }

  lemma {:induction false} BlockSumOfOlder(x: seq<real>, more: seq<real>, h: seq<real>, P: nat, n: nat, k: nat,
      b: int, i: int)
    requires |x| == n * P && b < n
    ensures BlockSum(x + more, h, P, k, b, i) == BlockSum(x, h, P, k, b, i)
  {
    hide *;
    BlockSumStep(x, h, P, 0, b, i); BlockSumStep(x + more, h, P, 0, b, i);
    if k > 0 {
      BlockSumOfOlder(x, more, h, P, n, k - 1, b, i);
      BlockSumStep(x, h, P, k - 1, b, i); BlockSumStep(x + more, h, P, k - 1, b, i);
      BlockOfOlder(x, more, P, n, b - (k - 1));
    }
  }

  /** The output for position n of the signal seen so far, delayed by P samples. */
  function Delayed(x: seq<real>, h: seq<real>, P: nat, n: nat): real {
    if n < P then 0.0 else Conv(x, h, n - P)
  }

  lemma DelayedCausal(x: seq<real>, more: seq<real>, h: seq<real>, P: nat, n: nat)
    requires n < |x| + P
    ensures Delayed(x + more, h, P, n) == Delayed(x, h, P, n)
  {
    if n >= P {
      ConvAgrees(x + more, x, h, n - P);
    }
  }

  lemma SilentBlock(b: int, P: nat)
    ensures forall i | 0 <= i < P :: Block([], b, P)[i] == 0.0
  {}

  lemma {:induction false} SilentSum(h: seq<real>, P: nat, k: nat, b: int, i: int)
    ensures BlockSum([], h, P, k, b, i) == 0.0
  {
    if k > 0 {
      SilentSum(h, P, k - 1, b, i);
      SilentBlock(b - (k - 1), P);
      hide Block, Conv;
      ConvSilent(Block([], b - (k - 1), P), Block(h, k - 1, P), i);
    }
  }

  lemma PartitionCount(n: nat, P: nat)
    requires P > 0 && n > 0
    ensures (n + P - 1) / P > 0 && n <= ((n + P - 1) / P) * P
  {
    var q, r := (n + P - 1) / P, (n + P - 1) % P;
    assert n + P - 1 == q * P + r;
    assert n <= q * P;
  }

  method ClearSlot(a: array<Complex>)
    modifies a
    ensures a[..] == Zeros(a.Length)
  {
    var i := 0;
    while i < a.Length
      invariant 0 <= i <= a.Length
      invariant forall k | 0 <= k < i :: a[k] == ZERO
    {
      a[i] := ZERO;
      i := i + 1;
    }
  }

  method NewSlots(count: nat, size: nat) returns (slots: seq<array<Complex>>)
    ensures |slots| == count
    ensures forall s | 0 <= s < count :: fresh(slots[s]) && slots[s].Length == size && slots[s][..] == Zeros(size)
    ensures forall s, t | 0 <= s < t < count :: slots[s] != slots[t]
  {
    slots := [];
    var i := 0;
    while i < count
      invariant 0 <= i == |slots| <= count
      invariant forall s | 0 <= s < i :: fresh(slots[s]) && slots[s].Length == size && slots[s][..] == Zeros(size)
      invariant forall s, t | 0 <= s < t < i :: slots[s] != slots[t]
    {
      var a := new Complex[size](_ => ZERO);
      assert a[..] == Zeros(size);
      slots := slots + [a];
      i := i + 1;
    }
  }

  /** The partition loop of `_prepare_fir`: each piece of the taps is padded and transformed. */
  method TransformPartitions(taps: seq<real>, P: nat, count: nat, root: Twiddle, ghost bits: nat)
    returns (parts: seq<seq<Complex>>)
    requires P > 0 && 2 * P == Pow2(bits) && IsTwiddle(root)
    requires count == (|taps| + P - 1) / P && taps != []
    ensures |parts| == count
    ensures forall p | 0 <= p < count :: parts[p] == Spectrum(Block(taps, p, P), root)
  {
    hide Spectrum, Block, Transform, IsTwiddle, Pow2;
    parts := [];
    var p := 0;
    while p < count
      invariant 0 <= p == |parts| <= count
      invariant forall q | 0 <= q < p :: parts[q] == Spectrum(Block(taps, q, P), root)
    {
      var frequency := new Complex[2 * P](_ => ZERO);
      LastPartition(|taps|, P, p);
      var offset := p * P;
      var size := |taps| - offset;
      if size > P {
        size := P;
      }
      CopyTaps(frequency, taps, offset, size, P);
      PartitionSpectrum(taps, p, P, root);
      InPlaceFft(frequency, root, false, bits);
      parts := parts + [frequency[..]];
      p := p + 1;
    }
  }

  lemma LastPartition(n: nat, P: nat, p: nat)
    requires P > 0 && n > 0 && p < (n + P - 1) / P
    ensures p * P < n
  {
    var q, r := (n + P - 1) / P, (n + P - 1) % P;
    assert n + P - 1 == q * P + r;
    MulOrder(p, q, P);
  }

  lemma PartitionSpectrum(taps: seq<real>, p: nat, P: nat, root: Twiddle)
    ensures Spectrum(Block(taps, p, P), root) == Transform(Embed(Segment(taps, p * P, P)) + Zeros(P), root, false)
  {}

  method CopyTaps(a: array<Complex>, taps: seq<real>, offset: nat, size: nat, P: nat)
    requires a.Length == 2 * P && size <= P && offset + size <= |taps| && (size < P ==> offset + size == |taps|)
    requires forall k | 0 <= k < a.Length :: a[k] == ZERO
    modifies a
    ensures a[..] == Embed(Segment(taps, offset, P)) + Zeros(P)
  {
    var i := 0;
    while i < size
      invariant 0 <= i <= size
      invariant forall k | 0 <= k < i :: a[k] == Complex(taps[offset + k], 0.0)
      invariant forall k | i <= k < a.Length :: a[k] == ZERO
    {
      a[i] := Complex(taps[offset + i], 0.0);
      i := i + 1;
    }
  }

  /** The fields of `struct chain` that belong to one channel. */
  class Lane {
    const P: nat
    const count: nat
    const taps: seq<real>
    const root: Twiddle
    ghost const bits: nat
    const partitions: seq<seq<Complex>>
    const spectra: seq<array<Complex>>
    const input: array<real>
    const output: array<real>
    const overlap: array<real>
    ghost var done: seq<real>   // every sample of the completed blocks
    ghost var blocks: nat       // how many there are

    ghost predicate Shape()
      reads this
    {
      && P > 0 && count > 0 && 2 * P == Pow2(bits) && IsTwiddle(root)
      && 0 < |taps| <= count * P
      && |spectra| == count && |partitions| == count
      && (forall s | 0 <= s < count :: spectra[s].Length == 2 * P)
      && (forall s, t | 0 <= s < t < count :: spectra[s] != spectra[t])
      && input.Length == P && output.Length == P && overlap.Length == P
      && input != output && input != overlap && output != overlap
      && |done| == blocks * P
      && (forall p | 0 <= p < count :: partitions[p] == Spectrum(Block(taps, p, P), root))
    }

    ghost function Arrays(): (r: set<object>)
      ensures this in r && input in r && output in r && overlap in r
      ensures forall s | 0 <= s < |spectra| :: spectra[s] in r
    {
      {this, input, output, overlap} + set s | 0 <= s < |spectra| :: spectra[s]
    }

    /**
     * The slot p behind the head holds the transform of the block p blocks ago, for `count` values of p from `first`
     * on.
     */
    ghost predicate RingHolds(x: seq<real>, n: nat, head: nat, first: nat)
      requires Shape() && head < count && first <= 1
      reads this, spectra
    {
      forall p | first <= p < first + count ::
        spectra[Slot(head, p, count)][..] == Spectrum(Block(x, n - p, P), root)
    }

    ghost predicate OverlapHolds(x: seq<real>, n: nat)
      requires Shape()
      reads this, overlap
    {
      forall i | 0 <= i < P :: overlap[i] == BlockSum(x, taps, P, count, n - 1, P + i)
    }

    ghost predicate OutputHolds(x: seq<real>, n: nat)
      requires Shape()
      reads this, output
    {
      forall i | 0 <= i < P :: output[i] == Delayed(x, taps, P, n * P + i)
    }

    ghost predicate Valid(head: nat)
      reads Arrays()
      ensures Valid(head) ==> head < count && input.Length == P == output.Length && P > 0
      ensures Valid(head) ==> forall s | 0 <= s < count :: s < |spectra| && spectra[s].Length == 2 * P
    {
      && Shape() && head < count
      && RingHolds(done, blocks, head, 1)
      && OverlapHolds(done, blocks)
      && OutputHolds(done, blocks)
    }

    /** The arrays `_prepare_fir` allocates, cleared, and the transformed partitions of the taps. */
    constructor (taps: seq<real>, P: nat, root: Twiddle, ghost bits: nat)
      requires P > 0 && 2 * P == Pow2(bits) && IsTwiddle(root) && taps != []
      ensures this.taps == taps && this.P == P && this.root == root && this.bits == bits
      ensures this.count == (|taps| + P - 1) / P && count > 0
      ensures Valid(0) && done == [] && blocks == 0
      ensures fresh(Arrays())
    {
      hide Spectrum, Block, BlockSum, Conv, Pow2, IsTwiddle;
      PartitionCount(|taps|, P);
      var count := (|taps| + P - 1) / P;
      var parts := TransformPartitions(taps, P, count, root, bits);
      var slots := NewSlots(count, 2 * P);
      this.taps, this.P, this.count, this.root, this.bits := taps, P, count, root, bits;
      this.partitions, this.spectra := parts, slots;
      this.input := new real[P](_ => 0.0);
      this.output := new real[P](_ => 0.0);
      this.overlap := new real[P](_ => 0.0);
      this.done, this.blocks := [], 0;
      new;
      Silent();
    }

    /** With every array cleared, the lane is as if it had never seen a sample. */
    ghost method Silent()
      requires Shape()
      requires forall s | 0 <= s < count :: spectra[s][..] == Zeros(2 * P)
      requires forall i | 0 <= i < P :: output[i] == 0.0 && overlap[i] == 0.0
      modifies `done, `blocks
      ensures Valid(0) && done == [] && blocks == 0
    {
      hide Spectrum, Block, BlockSum, Conv;
      done, blocks := [], 0;
      forall p | 1 <= p < 1 + count
        ensures spectra[Slot(0, p, count)][..] == Spectrum(Block([], 0 - p, P), root)
      {
        SilentBlock(0 - p, P);
        SpectrumOfSilence(Block([], 0 - p, P), root);
      }
      forall i | 0 <= i < P
        ensures overlap[i] == BlockSum([], taps, P, count, -1, P + i)
      {
        SilentSum(taps, P, count, -1, P + i);
      }
    }

    /** The part of `dsp_flush` that clears one channel of the engine. */
    method Flush(ghost head: nat)
      requires Valid(head)
      modifies `done, `blocks, spectra, input, output, overlap
      ensures Valid(0) && done == [] && blocks == 0
    {
      hide Spectrum, Block, BlockSum, Conv;
      var s := 0;
      while s < count
        invariant 0 <= s <= count && Shape()
        invariant forall t | 0 <= t < s :: spectra[t][..] == Zeros(2 * P)
      {
        ClearSlot(spectra[s]);
        s := s + 1;
      }
      ClearInput();
      var i := 0;
      while i < P
        invariant 0 <= i <= P && Shape()
        invariant forall k | 0 <= k < i :: output[k] == 0.0 && overlap[k] == 0.0
        invariant forall t | 0 <= t < count :: spectra[t][..] == Zeros(2 * P)
      {
        output[i], overlap[i] := 0.0, 0.0;
        i := i + 1;
      }
      Silent();
    }

    /** Clears the slot, copies the block into its real parts and transforms it in place. */
    method LoadSpectrum(slot: array<Complex>)
      requires Shape() && slot.Length == 2 * P
      modifies slot
      ensures slot[..] == Spectrum(input[..], root)
    {
      hide Spectrum, Transform, Block, BlockSum, Conv;
      ClearSlot(slot);
      var i := 0;
      while i < P
        invariant 0 <= i <= P
        invariant forall k | 0 <= k < i :: slot[k] == Complex(input[k], 0.0)
        invariant forall k | i <= k < slot.Length :: slot[k] == ZERO
      {
        slot[i] := Complex(input[i], 0.0);
        i := i + 1;
      }
      assert slot[..] == Embed(input[..]) + Zeros(P);
      InPlaceFft(slot, root, false, bits);
      SpectrumIs(input[..]);
    }

    lemma SpectrumIs(x: seq<real>)
      ensures Spectrum(x, root) == Transform(Embed(x) + Zeros(|x|), root, false)
    {}

    /** The accumulation loop over the partitions; `x` is the signal including the new block n. */
    method Accumulate(head: nat, work: array<Complex>, ghost x: seq<real>, ghost n: nat)
      requires Shape() && head < count && RingHolds(x, n, head, 0)
      requires work.Length == 2 * P && forall s | 0 <= s < count :: spectra[s] != work
      modifies work
      ensures work[..] == Accumulated(x, taps, P, root, count, n)
    {
      hide Spectrum, Accumulated, Transform, Block, BlockSum, Conv;
      ClearSlot(work);
      AccumulatedNone(x, taps, P, root, n);
      var p := 0;
      while p < count
        invariant 0 <= p <= count
        invariant work[..] == Accumulated(x, taps, P, root, p, n)
      {
        SlotIsModulo(head, p, count);
        var slot := spectra[(head + count - p) % count];
        assert slot[..] == Spectrum(Block(x, n - p, P), root);
        MultiplyAdd(work, slot, partitions[p]);
        AccumulatedNext(x, taps, P, root, p, n);
        p := p + 1;
      }
    }

    /** The output loop: first half plus the kept tail is played, second half becomes the tail. */
    method OverlapAndKeep(work: array<Complex>)
      requires Shape() && work.Length == 2 * P
      modifies output, overlap
      ensures forall i | 0 <= i < P :: output[i] == work[i].re + old(overlap[i]) && overlap[i] == work[i + P].re
    {
      var i := 0;
      while i < P
        invariant 0 <= i <= P
        invariant forall k | 0 <= k < i :: output[k] == work[k].re + old(overlap[k]) && overlap[k] == work[k + P].re
        invariant forall k | i <= k < P :: overlap[k] == old(overlap[k])
      {
        output[i] := work[i].re + overlap[i];
        overlap[i] := work[i + P].re;
        i := i + 1;
      }
    }

    method ClearInput()
      requires Shape()
      modifies input
      ensures forall i | 0 <= i < P :: input[i] == 0.0
    {
      var i := 0;
      while i < P
        invariant 0 <= i <= P
        invariant forall k | 0 <= k < i :: input[k] == 0.0
      {
        input[i] := 0.0;
        i := i + 1;
      }
    }

    /** The new block n is transformed into the ring and convolved with every partition. */
    method ConvolveBlock(head: nat, work: array<Complex>)
      requires Valid(head) && work.Length == 2 * P && forall s | 0 <= s < count :: spectra[s] != work
      modifies work, spectra[head]
      ensures RingHolds(done + input[..], blocks, head, 0)
      ensures work[..] == Embed(BlockSums(done + input[..], taps, P, count, blocks))
    {
      hide Spectrum, Accumulated, Transform, Block, BlockSum, Conv, Delayed, Embed;
      ghost var x, n := done + input[..], blocks;
      LoadSpectrum(spectra[head]);
      forall p | 0 <= p < count
        ensures spectra[Slot(head, p, count)][..] == Spectrum(Block(x, n - p, P), root)
      {
        SlotAges(head, p, count);
        if p == 0 {
          BlockOfNewest(done, input[..], P, n);
        } else {
          assert old(spectra[Slot(head, p, count)][..]) == Spectrum(Block(done, n - p, P), root);
          BlockOfOlder(done, input[..], P, n, n - p);
        }
      }
      Accumulate(head, work, x, n);
      AccumulatedInverse(x, taps, P, root, count, n, bits);
      InPlaceFft(work, root, true, bits);
    }

    /** What one lane of `_fir_advance` does when its input block is full. */
    method ProcessBlock(head: nat, work: array<Complex>)
      requires Valid(head) && work.Length == 2 * P && forall s | 0 <= s < count :: spectra[s] != work
      modifies Arrays(), work
      ensures done == old(done) + old(input[..]) && blocks == old(blocks) + 1
      ensures (head + 1) % count < count && Valid((head + 1) % count)
    {
      hide Spectrum, Transform, Block, BlockSum, Conv, Delayed, Embed;
      ghost var x, n := done + input[..], blocks;
      ConvolveBlock(head, work);
      OverlapAndKeep(work);
      forall i | 0 <= i < P
        ensures output[i] == Delayed(x, taps, P, (n + 1) * P + i)
        ensures overlap[i] == BlockSum(x, taps, P, count, n, P + i)
      {
        PlayedAndKept(done, input[..], taps, P, count, n, i);
      }
      ClearInput();
      Complete(head, x, n);
    }

    /** The ghost bookkeeping at the end of a block: every kept spectrum is one block older. */
    ghost method Complete(head: nat, x: seq<real>, n: nat)
      requires Shape() && head < count && n == blocks && |x| == (n + 1) * P
      requires RingHolds(x, n, head, 0) && OverlapHolds(x, n + 1) && OutputHolds(x, n + 1)
      modifies `done, `blocks
      ensures done == x && blocks == n + 1
      ensures (head + 1) % count < count && Valid((head + 1) % count)
    {
      hide Spectrum, Block, BlockSum, Conv, Delayed;
      done, blocks := x, n + 1;
      SlotAges(head, 0, count);
      var next := (head + 1) % count;
      forall p | 1 <= p < 1 + count
        ensures spectra[Slot(next, p, count)][..] == Spectrum(Block(x, n + 1 - p, P), root)
      {
        SlotAges(head, p - 1, count);
      }
    }
  }

  /** The bin-by-bin multiply-and-add of the innermost loop. */
  ghost function MultiplyAdded(w: seq<Complex>, x: seq<Complex>, h: seq<Complex>): (r: seq<Complex>)
    requires |w| == |x| == |h|
    ensures |r| == |w|
  {
    seq(|w|, j requires 0 <= j < |w| => Add(w[j], Mul(x[j], h[j])))
  }

  lemma AccumulatedNext(x: seq<real>, h: seq<real>, P: nat, root: Twiddle, p: nat, n: int)
    ensures Accumulated(x, h, P, root, p + 1, n)
         == MultiplyAdded(Accumulated(x, h, P, root, p, n),
                          Spectrum(Block(x, n - p, P), root), Spectrum(Block(h, p, P), root))
  {
    hide Spectrum, Accumulated, Block, Add, Mul;
    var u := Accumulated(x, h, P, root, p + 1, n);
    var v := MultiplyAdded(Accumulated(x, h, P, root, p, n),
                           Spectrum(Block(x, n - p, P), root), Spectrum(Block(h, p, P), root));
    forall j | 0 <= j < 2 * P
      ensures u[j] == v[j]
    {
      AccumulatedStep(x, h, P, root, p, n, j);
    }
  }

  method MultiplyAdd(work: array<Complex>, x: array<Complex>, h: seq<Complex>)
    requires work.Length == x.Length == |h| && work != x
    modifies work
    ensures work[..] == MultiplyAdded(old(work[..]), x[..], h)
  {
    hide Add, Mul;
    var i := 0;
    while i < work.Length
      invariant 0 <= i <= work.Length
      invariant forall j | 0 <= j < i :: work[j] == Add(old(work[j]), Mul(x[j], h[j]))
      invariant forall j | i <= j < work.Length :: work[j] == old(work[j])
    {
      work[i] := Add(work[i], Mul(x[i], h[i]));
      i := i + 1;
    }
  }
}
