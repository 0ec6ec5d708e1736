/** What the FIR engine's arrays hold in the frequency domain. */
module Spectra {
  import opened ComplexNumbers
  import opened Polynomials
  import opened Bits
  import opened Fft
  import opened Convolution

  /** The forward transform of one block, padded to twice its length. */
  ghost function Spectrum(x: seq<real>, root: Twiddle): (r: seq<Complex>)
    ensures |r| == 2 * |x|
  {
    Transform(Embed(x) + Zeros(|x|), root, false)
  }

  lemma TransformBin(x: seq<Complex>, root: Twiddle, k: nat)
    requires k < |x|
    ensures Transform(x, root, false)[k] == Poly(x, Pow(Factor(root, false, |x|), k))
  {
    DftBinAt(x, Factor(root, false, |x|), k);
  }

  lemma SpectrumBin(x: seq<real>, root: Twiddle, k: nat)
    requires k < 2 * |x|
    ensures Spectrum(x, root)[k] == Poly(Embed(x), Pow(Factor(root, false, 2 * |x|), k))
  {
    var padded := Embed(x) + Zeros(|x|);
    TransformBin(padded, root, k);
    assert Zeros(|x|) == seq(|x|, _ => ZERO);
    assert Spectrum(x, root) == Transform(padded, root, false);
    hide *;
    PolyPad(Embed(x), |x|, Pow(Factor(root, false, 2 * |x|), k));
  }

  /** Before any input the spectra are all zero, which is the spectrum of silence. */
  lemma SpectrumOfSilence(x: seq<real>, root: Twiddle)
    requires forall i | 0 <= i < |x| :: x[i] == 0.0
    ensures Spectrum(x, root) == Zeros(2 * |x|)
  {
    forall k | 0 <= k < 2 * |x|
      ensures Spectrum(x, root)[k] == Zeros(2 * |x|)[k]
    {
      SpectrumBin(x, root, k);
      assert Embed(x) == Zeros(|x|);
      PolyOfZeros(|x|, Pow(Factor(root, false, 2 * |x|), k));
    }
  }

  /** The sum of the first k products, in the time domain: it is twice as long as a block. */
  function BlockSums(x: seq<real>, h: seq<real>, P: nat, k: nat, b: int): (r: seq<real>)
    ensures |r| == 2 * P
    ensures forall i | 0 <= i < 2 * P :: r[i] == BlockSum(x, h, P, k, b, i)
  {
    seq(2 * P, i requires 0 <= i < 2 * P => BlockSum(x, h, P, k, b, i))
  }

  /** The work array after the accumulation loop has done k partitions. */
  ghost function Accumulated(x: seq<real>, h: seq<real>, P: nat, root: Twiddle, k: nat, b: int): (r: seq<Complex>)
    ensures |r| == 2 * P
  {
    Transform(Embed(BlockSums(x, h, P, k, b)), root, false)
  }

  lemma AccumulatedNone(x: seq<real>, h: seq<real>, P: nat, root: Twiddle, b: int)
    ensures Accumulated(x, h, P, root, 0, b) == Zeros(2 * P)
  {
    var s := Embed(BlockSums(x, h, P, 0, b));
    assert s == Zeros(2 * P);
    forall k | 0 <= k < 2 * P
      ensures Accumulated(x, h, P, root, 0, b)[k] == Zeros(2 * P)[k]
    {
      TransformBin(s, root, k);
      PolyOfZeros(2 * P, Pow(Factor(root, false, 2 * P), k));
    }
  }

  lemma BlockSumsStep(x: seq<real>, h: seq<real>, P: nat, k: nat, b: int)
    ensures
      var s, c := Embed(BlockSums(x, h, P, k, b)), Embed(ConvSeq(Block(x, b - k, P), Block(h, k, P), 2 * P));
      Embed(BlockSums(x, h, P, k + 1, b)) == seq(|s|, i requires 0 <= i < |s| => Add(s[i], c[i]))
  {
    var s, c := Embed(BlockSums(x, h, P, k, b)), Embed(ConvSeq(Block(x, b - k, P), Block(h, k, P), 2 * P));
    forall i | 0 <= i < 2 * P
      ensures Embed(BlockSums(x, h, P, k + 1, b))[i] == Add(s[i], c[i])
    {
      BlockSumStep(x, h, P, k, b, i);
      hide BlockSum, Conv;
    }
  }

  /** One more partition adds the bin-by-bin product of the two spectra. */
  lemma AccumulatedStep(x: seq<real>, h: seq<real>, P: nat, root: Twiddle, k: nat, b: int, j: nat)
    requires j < 2 * P
    ensures Accumulated(x, h, P, root, k + 1, b)[j]
         == Add(Accumulated(x, h, P, root, k, b)[j],
                Mul(Spectrum(Block(x, b - k, P), root)[j], Spectrum(Block(h, k, P), root)[j]))
  {
    var X, H := Block(x, b - k, P), Block(h, k, P);
    var s, c, t := Embed(BlockSums(x, h, P, k, b)), Embed(ConvSeq(X, H, 2 * P)), Embed(BlockSums(x, h, P, k + 1, b));
    var z := Pow(Factor(root, false, 2 * P), j);
    TransformBin(s, root, j); TransformBin(t, root, j);
    assert Accumulated(x, h, P, root, k, b) == Transform(s, root, false);
    assert Accumulated(x, h, P, root, k + 1, b) == Transform(t, root, false);
    hide *;
    SpectrumBin(X, root, j); SpectrumBin(H, root, j);
    ConvolutionTheorem(X, H, 2 * P, z);
    BlockSumsStep(x, h, P, k, b);
    PolyAdd(s, c, z);
  }

  /** The inverse transform brings the accumulated products back to the time domain. */
  lemma AccumulatedInverse(x: seq<real>, h: seq<real>, P: nat, root: Twiddle, k: nat, b: int, bits: nat)
    requires IsTwiddle(root) && 2 * P == Pow2(bits)
    ensures Transform(Accumulated(x, h, P, root, k, b), root, true) == Embed(BlockSums(x, h, P, k, b))
  {
    InverseOfForward(Embed(BlockSums(x, h, P, k, b)), bits, root);
  }
}
