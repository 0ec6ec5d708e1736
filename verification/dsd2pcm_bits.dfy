/** What the samples of the decimator are: the bits of the stream in the order they come, plus one for a set bit. */
module Dsd2PcmBits {
  import opened Bits
  import opened Bytes
  import opened Dsd2Pcm

  // ---------------------------------------------------------------- a byte and its samples

  /** The number whose binary digits, most significant first, are set where the samples are positive. */
  function FromSamples(s: seq<real>): nat {
    if s == [] then 0
    else 2 * FromSamples(s[..|s| - 1]) + if s[|s| - 1] > 0.0 then 1 else 0
  }

  lemma {:induction false} ShiftOnce(e: nat, k: nat)
    ensures Shift(e, k + 1) == Shift(e, k) / 2
  {
    hide *;
    ShiftStep(e, k + 1);
    ShiftStep(e, k);
    if k > 0 {
      ShiftOnce(e / 2, k - 1);
    } else {
      ShiftStep(e / 2, 0);
    }
  }

  lemma {:induction false} LeadingBits(b: byte, k: nat)
    requires k <= 8
    ensures FromSamples(ByteSamples(b)[..k]) == Shift(b, 8 - k)
  {
    hide Shift;
    if k == 0 {
      ByteIsBelow256();
      NoBitsLeft(b, 8);
    } else {
      LeadingBits(b, k - 1);
      ShiftOnce(b, 8 - k);
      assert ByteSamples(b)[..k][..k - 1] == ByteSamples(b)[..k - 1];
    }
  }

  lemma {:induction false} NoBitsLeft(e: nat, k: nat)
    requires e < Pow2(k)
    ensures Shift(e, k) == 0
  {
    if k > 0 {
      NoBitsLeft(e / 2, k - 1);
    }
  }

  /** The samples of a byte tell which byte it is, its first sample the most significant bit. */
  lemma SamplesOfByte(b: byte)
    ensures FromSamples(ByteSamples(b)) == b
    ensures forall m | 0 <= m < 8 :: ByteSamples(b)[m] == 1.0 || ByteSamples(b)[m] == -1.0
  {
    LeadingBits(b, 8);
    assert ByteSamples(b)[..8] == ByteSamples(b);
  }

  // ---------------------------------------------------------------- a stream and its samples

  function BitsOf(lsbf: bool, b: byte): (s: seq<real>)
    ensures |s| == 8
  {
    seq(8, m requires 0 <= m < 8 => Sign(b, if lsbf then m else 7 - m))
  }

  /** The bits of the bytes as samples, first to last or, where lsbf is set, from the least significant bit on. */
  function BitSamples(lsbf: bool, bytes: seq<byte>): (s: seq<real>)
    ensures |s| == 8 * |bytes|
  {
    if bytes == [] then [] else BitsOf(lsbf, bytes[0]) + BitSamples(lsbf, bytes[1..])
  }

  lemma {:induction false} BitSamplesAdd(lsbf: bool, a: seq<byte>, b: seq<byte>)
    ensures BitSamples(lsbf, a + b) == BitSamples(lsbf, a) + BitSamples(lsbf, b)
  {
    hide BitsOf;
    if a == [] {
      assert a + b == b;
    } else {
      BitSamplesAdd(lsbf, a[1..], b);
      assert (a + b)[1..] == a[1..] + b;
    }
  }

  lemma {:induction false} SamplesAdd(a: seq<byte>, b: seq<byte>)
    ensures Samples(a + b) == Samples(a) + Samples(b)
  {
    hide ByteSamples;
    if a == [] {
      assert a + b == b;
    } else {
      SamplesAdd(a[1..], b);
      assert (a + b)[1..] == a[1..] + b;
    }
  }

  // ---------------------------------------------------------------- one bit

  /** Setting a bit that is clear changes no other. */
  lemma {:induction false} SetBit(b: nat, k: nat, i: nat)
    requires Shift(b, k) % 2 == 0
    ensures Shift(b + Pow2(k), i) % 2 == if i == k then 1 else Shift(b, i) % 2
  {
    hide *;
    Pow2Step(0);
    ShiftStep(b, k); ShiftStep(b, i); ShiftStep(b + Pow2(k), i);
    if k == 0 {
      assert (b + 1) / 2 == b / 2;
    } else {
      Pow2Step(k - 1);
      assert (b + Pow2(k)) / 2 == b / 2 + Pow2(k - 1);
      if i > 0 {
        SetBit(b / 2, k - 1, i - 1);
      } else {
        assert (b + Pow2(k)) % 2 == b % 2;
      }
    }
  }

  lemma {:induction false} SamplesAt(bytes: seq<byte>, q: nat, m: nat)
    requires q < |bytes| && m < 8
    ensures Samples(bytes)[8 * q + m] == Sign(bytes[q], 7 - m)
  {
    hide Sign;
    if q > 0 {
      SamplesAt(bytes[1..], q - 1, m);
    }
  }

  lemma {:induction false} DotUpdate(c: seq<real>, s: seq<real>, j: nat, v: real)
    requires |c| == |s| && j < |c|
    ensures Dot(c, s[j := v]) == Dot(c, s) + c[j] * (v - s[j])
  {
    hide Dot;
    DotStep(c, s);
    DotStep(c, s[j := v]);
    if j == 0 {
      assert s[0 := v][1..] == s[1..];
    } else {
      DotUpdate(c[1..], s[1..], j - 1, v);
      assert s[j := v][1..] == s[1..][j - 1 := v];
    }
  }

  /**
   * Each bit of the last 96 weighs what its distance from the middle of the window says: setting bit m of byte q adds
   * twice that coefficient of the half filter to the output.
   */
  lemma OneBit(h: seq<real>, bytes: seq<byte>, q: nat, m: nat, b: byte)
    requires |h| == HTAPS && |bytes| == 2 * CTABLES && q < 2 * CTABLES && m < 8
    requires Sign(bytes[q], 7 - m) == -1.0 && b == bytes[q] + Pow2(7 - m)
    ensures
      var j := 8 * q + m;
      Direct(h, bytes[q := b]) == Direct(h, bytes) + 2.0 * h[if j < HTAPS then HTAPS - 1 - j else j - HTAPS]
  {
    var j := 8 * q + m;
    var before, after := Samples(bytes), Samples(bytes[q := b]);
    forall i | 0 <= i < |before| ensures after[i] == before[j := 1.0][i] {
      SamplesAt(bytes, i / 8, i % 8);
      SamplesAt(bytes[q := b], i / 8, i % 8);
      if i / 8 == q {
        SetBit(bytes[q], 7 - m, 7 - i % 8);
      }
    }
    assert after == before[j := 1.0];
    SamplesAt(bytes, q, m);
    hide Dot, Samples, Sign;
    DotUpdate(Coefficients(h), before, j, 1.0);
  }
}
