/** `dsd2pcm_precalc`, `dsd2pcm_reset` and `dsd2pcm_translate`: the tables as arrays, the FIFO as a ring. */
module Dsd2PcmTranslate {
  import opened Bits
  import opened Bytes
  import opened Dsd2Pcm
  import opened Dsd2PcmBits

  /** The two static tables of dsd2pcm.c. */
  class Tables {
    const half: seq<real>
    const bitreverse: array<byte>
    const ctables: array2<real>

    ghost predicate Valid()
      reads this, bitreverse, ctables
    {
      && |half| == HTAPS
      && bitreverse.Length == 256 && ctables.Length0 == CTABLES && ctables.Length1 == 256
      && (forall t | 0 <= t < 256 :: bitreverse[t] == Rev(8, t))
      && (forall i, e | 0 <= i < CTABLES && 0 <= e < 256 :: ctables[i, e] == Table(half, i, e))
    }

    /** `dsd2pcm_precalc` */
    constructor (half: seq<real>)
      requires |half| == HTAPS
      ensures Valid() && this.half == half && fresh(bitreverse) && fresh(ctables)
    {
      this.half := half;
      bitreverse := new byte[256](_ => 0);
      ctables := new real[CTABLES, 256]((_, _) => 0.0);
      new;
      FillReversed();
      FillTables();
    }

    method FillReversed()
      requires bitreverse.Length == 256
      modifies bitreverse
      ensures forall t | 0 <= t < 256 :: bitreverse[t] == Rev(8, t)
    {
      hide Rev;
      ByteIsBelow256();
      FirstReversed();
      var t, e := 0, 0;
      while t < 256
        invariant 0 <= t <= 256
        invariant t < 256 ==> e == Rev(8, t)
        invariant forall u | 0 <= u < t :: bitreverse[u] == Rev(8, u)
      {
        RevIsByte(t);
        bitreverse[t] := e;
        e := CarryReversed(e, 128);
        if t + 1 < 256 {
          NextReversed(t);
        }
        t := t + 1;
      }
    }

    /** The carry loop of the table: bits are toggled from the top down, up to the first that was clear. */
    method CarryReversed(e0: nat, m0: nat) returns (e: nat)
      ensures e == CarryDown(e0, m0)
    {
      hide Has, Toggle, CarryDown;
      e := e0;
      var m: nat := m0;
      var stop := false;
      while m != 0 && !stop
        invariant if stop then e == CarryDown(e0, m0) else CarryDown(e, m) == CarryDown(e0, m0)
        decreases !stop, m
      {
        CarryStep(e, m);
        ToggleSets(e, m);
        e := Toggle(e, m);
        if Has(e, m) {
          stop := true;
        } else {
          m := m / 2;
        }
      }
      CarryEnds(e);
    }

    method FillTables()
      requires |half| == HTAPS && ctables.Length0 == CTABLES && ctables.Length1 == 256
      modifies ctables
      ensures forall i, e | 0 <= i < CTABLES && 0 <= e < 256 :: ctables[i, e] == Table(half, i, e)
    {
      hide Table, TableFrom, Sign;
      var t := 0;
      while t < CTABLES
        invariant 0 <= t <= CTABLES
        invariant forall i, e | CTABLES - t <= i < CTABLES && 0 <= e < 256 :: ctables[i, e] == Table(half, i, e)
      {
        var k := HTAPS - t * 8;
        if k > 8 {
          k := 8;
        }
        var e := 0;
        while e < 256
          invariant 0 <= e <= 256
          invariant forall i, f | CTABLES - t <= i < CTABLES && 0 <= f < 256 :: ctables[i, f] == Table(half, i, f)
          invariant forall i, f | i == CTABLES - 1 - t && 0 <= f < e :: ctables[i, f] == Table(half, i, f)
        {
          var acc := Accumulate(t * 8, e, k);
          TableIs(half, t, e);
          ctables[CTABLES - 1 - t, e] := acc;
          e := e + 1;
        }
        t := t + 1;
      }
    }

    method Accumulate(base: nat, e: nat, k: nat) returns (acc: real)
      requires k <= 8 && base + 8 <= |half|
      ensures acc == TableFrom(half, base, e, k)
    {
      hide Sign;
      acc := 0.0;
      var m := 0;
      while m < k
        invariant 0 <= m <= k
        invariant acc == TableFrom(half, base, e, m)
      {
        acc := acc + Sign(e, 7 - m) * half[base + m];
        m := m + 1;
      }
    }
  }

  lemma TableIs(h: seq<real>, t: nat, e: nat)
    requires |h| == HTAPS && t < CTABLES
    ensures Table(h, CTABLES - 1 - t, e) == TableFrom(h, t * 8, e, 8)
  {}

  lemma FirstReversed()
    ensures Rev(8, 0) == 0
  {
    assert Rev(4, 0) == 0;
  }

  lemma RevIsByte(t: nat)
    ensures Rev(8, t) < 256
  {
    ByteIsBelow256();
  }

  lemma NextReversed(t: nat)
    requires t + 1 < 256
    ensures CarryDown(Rev(8, t), 128) == Rev(8, t + 1)
  {
    hide *;
    ByteIsBelow256();
    Pow2Step(7);
    RevNext(8, t);
  }

  /** Toggling a clear bit sets it, and toggling a set bit clears it. */
  lemma ToggleSets(e: nat, m: nat)
    requires m > 0
    ensures Has(Toggle(e, m), m) <==> !Has(e, m)
  {
    var q := e / m;
    if Has(e, m) {
      AddQuotient(e - m, m);
    } else {
      AddQuotient(e, m);
    }
  }

  lemma AddQuotient(e: nat, m: nat)
    requires m > 0
    ensures (e + m) / m == e / m + 1
  {
    assert e + m == (e / m + 1) * m + e % m;
    QuotientIs(e + m, m, e / m + 1, e % m);
  }

  lemma CarryEnds(e: nat)
    ensures CarryDown(e, 0) == e
  {}

  // ---------------------------------------------------------------- the stream

  /** What came before the first byte: six silent bytes, and before them the silence pattern reversed. */
  const PRE_HISTORY: seq<byte> := [0x96, 0x96, 0x96, 0x96, 0x96, 0x69, 0x69, 0x69, 0x69, 0x69, 0x69]

  /** Bytes are taken most significant bit first. */
  function Normal(lsbf: bool, b: byte): (r: byte) {
    if lsbf then RevIsByte(b); Rev(8, b) else b
  }

  function Normals(lsbf: bool, s: seq<byte>): (r: seq<byte>)
    ensures |r| == |s|
  {
    seq(|s|, i requires 0 <= i < |s| => Normal(lsbf, s[i]))
  }

  /** In the history the first bit of a byte is the first in time, whichever end of the byte it comes from. */
  lemma NormalBits(lsbf: bool, b: byte)
    ensures ByteSamples(Normal(lsbf, b)) == BitsOf(lsbf, b)
    ensures !lsbf ==> Normal(lsbf, b) == b
  {
    hide Sign, Rev;
    if lsbf {
      forall m | 0 <= m < 8 ensures Sign(Rev(8, b), 7 - m) == Sign(b, m) {
        SignOfReversed(b, 7 - m);
      }
    }
  }

  lemma {:induction false} NormalsBits(lsbf: bool, s: seq<byte>)
    ensures Samples(Normals(lsbf, s)) == BitSamples(lsbf, s)
    ensures !lsbf ==> Normals(lsbf, s) == s
  {
    hide ByteSamples, BitsOf, Normal;
    forall i | 0 <= i < |s| ensures !lsbf ==> Normal(lsbf, s[i]) == s[i] {
      NormalBits(lsbf, s[i]);
    }
    if s != [] {
      NormalBits(lsbf, s[0]);
      NormalsBits(lsbf, s[1..]);
      assert Normals(lsbf, s)[1..] == Normals(lsbf, s[1..]);
    }
  }

  lemma AppendedBits(hist: seq<byte>, lsbf: bool, more: seq<byte>)
    ensures Samples(hist + Normals(lsbf, more)) == Samples(hist) + BitSamples(lsbf, more)
    ensures |more| == 1 ==> BitSamples(lsbf, more) == BitsOf(lsbf, more[0])
  {
    hide BitsOf;
    NormalsBits(lsbf, more);
    SamplesAdd(hist, Normals(lsbf, more));
    if |more| == 1 {
      assert more[1..] == [];
    }
  }

  /** The direct filter on the twelve bytes that end with input[n]. */
  function OutputAt(h: seq<real>, hist: seq<byte>, input: seq<byte>, n: nat): real
    requires |h| == HTAPS && |hist| >= 11 && n < |input|
  {
    Direct(h, (hist + input[..n + 1])[|hist| + n - 11..])
  }

  function Outputs(h: seq<real>, hist: seq<byte>, input: seq<byte>): (r: seq<real>)
    requires |h| == HTAPS && |hist| >= 11
    ensures |r| == |input|
  {
    seq(|input|, n requires 0 <= n < |input| => OutputAt(h, hist, input, n))
  }

  /** Splitting the input between two calls changes nothing. */
  lemma OutputsInChunks(h: seq<real>, hist: seq<byte>, a: seq<byte>, b: seq<byte>)
    requires |h| == HTAPS && |hist| >= 11
    ensures Outputs(h, hist, a + b) == Outputs(h, hist, a) + Outputs(h, hist + a, b)
  {
    hide Direct;
    var l, r := Outputs(h, hist, a + b), Outputs(h, hist, a) + Outputs(h, hist + a, b);
    forall n | 0 <= n < |a + b|
      ensures l[n] == r[n]
    {
      if n < |a| {
        assert (a + b)[..n + 1] == a[..n + 1];
      } else {
        assert hist + (a + b)[..n + 1] == (hist + a) + b[..n - |a| + 1];
      }
    }
  }

  /** The last 96 samples. */
  function Last96(s: seq<real>): (r: seq<real>)
    requires |s| >= 2 * HTAPS
    ensures |r| == 2 * HTAPS
  {
    s[|s| - 2 * HTAPS..]
  }

  /** All the bits up to and with byte n of the source. */
  function BitsUpTo(hist: seq<byte>, lsbf: bool, src: seq<byte>, n: nat): (r: seq<real>)
    requires |hist| >= 11 && n < |src|
    ensures |r| == 8 * (|hist| + n + 1) >= 2 * HTAPS
  {
    Samples(hist) + BitSamples(lsbf, src[..n + 1])
  }

  /** Output n is the 96-tap filter on the last 96 of them. */
  lemma OutputFromBits(h: seq<real>, hist: seq<byte>, lsbf: bool, src: seq<byte>, n: nat)
    requires |h| == HTAPS && |hist| >= 11 && n < |src|
    ensures Outputs(h, hist, Normals(lsbf, src))[n] == Dot(Coefficients(h), Last96(BitsUpTo(hist, lsbf, src, n)))
  {
    hide Dot, Coefficients, Normal, BitSamples, Samples;
    var input := Normals(lsbf, src)[..n + 1];
    assert input == Normals(lsbf, src[..n + 1]);
    AppendedBits(hist, lsbf, src[..n + 1]);
    var all := hist + input;
    var cut := |hist| + n - 11;
    SamplesAdd(all[..cut], all[cut..]);
    assert all[..cut] + all[cut..] == all;
    assert Last96(Samples(all)) == Samples(all[cut..]);
  }

  // ---------------------------------------------------------------- the FIFO

  /** FIFO slot of the byte written `age` writes before the one in slot pos. */
  function Slot(pos: nat, age: nat): (s: nat)
    requires pos < FIFOSIZE && age <= FIFOSIZE
    ensures s < FIFOSIZE
  {
    (pos + FIFOSIZE - age) % FIFOSIZE
  }

  /** How a byte of the given age is stored: as it came until age five, reversed (once) from age six on. */
  function AsStored(b: byte, age: nat): (r: byte) {
    if age < CTABLES then b else RevIsByte(b); Rev(8, b)
  }

  /** The FIFO with its newest byte in slot pos holds the last `ages` bytes of the history. */
  ghost predicate Stored(f: seq<byte>, pos: nat, hist: seq<byte>, ages: nat) {
    && |f| == FIFOSIZE && pos < FIFOSIZE && ages <= 2 * CTABLES && ages <= |hist|
    && forall a | 0 <= a < ages :: f[Slot(pos, a)] == AsStored(hist[|hist| - 1 - a], a)
  }

  /** Writing a byte ages the others by one, and the one that turns six is reversed in place. */
  lemma StoredStep(f: seq<byte>, pos: nat, hist: seq<byte>, b: byte)
    requires pos < FIFOSIZE && Stored(f, Slot(pos, 1), hist, 11)
    ensures
      var g := f[pos := b];
      var aged: byte := AsStored(g[Slot(pos, CTABLES)], CTABLES);
      Stored(g[Slot(pos, CTABLES) := aged], pos, hist + [b], 12)
  {
    hide Rev, Slot;
    var g := f[pos := b];
    var p := Slot(pos, CTABLES);
    var h := g[p := AsStored(g[p], CTABLES)];
    var hist' := hist + [b];
    forall a | 0 <= a < 12
      ensures h[Slot(pos, a)] == AsStored(hist'[|hist'| - 1 - a], a)
    {
      SlotsApart(pos, a);
      if a > 0 {
        assert f[Slot(Slot(pos, 1), a - 1)] == AsStored(hist[|hist| - 1 - (a - 1)], a - 1);
      }
    }
  }

  /** Slots of different ages are different, and a write later the same byte is one age older. */
  lemma SlotsApart(pos: nat, a: nat)
    requires pos < FIFOSIZE && a < 12
    ensures Slot(pos, 0) == pos && (a > 0 ==> Slot(pos, a) == Slot(Slot(pos, 1), a - 1) != pos)
    ensures a != CTABLES ==> Slot(pos, a) != Slot(pos, CTABLES)
  {}

  lemma AgedByte(b: byte)
    ensures AsStored(b, CTABLES) == Rev(8, b)
  {}

  lemma Turned(f: seq<byte>, pos: nat, hist: seq<byte>)
    requires Stored(f, pos, hist, 12)
    ensures Slot((pos + 1) % FIFOSIZE, 1) == pos && Stored(f, pos, hist, 11)
  {}

  lemma StoredAtReset(f: seq<byte>)
    requires |f| == FIFOSIZE && forall i | 0 <= i < FIFOSIZE :: f[i] == SILENCE
    ensures Stored(f, Slot(0, 1), PRE_HISTORY, 11)
  {
    SilenceReversed();
  }

  lemma SilenceReversed()
    ensures Rev(8, 0x96) == 0x69
  {
    assert Rev(4, 0x9) == 0x9;
    assert Pow2(4) == 16 && Pow2(5) == 32 && Pow2(6) == 64 && Pow2(7) == 128;
    assert Rev(5, 0x12) == 9;
  }

  /** The window the filter sees: the last twelve bytes, oldest first. */
  function Window(hist: seq<byte>): (w: seq<byte>)
    requires |hist| >= 12
    ensures |w| == 2 * CTABLES
  {
    hist[|hist| - 12..]
  }

  /** One conversion context. */
  class Context {
    const tables: Tables
    const fifo: array<byte>
    var fifopos: nat
    ghost var hist: seq<byte>      // every byte so far, most significant bit first

    ghost predicate Valid()
      reads this, fifo, tables, tables.bitreverse, tables.ctables
    {
      && tables.Valid() && fifo != tables.bitreverse && fifo.Length == FIFOSIZE && fifopos < FIFOSIZE
      && |hist| >= 11
      && Stored(fifo[..], Slot(fifopos, 1), hist, 11)
    }

    /** `dsd2pcm_init` and `dsd2pcm_reset` */
    constructor (tables: Tables)
      requires tables.Valid()
      ensures Valid() && hist == PRE_HISTORY && this.tables == tables && fresh(fifo)
    {
      this.tables := tables;
      fifo := new byte[FIFOSIZE](_ => SILENCE);
      fifopos := 0;
      hist := PRE_HISTORY;
      new;
      StoredAtReset(fifo[..]);
    }

    /** One turn of the loop of `dsd2pcm_translate`. */
    method Step(b: byte, lsbf: bool) returns (sample: real)
      requires Valid()
      modifies this, fifo
      ensures Valid()
      ensures hist == old(hist) + [Normal(lsbf, b)]
      ensures Samples(hist) == Samples(old(hist)) + BitsOf(lsbf, b)
      ensures sample == Direct(tables.half, Window(hist))
    {
      hide Rev, Direct, Table, Stored, AsStored, Slot, Window;
      var bite1: byte := if lsbf then tables.bitreverse[b] else b;
      ghost var before := fifo[..];
      StoredStep(before, fifopos, hist, bite1);
      AppendedBits(hist, lsbf, [b]);
      assert Normals(lsbf, [b]) == [bite1];
      fifo[fifopos] := bite1;
      var p := Slot(fifopos, CTABLES);
      fifo[p] := tables.bitreverse[fifo[p]];
      hist := hist + [bite1];
      AgedByte(before[fifopos := bite1][p]);
      sample := Convolve();
      Turned(fifo[..], fifopos, hist);
      fifopos := (fifopos + 1) % FIFOSIZE;
    }

    /** The accumulation over the six tables. */
    method Convolve() returns (acc: real)
      requires tables.Valid() && fifo != tables.bitreverse
      requires fifo.Length == FIFOSIZE && fifopos < FIFOSIZE && |hist| >= 12 && Stored(fifo[..], fifopos, hist, 12)
      ensures acc == Direct(tables.half, Window(hist))
    {
      hide Rev, Direct, Table;
      acc := 0.0;
      var i := 0;
      while i < CTABLES
        invariant 0 <= i <= CTABLES
        invariant acc == Lookups(tables.half, Window(hist), i)
      {
        var bite1 := fifo[Slot(fifopos, i)];
        var bite2 := fifo[Slot(fifopos, 2 * CTABLES - 1 - i)];
        assert bite1 == Window(hist)[2 * CTABLES - 1 - i] && bite2 == Rev(8, Window(hist)[i]);
        acc := acc + (tables.ctables[i, bite1] + tables.ctables[i, bite2]);
        i := i + 1;
      }
      LookupsAreDirect(tables.half, Window(hist));
    }

    /** `dsd2pcm_translate` with the output stride 1 that every caller uses. */
    method Translate(samples: nat, src: seq<byte>, stride: nat, lsbf: bool, dst: array<real>)
      requires Valid() && dst.Length >= samples
      requires samples > 0 ==> (samples - 1) * stride < |src|
      modifies this, fifo, dst
      ensures Valid()
      ensures hist == old(hist) + Normals(lsbf, Strided(src, stride, samples))
      ensures Samples(hist) == Samples(old(hist)) + BitSamples(lsbf, Strided(src, stride, samples))
      ensures !lsbf ==> hist == old(hist) + Strided(src, stride, samples)
      ensures dst[..samples] == Outputs(tables.half, old(hist), Normals(lsbf, Strided(src, stride, samples)))
      ensures dst[samples..] == old(dst[samples..])
    {
      hide Rev, Direct, Stored, Normal, Outputs, Window;
      ghost var all := Normals(lsbf, Strided(src, stride, samples));
      ghost var hist0 := hist;
      var p, n := 0, 0;
      while n < samples
        invariant 0 <= n <= samples && p == n * stride
        invariant Valid() && hist == hist0 + all[..n]
        invariant dst[..n] == Outputs(tables.half, hist0, all)[..n]
        invariant dst[samples..] == old(dst[samples..])
      {
        StrideFits(n, samples, stride);
        assert all[n] == Normal(lsbf, src[p]);
        assert all[..n + 1] == all[..n] + [all[n]];
        dst[n] := Step(src[p], lsbf);
        assert hist == hist0 + all[..n + 1];
        OutputIs(tables.half, hist0, all, n);
        assert Outputs(tables.half, hist0, all)[..n + 1]
            == Outputs(tables.half, hist0, all)[..n] + [Outputs(tables.half, hist0, all)[n]];
        p := p + stride;
        n := n + 1;
      }
      NormalsBits(lsbf, Strided(src, stride, samples));
      AppendedBits(hist0, lsbf, Strided(src, stride, samples));
    }
  }

  lemma OutputIs(h: seq<real>, hist: seq<byte>, input: seq<byte>, n: nat)
    requires |h| == HTAPS && |hist| >= 11 && n < |input|
    ensures Outputs(h, hist, input)[n] == Direct(h, Window(hist + input[..n + 1]))
  {}

  lemma StrideFits(n: nat, samples: nat, stride: nat)
    requires n < samples
    ensures n * stride <= (samples - 1) * stride && (n + 1) * stride == n * stride + stride
  {}

  /** Every stride-th byte of the source. */
  function Strided(src: seq<byte>, stride: nat, samples: nat): (r: seq<byte>)
    requires samples > 0 ==> (samples - 1) * stride < |src|
    ensures |r| == samples
  {
    seq(samples, i requires 0 <= i < samples => StrideFits(i, samples, stride); src[i * stride])
  }

  lemma StrideOne(src: seq<byte>)
    ensures |src| > 0 ==> (|src| - 1) * 1 < |src|
    ensures Strided(src, 1, |src|) == src
  {}

  lemma NormalsAdd(lsbf: bool, a: seq<byte>, b: seq<byte>)
    ensures Normals(lsbf, a) + Normals(lsbf, b) == Normals(lsbf, a + b)
  {}

  /** Each output is the 96-tap filter on the last 96 bits, in the order they have in the source. */
  ghost predicate FiltersBits(out: seq<real>, lsbf: bool, src: seq<byte>) {
    |out| == |src| && forall n: nat | n < |src| ::
      out[n] == Dot(Coefficients(HALF_TAPS), Last96(BitsUpTo(PRE_HISTORY, lsbf, src, n)))
  }

  lemma AllFromBits(lsbf: bool, src: seq<byte>)
    ensures FiltersBits(Outputs(HALF_TAPS, PRE_HISTORY, Normals(lsbf, src)), lsbf, src)
  {
    hide Outputs, Dot, Coefficients, Last96, BitsUpTo, Normal;
    forall n: nat | n < |src|
      ensures Outputs(HALF_TAPS, PRE_HISTORY, Normals(lsbf, src))[n]
        == Dot(Coefficients(HALF_TAPS), Last96(BitsUpTo(PRE_HISTORY, lsbf, src, n)))
    {
      OutputFromBits(HALF_TAPS, PRE_HISTORY, lsbf, src, n);
    }
  }

  /**
   * A DSD stream through a fresh context, cut anywhere: the direct 96-tap filter over all of it after the
   * pre-history.
   */
  method ConvertInTwoCalls(src: seq<byte>, cut: nat, lsbf: bool) returns (a: array<real>, b: array<real>)
    requires cut <= |src|
    ensures a[..] + b[..] == Outputs(HALF_TAPS, PRE_HISTORY, Normals(lsbf, src))
    ensures FiltersBits(a[..] + b[..], lsbf, src)
  {
    hide Outputs, Normals, Strided, FiltersBits, Samples, BitSamples, Stored, Slot, Table, Rev;
    var tables := new Tables(HALF_TAPS);
    var context := new Context(tables);
    a, b := new real[cut], new real[|src| - cut];
    StrideOne(src[..cut]);
    StrideOne(src[cut..]);
    context.Translate(cut, src[..cut], 1, lsbf, a);
    ghost var first := a[..];
    assert a[..cut] == first;
    context.Translate(|src| - cut, src[cut..], 1, lsbf, b);
    assert a[..] == first && b[..|src| - cut] == b[..];
    OutputsInChunks(HALF_TAPS, PRE_HISTORY, Normals(lsbf, src[..cut]), Normals(lsbf, src[cut..]));
    NormalsAdd(lsbf, src[..cut], src[cut..]);
    assert src[..cut] + src[cut..] == src;
    AllFromBits(lsbf, src);
  }
}
