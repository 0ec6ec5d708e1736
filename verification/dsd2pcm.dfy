/** The DSD to PCM decimator: six lookup tables and a byte FIFO stand for a 96-tap symmetric FIR over the bits. */
module Dsd2Pcm {
  import opened Bits
  import opened Bytes

  const HTAPS: nat := 48
  const FIFOSIZE: nat := 16
  const CTABLES: nat := 6
  const SILENCE: byte := 0x69

  /** The second half of the filter. */
  const HALF_TAPS: seq<real> := [
    0.09950731974056658, 0.09562845727714668, 0.08819647126516944, 0.07782552527068175,
    0.06534876523171299, 0.05172629311427257, 0.0379429484910187, 0.02490921351762261,
    0.0133774746265897, 0.003883043418804416, -0.003284703416210726, -0.008080250212687497,
    -0.01067241812471033, -0.01139427235000863, -0.0106813877974587, -0.009007905078766049,
    -0.006828859761015335, -0.004535184322001496, -0.002425035959059578, -0.0006922187080790708,
    0.0005700762133516592, 0.001353838005269448, 0.001713709169690937, 0.001742046839472948,
    0.001545601648013235, 0.001226696225277855, 0.0008704322683580222, 0.0005381636200535649,
    0.000266446345425276, 0.00007002968738383528, -0.00005279407053811266, -0.0001140625650874684,
    -0.0001304796361231895, -0.0001189970287491285, -0.00009396247155265073, -0.00006577634378272832,
    -0.0000407492895872535, -0.0000217407957554587, -0.000009163058931391722, -0.000002017460145032201,
    0.000001249721855219005, 0.000002166655190537392, 0.000001930520892991082, 0.000001319400334374195,
    0.0000007410039764949091, 0.0000003423230509967409, 0.0000001244182214744588, 0.00000003130441005359396]

  // ---------------------------------------------------------------- the direct filter

  /** e >> shift */
  function Shift(e: nat, shift: nat): nat {
    if shift == 0 then e else Shift(e / 2, shift - 1)
  }

  /** One bit as a sample: ((e >> shift) & 1) * 2 - 1. */
  function Sign(e: nat, shift: nat): real {
    if Shift(e, shift) % 2 == 1 then 1.0 else -1.0
  }

  /** The eight samples of a byte in time order, most significant bit first. */
  function ByteSamples(b: nat): (s: seq<real>)
    ensures |s| == 8
  {
    seq(8, m requires 0 <= m < 8 => Sign(b, 7 - m))
  }

  function Samples(bytes: seq<byte>): (s: seq<real>)
    ensures |s| == 8 * |bytes|
  {
    if bytes == [] then [] else ByteSamples(bytes[0]) + Samples(bytes[1..])
  }

  /** All 96 coefficients in time order: the half filter mirrored, then the half filter. */
  function Coefficients(h: seq<real>): (c: seq<real>)
    requires |h| == HTAPS
    ensures |c| == 2 * HTAPS
  {
    seq(2 * HTAPS, j requires 0 <= j < 2 * HTAPS => if j < HTAPS then h[HTAPS - 1 - j] else h[j - HTAPS])
  }

  function Dot(c: seq<real>, s: seq<real>): real
    requires |c| == |s|
  {
    if c == [] then 0.0 else c[0] * s[0] + Dot(c[1..], s[1..])
  }

  /** The direct 96-tap FIR over the bits of the last twelve bytes. */
  function Direct(h: seq<real>, bytes: seq<byte>): real
    requires |h| == HTAPS && |bytes| == 2 * CTABLES
  {
    Dot(Coefficients(h), Samples(bytes))
  }

  // ---------------------------------------------------------------- the tables

  /** ctables[i][e]: eight products of one slice of the half filter with the bits of e. */
  function Table(h: seq<real>, i: nat, e: nat): real
    requires |h| == HTAPS && i < CTABLES
  {
    TableFrom(h, (CTABLES - 1 - i) * 8, e, 8)
  }

  /** The accumulation over m < k. */
  function TableFrom(h: seq<real>, base: nat, e: nat, k: nat): real
    requires k <= 8 && base + 8 <= |h|
  {
    if k == 0 then 0.0 else TableFrom(h, base, e, k - 1) + Sign(e, 7 - (k - 1)) * h[base + k - 1]
  }

  /** Bit m of a byte is bit 7 - m of its reversal. */
  lemma SignOfReversed(b: byte, m: nat)
    requires m < 8
    ensures Sign(Rev(8, b), m) == Sign(b, 7 - m)
  {
    BitOfReversed(8, b, m);
  }

  lemma {:induction false} BitOfReversed(bits: nat, b: nat, m: nat)
    requires m < bits && b < Pow2(bits)
    ensures Shift(Rev(bits, b), m) % 2 == Shift(b, bits - 1 - m) % 2
    decreases bits
  {
    hide *;
    var low := Rev(bits - 1, b / 2);
    Pow2Step(bits - 1);
    RevStep(bits - 1, b);
    ShiftStep(b, bits - 1 - m);
    HighBits(low, bits - 1, m);
    if m < bits - 1 {
      BitOfReversed(bits - 1, b / 2, m);
    }
  }

  lemma ShiftStep(e: nat, k: nat)
    ensures Shift(e, 0) == e
    ensures k > 0 ==> Shift(e, k) == Shift(e / 2, k - 1)
  {}

  /** Adding 2^n to a number below it sets bit n and leaves the lower bits alone. */
  lemma {:induction false} HighBits(low: nat, n: nat, m: nat)
    requires m <= n && low < Pow2(n)
    ensures m < n ==> Shift(Pow2(n) + low, m) % 2 == Shift(low, m) % 2
    ensures m == n ==> Shift(Pow2(n) + low, m) % 2 == 1 && Shift(low, m) % 2 == 0
  {
    hide *;
    Pow2Step(0);
    ShiftStep(low, m); ShiftStep(Pow2(n) + low, m);
    if n > 0 {
      Pow2Step(n - 1);
      assert (Pow2(n) + low) / 2 == Pow2(n - 1) + low / 2;
      if m > 0 {
        HighBits(low / 2, n - 1, m - 1);
      } else {
        assert (Pow2(n) + low) % 2 == low % 2;
      }
    }
  }

  lemma ByteIsBelow256()
    ensures Pow2(8) == 256
  {
    assert Pow2(4) == 16;
  }

  // ---------------------------------------------------------------- a table entry is eight taps of the direct filter

  lemma DotStep(c: seq<real>, s: seq<real>)
    requires |c| == |s|
    ensures c == [] ==> Dot(c, s) == 0.0
    ensures c != [] ==> Dot(c, s) == c[0] * s[0] + Dot(c[1..], s[1..])
  {}

  lemma {:induction false} DotConcat(c: seq<real>, d: seq<real>, s: seq<real>, t: seq<real>)
    requires |c| == |s| && |d| == |t|
    ensures Dot(c + d, s + t) == Dot(c, s) + Dot(d, t)
  {
    hide Dot;
    DotStep(c, s); DotStep(c + d, s + t);
    if c == [] {
      assert c + d == d && s + t == t;
    } else {
      assert (c + d)[1..] == c[1..] + d && (s + t)[1..] == s[1..] + t;
      DotConcat(c[1..], d, s[1..], t);
    }
  }

  lemma {:induction false} DotSnoc(c: seq<real>, s: seq<real>, k: nat)
    requires |c| == |s| && k < |c|
    ensures Dot(c[..k + 1], s[..k + 1]) == Dot(c[..k], s[..k]) + c[k] * s[k]
  {
    hide Dot;
    assert c[..k + 1] == c[..k] + [c[k]] && s[..k + 1] == s[..k] + [s[k]];
    DotConcat(c[..k], [c[k]], s[..k], [s[k]]);
    DotStep([c[k]], [s[k]]);
    DotStep([], []);
    assert [c[k]][1..] == [] && [s[k]][1..] == [];
  }

  /** Eight products added from the last tap to the first equal the same products added from the first to the last. */
  lemma {:induction false} DotReversed(c: seq<real>, s: seq<real>, d: seq<real>, t: seq<real>)
    requires |c| == |s| == |d| == |t|
    requires forall k | 0 <= k < |c| :: d[k] == c[|c| - 1 - k] && t[k] == s[|c| - 1 - k]
    ensures Dot(c, s) == Dot(d, t)
  {
    hide Dot;
    DotStep(c, s); DotStep(d, t);
    if c != [] {
      var n := |c| - 1;
      DotSnoc(d, t, n);
      assert d[..n + 1] == d && t[..n + 1] == t;
      DotReversed(c[1..], s[1..], d[..n], t[..n]);
    }
  }

  lemma {:induction false} TableIsDot(h: seq<real>, base: nat, e: nat, k: nat)
    requires k <= 8 && base + 8 <= |h|
    ensures TableFrom(h, base, e, k) == Dot(h[base..base + 8][..k], ByteSamples(e)[..k])
  {
    hide Dot, Sign;
    if k == 0 {
      DotStep(h[base..base + 8][..k], ByteSamples(e)[..k]);
    } else {
      TableIsDot(h, base, e, k - 1);
      DotSnoc(h[base..base + 8], ByteSamples(e), k - 1);
    }
  }

  /** The share of byte q, counted from the oldest, in the direct filter. */
  function Share(h: seq<real>, bytes: seq<byte>, q: nat): real
    requires |h| == HTAPS && |bytes| == 2 * CTABLES && q < 2 * CTABLES
  {
    Dot(Coefficients(h)[8 * q..8 * q + 8], ByteSamples(bytes[q]))
  }

  lemma NewerShare(h: seq<real>, bytes: seq<byte>, i: nat)
    requires |h| == HTAPS && |bytes| == 2 * CTABLES && i < CTABLES
    ensures Table(h, i, bytes[2 * CTABLES - 1 - i]) == Share(h, bytes, 2 * CTABLES - 1 - i)
  {
    hide Dot, TableFrom;
    var base, q := (CTABLES - 1 - i) * 8, 2 * CTABLES - 1 - i;
    TableIsDot(h, base, bytes[q], 8);
    assert h[base..base + 8][..8] == Coefficients(h)[8 * q..8 * q + 8];
    assert ByteSamples(bytes[q])[..8] == ByteSamples(bytes[q]);
  }

  /** The older half of the window uses the same table on the reversed byte, because the filter is symmetric. */
  lemma OlderShare(h: seq<real>, bytes: seq<byte>, i: nat)
    requires |h| == HTAPS && |bytes| == 2 * CTABLES && i < CTABLES
    ensures Table(h, i, Rev(8, bytes[i])) == Share(h, bytes, i)
  {
    hide Dot, TableFrom, Rev, Shift;
    var base, e := (CTABLES - 1 - i) * 8, Rev(8, bytes[i]);
    var c, d := h[base..base + 8], Coefficients(h)[8 * i..8 * i + 8];
    TableIsDot(h, base, e, 8);
    assert c[..8] == c && ByteSamples(e)[..8] == ByteSamples(e);
    forall k | 0 <= k < 8
      ensures d[k] == c[7 - k] && ByteSamples(bytes[i])[k] == ByteSamples(e)[7 - k]
    {
      SignOfReversed(bytes[i], k);
    }
    DotReversed(c, ByteSamples(e), d, ByteSamples(bytes[i]));
  }

  /** The shares of bytes a..b. */
  function Shares(h: seq<real>, bytes: seq<byte>, a: nat, b: nat): real
    requires |h| == HTAPS && |bytes| == 2 * CTABLES && a <= b <= 2 * CTABLES
    decreases b
  {
    if a == b then 0.0 else Shares(h, bytes, a, b - 1) + Share(h, bytes, b - 1)
  }

  lemma {:induction false} SharesFront(h: seq<real>, bytes: seq<byte>, a: nat, b: nat)
    requires |h| == HTAPS && |bytes| == 2 * CTABLES && a < b <= 2 * CTABLES
    ensures Shares(h, bytes, a, b) == Share(h, bytes, a) + Shares(h, bytes, a + 1, b)
    decreases b
  {
    hide Share;
    if a + 1 < b {
      SharesFront(h, bytes, a, b - 1);
    }
  }

  lemma {:induction false} SharesSplit(h: seq<real>, bytes: seq<byte>, a: nat, m: nat, b: nat)
    requires |h| == HTAPS && |bytes| == 2 * CTABLES && a <= m <= b <= 2 * CTABLES
    ensures Shares(h, bytes, a, b) == Shares(h, bytes, a, m) + Shares(h, bytes, m, b)
    decreases b
  {
    hide Share;
    if m < b {
      SharesSplit(h, bytes, a, m, b - 1);
    }
  }

  /** The first q bytes of the direct filter. */
  lemma {:induction false} DirectPrefix(h: seq<real>, bytes: seq<byte>, q: nat)
    requires |h| == HTAPS && |bytes| == 2 * CTABLES && q <= 2 * CTABLES
    ensures Dot(Coefficients(h)[..8 * q], Samples(bytes[..q])) == Shares(h, bytes, 0, q)
  {
    hide Dot, Coefficients, ByteSamples;
    if q == 0 {
      DotStep(Coefficients(h)[..0], Samples(bytes[..0]));
    } else {
      DirectPrefix(h, bytes, q - 1);
      SamplesSnoc(bytes, q - 1);
      assert Coefficients(h)[..8 * q] == Coefficients(h)[..8 * (q - 1)] + Coefficients(h)[8 * (q - 1)..8 * q];
      DotConcat(Coefficients(h)[..8 * (q - 1)], Coefficients(h)[8 * (q - 1)..8 * q],
                Samples(bytes[..q - 1]), ByteSamples(bytes[q - 1]));
    }
  }

  lemma {:induction false} SamplesSnoc(bytes: seq<byte>, q: nat)
    requires q < |bytes|
    ensures Samples(bytes[..q + 1]) == Samples(bytes[..q]) + ByteSamples(bytes[q])
  {
    hide ByteSamples;
    if q == 0 {
      assert bytes[..1] == [bytes[0]] && [bytes[0]][1..] == [];
    } else {
      SamplesSnoc(bytes[1..], q - 1);
      assert bytes[..q + 1][1..] == bytes[1..][..q] && bytes[..q][1..] == bytes[1..][..q - 1];
    }
  }

  /** Table lookups, pairing the newest byte with the oldest, make up the direct filter. */
  function Lookups(h: seq<real>, bytes: seq<byte>, k: nat): real
    requires |h| == HTAPS && |bytes| == 2 * CTABLES && k <= CTABLES
  {
    if k == 0 then 0.0
    else Lookups(h, bytes, k - 1)
         + (Table(h, k - 1, bytes[2 * CTABLES - k]) + Table(h, k - 1, Rev(8, bytes[k - 1])))
  }

  lemma {:induction false} LookupsAreShares(h: seq<real>, bytes: seq<byte>, k: nat)
    requires |h| == HTAPS && |bytes| == 2 * CTABLES && k <= CTABLES
    ensures Lookups(h, bytes, k) == Shares(h, bytes, 0, k) + Shares(h, bytes, 2 * CTABLES - k, 2 * CTABLES)
  {
    hide Share, Table, Rev;
    if k > 0 {
      LookupsAreShares(h, bytes, k - 1);
      NewerShare(h, bytes, k - 1);
      OlderShare(h, bytes, k - 1);
      SharesFront(h, bytes, 2 * CTABLES - k, 2 * CTABLES);
    }
  }

  /** Twelve lookups are the 96-tap filter. */
  lemma LookupsAreDirect(h: seq<real>, bytes: seq<byte>)
    requires |h| == HTAPS && |bytes| == 2 * CTABLES
    ensures Lookups(h, bytes, CTABLES) == Direct(h, bytes)
  {
    hide Lookups, Shares, Dot, Samples, Coefficients;
    LookupsAreShares(h, bytes, CTABLES);
    SharesSplit(h, bytes, 0, CTABLES, 2 * CTABLES);
    DirectPrefix(h, bytes, 2 * CTABLES);
    assert bytes[..2 * CTABLES] == bytes;
    assert Coefficients(h)[..8 * (2 * CTABLES)] == Coefficients(h);
  }
}
