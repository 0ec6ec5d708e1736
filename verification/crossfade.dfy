/** `_apply_cross`: mixes a second stretch of the ring into the frames about to be played, in place. */
module Crossfade {
  import opened Samples

  /** One sample of each track, gained and added with saturation. */
  function Mix(gainOut: S32, x: S32, gainIn: S32, y: S32): S32 {
    Clamp(Gain(gainOut, x) + Gain(gainIn, y), MIN_S32, MAX_S32)
  }

  /** Each gain is that of its own track: at the ends of a fade one of the two is heard alone, as it is. */
  lemma EndsOfFade(x: S32, y: S32)
    ensures Mix(FIXED_ONE, x, 0, y) == x && Mix(0, x, FIXED_ONE, y) == y
  {
    UnityGain(FIXED_ONE);
  }

  /** Anywhere in between the sum of the two gained samples is heard, cut off at the ends of the range. */
  lemma MixIsSum(gainOut: S32, x: S32, gainIn: S32, y: S32)
    ensures
      var sum := Clamp(gainOut * x / 0x1_0000, MIN_S32, MAX_S32) + Clamp(gainIn * y / 0x1_0000, MIN_S32, MAX_S32);
      Mix(gainOut, x, gainIn, y) == if sum < MIN_S32 then MIN_S32 else if sum > MAX_S32 then MAX_S32 else sum
  {
    GainSaturates(gainOut, x);
    GainSaturates(gainIn, y);
    hide Gain;
  }

  function Next(offset: nat, n: nat): (o: nat)
    requires offset < n
    ensures o < n
  {
    if offset + 1 == n then 0 else offset + 1
  }

  /** The sample `count` places further round the ring. */
  function Round(offset: nat, count: nat, n: nat): (o: nat)
    requires offset < n
    ensures o < n
  {
    if count == 0 then offset else Next(Round(offset, count - 1, n), n)
  }

  lemma NextModulo(a: nat, n: nat)
    requires a < n
    ensures (a + 1) % n == Next(a, n)
  {}

  /** Ring d after `count` samples from p on have been mixed with those from `offset` on, one by one. */
  function Crossed(d: seq<S32>, p: nat, count: nat, gainIn: S32, gainOut: S32, offset: nat): (r: seq<S32>)
    requires p + count <= |d| && offset < |d|
    ensures |r| == |d|
  {
    if count == 0 then d
    else
      var r := Crossed(d, p, count - 1, gainIn, gainOut, offset);
      r[p + count - 1 := Mix(gainOut, r[p + count - 1], gainIn, r[Round(offset, count - 1, |d|)])]
  }

  /** Where the incoming stretch is read from: an address outside the buffer counts as its start. */
  function Start(address: int, n: nat): (o: nat)
    requires 0 < n
    ensures o < n
  {
    if 0 <= address < n then address else 0
  }

  method ApplyCross(ring: array<S32>, p: nat, count: nat, gainIn: S32, gainOut: S32, cross: int) returns (cross': nat)
    requires p + count <= ring.Length && 0 < ring.Length
    modifies ring
    ensures
      var start := Start(cross, ring.Length);
      ring[..] == Crossed(old(ring[..]), p, count, gainIn, gainOut, start)
      && cross' == Round(start, count, ring.Length)
  {
    var n := ring.Length;
    ghost var d := ring[..];
    var offset := Start(cross, n);
    ghost var start := offset;
    var i := 0;
    while i < count
      invariant 0 <= i <= count && offset < n && offset == Round(start, i, n)
      invariant ring[..] == Crossed(d, p, i, gainIn, gainOut, start)
    {
      ring[p + i] := Mix(gainOut, ring[p + i], gainIn, ring[offset]);
      NextModulo(offset, n);
      offset := (offset + 1) % n;
      i := i + 1;
    }
    cross' := offset;
  }

  /** Calls that carry the returned cross pointer on mix what one long call would. */
  lemma {:induction false} CrossedInParts(d: seq<S32>, p: nat, a: nat, b: nat, gainIn: S32, gainOut: S32, offset: nat)
    requires p + a + b <= |d| && offset < |d|
    ensures Crossed(d, p, a + b, gainIn, gainOut, offset)
         == Crossed(Crossed(d, p, a, gainIn, gainOut, offset), p + a, b, gainIn, gainOut, Round(offset, a, |d|))
  {
    hide Mix;
    if b > 0 {
      CrossedInParts(d, p, a, b - 1, gainIn, gainOut, offset);
      RoundsAdd(offset, a, b - 1, |d|);
    }
  }

  lemma {:induction false} RoundsAdd(offset: nat, a: nat, b: nat, n: nat)
    requires offset < n
    ensures Round(Round(offset, a, n), b, n) == Round(offset, a + b, n)
  {
    if b > 0 {
      RoundsAdd(offset, a, b - 1, n);
    }
  }

  /** As long as the incoming stretch stays clear of the outgoing one, each sample is mixed from the original two. */
  lemma {:induction false} CrossedAt(d: seq<S32>, p: nat, count: nat, gainIn: S32, gainOut: S32, offset: nat, i: nat)
    requires p + count <= |d| && offset < |d| && i < |d|
    requires forall k: nat | k < count :: !(p <= Round(offset, k, |d|) < p + count)
    ensures Crossed(d, p, count, gainIn, gainOut, offset)[i]
         == if p <= i < p + count then Mix(gainOut, d[i], gainIn, d[Round(offset, i - p, |d|)]) else d[i]
  {
    hide Mix;
    if count > 0 {
      CrossedAt(d, p, count - 1, gainIn, gainOut, offset, i);
      CrossedAt(d, p, count - 1, gainIn, gainOut, offset, Round(offset, count - 1, |d|));
    }
  }

  // ---------------------------------------------------------------- the pointer computed anew

  lemma {:induction false} RoundOnce(offset: nat, count: nat, n: nat)
    requires offset < n && count <= n
    ensures Round(offset, count, n) == if offset + count < n then offset + count else offset + count - n
  {
    if count > 0 {
      RoundOnce(offset, count - 1, n);
    }
  }

  /**
   * The scheduler computes the pointer anew for every write, as the end of the fade plus the position in it. That is
   * the sample as far round the ring from the end of the fade just when the sum does not pass the wrap.
   */
  lemma AlignedIff(fadeEnd: nat, position: nat, n: nat)
    requires fadeEnd < n && position < n
    ensures Start(fadeEnd + position, n) == Round(fadeEnd, position, n) <==> fadeEnd + position <= n
  {
    RoundOnce(fadeEnd, position, n);
  }

  /** In a ring of 16 samples the ninth sample of a track that starts at 12 is taken from 0, not from 4. */
  lemma Misaligned()
    ensures Start(12 + 8, 16) == 0 && Round(12, 8, 16) == 4
  {
    RoundOnce(12, 8, 16);
  }
}
