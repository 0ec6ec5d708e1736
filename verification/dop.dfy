/** DSD over PCM (dop.c): markers that alternate across calls, and their detection. */
module Dop {
  import opened Samples
  import opened Words
  import Pack

  // ---------------------------------------------------------------- detection

  predicate Marker(b: bv8) {
    b == 0x05 || b == 0xFA
  }

  function Other(b: bv8): bv8 {
    0xFF - b
  }

  predicate Framed(l: seq<bv8>, r: seq<bv8>, i: nat)
    requires i < |l| == |r|
  {
    l[i] == r[i] && Marker(l[i])
  }

  predicate AllFramed(l: seq<bv8>, r: seq<bv8>, n: nat)
    requires n <= |l| == |r|
  {
    forall i | 0 <= i < n :: Framed(l, r, i)
  }

  /** The n markers from k on alternate. */
  predicate Alternate(l: seq<bv8>, k: nat, n: nat)
    requires k + n <= |l|
  {
    forall i | k < i < k + n :: l[i] == Other(l[i - 1])
  }

  const ENOUGH: nat := 32

  ghost predicate Detectable(l: seq<bv8>, r: seq<bv8>)
    requires |l| == |r|
  {
    exists k: nat :: k + ENOUGH <= |l| && AllFramed(l, r, k + ENOUGH) && Alternate(l, k, ENOUGH)
  }

  /** `is_stream_dop` on the marker bytes of the two channels: true just when 32 alternating frames come first. */
  method IsStreamDop(l: seq<bv8>, r: seq<bv8>) returns (found: bool)
    requires |l| == |r|
    ensures found <==> Detectable(l, r)
  {
    var matched := 0;
    var next: bv8 := 0;
    var i := 0;
    while i < |l|
      invariant 0 <= i <= |l| && 0 <= matched <= i && matched < ENOUGH
      invariant AllFramed(l, r, i)
      invariant i > 0 ==> matched > 0 && next == Other(l[i - 1])
      invariant i == 0 ==> next == 0
      invariant Alternate(l, i - matched, matched)
      invariant matched < i ==> l[i - matched] != Other(l[i - matched - 1])
      invariant NoRun(l, i)
    {
      if (l[i] == 0x05 && r[i] == 0x05) || (l[i] == 0xFA && r[i] == 0xFA) {
        if l[i] == next {
          matched := matched + 1;
        } else {
          next := l[i];
          matched := 1;
        }
        next := 0x05 + 0xFA - next;
      } else {
        assert !Framed(l, r, i);
        return false;
      }
      i := i + 1;
      if matched == ENOUGH {
        assert i - ENOUGH + ENOUGH <= |l| && AllFramed(l, r, i - ENOUGH + ENOUGH) && Alternate(l, i - ENOUGH, ENOUGH);
        return true;
      }
      StillNoRun(l, i, matched);
    }
    return false;
  }

  /** No 32 alternating markers end within the first n. */
  ghost predicate NoRun(l: seq<bv8>, n: nat)
    requires n <= |l|
  {
    forall k: nat | k + ENOUGH <= n :: !Alternate(l, k, ENOUGH)
  }

  lemma StillNoRun(l: seq<bv8>, i: nat, matched: nat)
    requires 0 < i <= |l| && 0 < matched <= i && matched < ENOUGH
    requires NoRun(l, i - 1)
    requires matched < i ==> l[i - matched] != Other(l[i - matched - 1])
    ensures NoRun(l, i)
  {}

  /** Fewer than 32 frames are never recognised. */
  lemma TooFew(l: seq<bv8>, r: seq<bv8>)
    requires |l| == |r| < 32
    ensures !Detectable(l, r)
  {}

  /** Nor is a stream in which one of the first 32 frames has different or invalid marker bytes. */
  lemma BadMarker(l: seq<bv8>, r: seq<bv8>, i: nat)
    requires |l| == |r| && i < |l| && i < 32 && (l[i] != r[i] || (l[i] != 0x05 && l[i] != 0xFA))
    ensures !Detectable(l, r)
  {
    assert !Framed(l, r, i);
  }

  /** Nor one whose markers do not change. */
  lemma SameMarkers(l: seq<bv8>, r: seq<bv8>, b: bv8)
    requires |l| == |r| && forall j | 0 <= j < |l| :: l[j] == b
    ensures !Detectable(l, r)
  {
    NotItself(b);
    forall k: nat | k + ENOUGH <= |l| ensures !Alternate(l, k, ENOUGH) {
      assert l[k + 1] != Other(l[k]);
    }
  }

  lemma NotItself(b: bv8)
    ensures Other(b) != b
  {}

  // ---------------------------------------------------------------- marking

  datatype Frame = Frame(left: bv32, right: bv32)

  /** A sample word with the marker on top, its payload kept or complemented. */
  function Marked(marker: bv32, w: bv32, invert: bool): bv32 {
    ((if invert then !w else w) & 0x00FF_FF00) | (marker << 24)
  }

  function MarkedFrame(marker: bv32, f: Frame, invert: bool): Frame {
    Frame(Marked(marker, f.left, invert), Marked(marker, f.right, invert))
  }

  function OtherMarker(marker: bv32): bv32 {
    0x05 + 0xFA - marker
  }

  /** The marker n frames after `marker`. */
  function MarkerAfter(marker: bv32, n: nat): bv32 {
    if n % 2 == 0 then marker else OtherMarker(marker)
  }

  function FrameAt(a: seq<bv32>, i: nat): Frame
    requires 2 * i + 1 < |a|
  {
    Frame(a[2 * i], a[2 * i + 1])
  }

  /** The file's static marker. */
  class Phase {
    var marker: bv32

    constructor ()
      ensures marker == 0x05
    {
      marker := 0x05;
    }

    /** `update_dop` */
    method UpdateDop(a: array<bv32>, frames: nat, invert: bool)
      requires 2 * frames <= a.Length
      modifies this, a
      ensures marker == MarkerAfter(old(marker), frames)
      ensures forall i: nat | i < frames ::
        FrameAt(a[..], i) == MarkedFrame(MarkerAfter(old(marker), i), FrameAt(old(a[..]), i), invert)
      ensures a[2 * frames..] == old(a[2 * frames..])
    {
      hide Marked, OtherMarker, MarkerAfter;
      ghost var s := a[..];
      var i := 0;
      NoMarker(marker);
      while i < frames
        invariant 0 <= i <= frames && marker == MarkerAfter(old(marker), i)
        invariant forall k: nat | k < i ::
          FrameAt(a[..], k) == MarkedFrame(MarkerAfter(old(marker), k), FrameAt(s, k), invert)
        invariant a[2 * i..] == s[2 * i..]
      {
        assert a[2 * i] == s[2 * i..][0] && a[2 * i + 1] == s[2 * i..][1];
        a[2 * i] := Marked(marker, a[2 * i], invert);
        a[2 * i + 1] := Marked(marker, a[2 * i + 1], invert);
        NextMarker(old(marker), i);
        marker := OtherMarker(marker);
        i := i + 1;
      }
    }
  }

  lemma NoMarker(m: bv32)
    ensures MarkerAfter(m, 0) == m
  {}

  lemma NextMarker(m: bv32, i: nat)
    ensures MarkerAfter(m, i + 1) == OtherMarker(MarkerAfter(m, i))
  {
    hide OtherMarker;
    OtherTwice(m);
  }

  lemma OtherTwice(m: bv32)
    ensures OtherMarker(OtherMarker(m)) == m
  {}

  // ---------------------------------------------------------------- any sequence of calls

  /** A block of frames handed to `update_dop`: audio, inverted audio, or silence. */
  datatype Block = Block(frames: seq<Frame>, invert: bool)

  /** What one call makes of its block. */
  function Emit(marker: bv32, b: Block): (e: seq<Frame>)
    ensures |e| == |b.frames|
  {
    seq(|b.frames|, i requires 0 <= i < |b.frames| => MarkedFrame(MarkerAfter(marker, i), b.frames[i], b.invert))
  }

  function Emitted(marker: bv32, blocks: seq<Block>): seq<Frame>
    decreases |blocks|
  {
    if blocks == [] then []
    else Emit(marker, blocks[0]) + Emitted(MarkerAfter(marker, |blocks[0].frames|), blocks[1..])
  }

  /** The frames of all blocks in order, each with its block's polarity. */
  function Payload(blocks: seq<Block>): seq<(Frame, bool)> {
    if blocks == [] then []
    else Signs(blocks[0]) + Payload(blocks[1..])
  }

  function Signs(b: Block): (s: seq<(Frame, bool)>)
    ensures |s| == |b.frames|
  {
    seq(|b.frames|, i requires 0 <= i < |b.frames| => (b.frames[i], b.invert))
  }

  /** However the frames are divided into calls, frame i leaves with the i-th marker of one alternation. */
  lemma {:induction false} PhasePersists(marker: bv32, blocks: seq<Block>, i: nat)
    requires i < |Payload(blocks)|
    decreases |blocks|
    ensures |Emitted(marker, blocks)| == |Payload(blocks)|
    ensures Emitted(marker, blocks)[i]
         == MarkedFrame(MarkerAfter(marker, i), Payload(blocks)[i].0, Payload(blocks)[i].1)
  {
    hide MarkedFrame, MarkerAfter;
    var n := |blocks[0].frames|;
    var later := MarkerAfter(marker, n);
    EmittedLength(later, blocks[1..]);
    if i >= n {
      PhasePersists(later, blocks[1..], i - n);
      MarkersAdd(marker, n, i - n);
    }
  }

  lemma {:induction false} EmittedLength(marker: bv32, blocks: seq<Block>)
    decreases |blocks|
    ensures |Emitted(marker, blocks)| == |Payload(blocks)|
  {
    hide MarkedFrame, MarkerAfter;
    if blocks != [] {
      EmittedLength(MarkerAfter(marker, |blocks[0].frames|), blocks[1..]);
    }
  }

  lemma MarkersAdd(marker: bv32, m: nat, n: nat)
    ensures MarkerAfter(MarkerAfter(marker, m), n) == MarkerAfter(marker, m + n)
  {
    hide OtherMarker;
    OtherTwice(marker);
    ParityAdds(m, n);
  }

  lemma ParityAdds(m: nat, n: nat)
    ensures (m + n) % 2 == if m % 2 == 0 then n % 2 else 1 - n % 2
  {}

  // ---------------------------------------------------------------- the receiving end

  lemma MarkedWord(m: bv32, w: bv32, invert: bool)
    requires m == 0x05 || m == 0xFA
    ensures ByteOf(Marked(m, w, invert), 3) == m as bv8
    ensures ByteOf(Marked(m, w, invert), 0) == 0
    ensures ByteOf(Marked(m, w, invert), 1) == if invert then !ByteOf(w, 1) else ByteOf(w, 1)
    ensures ByteOf(Marked(m, w, invert), 2) == if invert then !ByteOf(w, 2) else ByteOf(w, 2)
  {}

  predicate IsMarker(m: bv32) {
    m == 0x05 || m == 0xFA
  }

  function LeftMarkers(e: seq<Frame>): (l: seq<bv8>)
    ensures |l| == |e|
  {
    seq(|e|, i requires 0 <= i < |e| => ByteOf(e[i].left, 3))
  }

  function RightMarkers(e: seq<Frame>): (r: seq<bv8>)
    ensures |r| == |e|
  {
    seq(|e|, i requires 0 <= i < |e| => ByteOf(e[i].right, 3))
  }

  /** And in either channel, below it, the two payload bytes of its own sample, as they are or complemented. */
  lemma PayloadFound(marker: bv32, blocks: seq<Block>, i: nat)
    requires IsMarker(marker) && i < |Payload(blocks)|
    ensures |Emitted(marker, blocks)| == |Payload(blocks)|
    ensures
      var e, p := Emitted(marker, blocks)[i], Payload(blocks)[i];
      && ByteOf(e.left, 1) == Either(ByteOf(p.0.left, 1), p.1) && ByteOf(e.left, 2) == Either(ByteOf(p.0.left, 2), p.1)
      && ByteOf(e.right, 1) == Either(ByteOf(p.0.right, 1), p.1)
      && ByteOf(e.right, 2) == Either(ByteOf(p.0.right, 2), p.1)
  {
    hide Emitted, Payload, Marked, ByteOf, Either;
    PhasePersists(marker, blocks, i);
    var m, p := MarkerAfter(marker, i), Payload(blocks)[i];
    MarkedPayload(m, p.0.left, p.1);
    MarkedPayload(m, p.0.right, p.1);
  }

  lemma MarkedPayload(m: bv32, w: bv32, invert: bool)
    requires IsMarker(m)
    ensures ByteOf(Marked(m, w, invert), 1) == Either(ByteOf(w, 1), invert)
    ensures ByteOf(Marked(m, w, invert), 2) == Either(ByteOf(w, 2), invert)
  {
    hide Marked, ByteOf;
    MarkedWord(m, w, invert);
  }

  function Either(b: bv8, invert: bool): bv8 {
    if invert then !b else b
  }

  /** The marker byte a receiver finds on frame i. */
  lemma MarkerFound(marker: bv32, blocks: seq<Block>, i: nat)
    requires IsMarker(marker) && i < |Payload(blocks)|
    ensures |Emitted(marker, blocks)| == |Payload(blocks)| && IsMarker(MarkerAfter(marker, i))
    ensures ByteOf(Emitted(marker, blocks)[i].left, 3) == MarkerAfter(marker, i) as bv8
    ensures ByteOf(Emitted(marker, blocks)[i].right, 3) == MarkerAfter(marker, i) as bv8
  {
    hide Emitted, Payload, Marked, ByteOf;
    PhasePersists(marker, blocks, i);
    var m, p := MarkerAfter(marker, i), Payload(blocks)[i];
    MarkedWord(m, p.0.left, p.1);
    MarkedWord(m, p.0.right, p.1);
  }

  lemma MarkerBytes(marker: bv32, i: nat)
    requires IsMarker(marker)
    ensures IsMarker(MarkerAfter(marker, i)) && Marker(MarkerAfter(marker, i) as bv8)
    ensures i > 0 ==> MarkerAfter(marker, i) as bv8 == Other(MarkerAfter(marker, i - 1) as bv8)
  {}

  /** Tuning in anywhere, a receiver that gets 32 frames recognises the stream. */
  lemma StreamIsDetected(marker: bv32, blocks: seq<Block>, from: nat, upto: nat)
    requires (marker == 0x05 || marker == 0xFA) && from + 32 <= upto <= |Payload(blocks)|
    ensures |Emitted(marker, blocks)| == |Payload(blocks)|
    ensures var e := Emitted(marker, blocks)[from..upto]; Detectable(LeftMarkers(e), RightMarkers(e))
  {
    hide Emitted, Payload, ByteOf, MarkerAfter, Other, Marker;
    EmittedLength(marker, blocks);
    var e := Emitted(marker, blocks)[from..upto];
    var l, r := LeftMarkers(e), RightMarkers(e);
    forall i: nat | i < |e|
      ensures IsMarker(MarkerAfter(marker, from + i))
      ensures l[i] == r[i] == MarkerAfter(marker, from + i) as bv8
    {
      MarkerFound(marker, blocks, from + i);
    }
    forall i: nat | i < |e|
      ensures Framed(l, r, i)
    {
      MarkerBytes(marker, from + i);
    }
    forall i | 0 < i < ENOUGH
      ensures l[i] == Other(l[i - 1])
    {
      MarkerBytes(marker, from + i);
    }
    assert 0 + ENOUGH <= |l| && AllFramed(l, r, 0 + ENOUGH) && Alternate(l, 0, ENOUGH);
  }

  /**
   * The scheduler forces unity gain on DoP, and packing to 24 bits then keeps what DoP needs: the marker and the two
   * payload bytes below it.
   */
  lemma PackedDop(s: seq<S32>, n: nat, i: nat)
    requires 2 * n <= |s| && i < n
    ensures |Pack.Packed(Pack.S24_3LE, s, n, FIXED_ONE, FIXED_ONE)| == 6 * n
    ensures Pack.Packed(Pack.S24_3LE, s, n, FIXED_ONE, FIXED_ONE)[6 * i..6 * i + 6] ==
      Pack.SampleBytes(Pack.S24_3LE, Word(s[2 * i])) + Pack.SampleBytes(Pack.S24_3LE, Word(s[2 * i + 1]))
  {
    hide ByteOf, Word, Pack.GainFrame, Pack.Packed, Pack.SampleBytes;
    Pack.PackedLength(Pack.S24_3LE, s, n, FIXED_ONE, FIXED_ONE);
    Pack.PackedAt(Pack.S24_3LE, s, n, FIXED_ONE, FIXED_ONE, i);
    Pack.UnityFrame(Pack.FrameAt(s, i));
  }

  lemma PackedMarker(s: seq<S32>, n: nat, i: nat)
    requires 2 * n <= |s| && i < n
    ensures |Pack.Packed(Pack.S24_3LE, s, n, FIXED_ONE, FIXED_ONE)| == 6 * n
    ensures Pack.Packed(Pack.S24_3LE, s, n, FIXED_ONE, FIXED_ONE)[6 * i + 2] == ByteOf(Word(s[2 * i]), 3)
    ensures Pack.Packed(Pack.S24_3LE, s, n, FIXED_ONE, FIXED_ONE)[6 * i + 5] == ByteOf(Word(s[2 * i + 1]), 3)
  {
    hide ByteOf, Word, Pack.Packed;
    PackedDop(s, n, i);
    var b := Pack.Packed(Pack.S24_3LE, s, n, FIXED_ONE, FIXED_ONE)[6 * i..6 * i + 6];
    assert b[2] == ByteOf(Word(s[2 * i]), 3) && b[5] == ByteOf(Word(s[2 * i + 1]), 3);
  }

  /** Byte `at` of each of 32 packed frames. */
  function Received(b: seq<bv8>, from: nat, at: nat): (r: seq<bv8>)
    requires 6 * (from + ENOUGH) <= |b| && at < 6
    ensures |r| == ENOUGH
  {
    seq(ENOUGH, j requires 0 <= j < ENOUGH => b[6 * (from + j) + at])
  }

  lemma ReceivedMarkers(b: seq<bv8>, from: nat, e: seq<Frame>)
    requires 6 * (from + ENOUGH) <= |b| && |e| == ENOUGH
    requires forall j | 0 <= j < ENOUGH :: b[6 * (from + j) + 2] == ByteOf(e[j].left, 3)
    requires forall j | 0 <= j < ENOUGH :: b[6 * (from + j) + 5] == ByteOf(e[j].right, 3)
    ensures Received(b, from, 2) == LeftMarkers(e) && Received(b, from, 5) == RightMarkers(e)
  {
    hide ByteOf;
  }

  /** So a receiver of packed 24-bit frames, looking at byte 2 of every 3, recognises the stream as well. */
  lemma PackedStreamIsDetected(marker: bv32, blocks: seq<Block>, s: seq<S32>, b: seq<bv8>, from: nat)
    requires (marker == 0x05 || marker == 0xFA) && from + ENOUGH <= |Payload(blocks)|
    requires |s| == 2 * |Payload(blocks)| && |Emitted(marker, blocks)| == |Payload(blocks)|
    requires forall i: nat | i < |Payload(blocks)| ::
      Emitted(marker, blocks)[i] == Frame(Word(s[2 * i]), Word(s[2 * i + 1]))
    requires b == Pack.Packed(Pack.S24_3LE, s, |Payload(blocks)|, FIXED_ONE, FIXED_ONE)
    ensures |b| == 6 * |Payload(blocks)|
    ensures Detectable(Received(b, from, 2), Received(b, from, 5))
  {
    hide Emitted, Payload, ByteOf, Word, Detectable, Received, Pack.Packed;
    var n := |Payload(blocks)|;
    Pack.PackedLength(Pack.S24_3LE, s, n, FIXED_ONE, FIXED_ONE);
    StreamIsDetected(marker, blocks, from, from + ENOUGH);
    var e := Emitted(marker, blocks)[from..from + ENOUGH];
    forall j | 0 <= j < ENOUGH
      ensures b[6 * (from + j) + 2] == ByteOf(e[j].left, 3) && b[6 * (from + j) + 5] == ByteOf(e[j].right, 3)
    {
      PackedMarker(s, n, from + j);
    }
    ReceivedMarkers(b, from, e);
  }
}
