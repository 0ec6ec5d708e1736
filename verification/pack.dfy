/** `_scale_and_pack_frames` for the little-endian PCM formats, on output memory seen as bytes. */
module Pack {
  import opened Samples
  import opened Words

  datatype Format = S16_LE | S24_LE | S24_3LE | S32_LE

  datatype Frame = Frame(left: S32, right: S32)

  /** Samples lie interleaved in the input buffer. */
  function FrameAt(s: seq<S32>, i: nat): Frame
    requires 2 * i + 1 < |s|
  {
    Frame(s[2 * i], s[2 * i + 1])
  }

  function Mixed(f: Frame, monoLeft: bool, monoRight: bool): Frame {
    if monoLeft && monoRight then Frame(Average(f.left, f.right), Average(f.left, f.right))
    else if monoRight then Frame(f.right, f.right)
    else if monoLeft then Frame(f.left, f.left)
    else f
  }

  /**
   * Mono: both channels carry the one that is asked for, or their mean, which lies between them and is half their
   * sum but for the half bit that is cut off towards zero; in stereo they stay as they are.
   */
  lemma MonoFrames(f: Frame, monoLeft: bool, monoRight: bool)
    ensures
      var m, sum := Mixed(f, monoLeft, monoRight), f.left + f.right;
      && (monoLeft || monoRight ==> m.left == m.right)
      && (monoLeft && !monoRight ==> m.left == f.left)
      && (monoRight && !monoLeft ==> m.right == f.right)
      && (!monoLeft && !monoRight ==> m == f)
      && (monoLeft && monoRight ==>
            && (f.left <= m.left <= f.right || f.right <= m.left <= f.left)
            && (sum >= 0 ==> sum - 1 <= 2 * m.left <= sum) && (sum <= 0 ==> sum <= 2 * m.left <= sum + 1))
  {}

  function GainFrame(f: Frame, gainL: S32, gainR: S32): Frame {
    Frame(Gain(gainL, f.left), Gain(gainR, f.right))
  }

  lemma UnityFrame(f: Frame)
    ensures GainFrame(f, FIXED_ONE, FIXED_ONE) == f
  {
    UnityGain(FIXED_ONE);
  }

  function Width(format: Format): nat {
    match format
    case S16_LE => 4
    case S24_3LE => 6
    case _ => 8
  }

  /** Where frame i begins. */
  function Offset(format: Format, i: nat): (n: nat)
    ensures i > 0 ==> n == Offset(format, i - 1) + Width(format)
  {
    match format
    case S16_LE => 4 * i
    case S24_3LE => 6 * i
    case _ => 8 * i
  }

  /** The sample's most significant bytes, least significant first. */
  function SampleBytes(format: Format, w: bv32): (b: seq<bv8>)
    ensures |b| * 2 == Width(format)
  {
    match format
    case S16_LE => [ByteOf(w, 2), ByteOf(w, 3)]
    case S24_3LE => [ByteOf(w, 1), ByteOf(w, 2), ByteOf(w, 3)]
    case S24_LE => [ByteOf(w, 1), ByteOf(w, 2), ByteOf(w, 3), if ByteOf(w, 3) & 0x80 != 0 then 0xff else 0]
    case S32_LE => BytesOf(w)
  }

  /** What a device makes of a sample's bytes: the word in 32 bits, in 24 of 32, or its upper 24 or 16 bits. */
  function Unpacked(format: Format, b: seq<bv8>): bv32
    requires |b| * 2 == Width(format)
  {
    match format
    case S16_LE => Joined(0, 0, b[0], b[1])
    case S24_3LE => Joined(0, b[0], b[1], b[2])
    case S24_LE => Joined(b[0], b[1], b[2], b[3])
    case S32_LE => Joined(b[0], b[1], b[2], b[3])
  }

  /** The most significant bits: the upper 16, the upper 24, those shifted down with the sign, or all. */
  function Kept(format: Format, w: bv32): bv32 {
    match format
    case S16_LE => w & 0xffff_0000
    case S24_3LE => w & 0xffff_ff00
    case S24_LE => ShiftRight8(w)
    case S32_LE => w
  }

  /** Packing keeps just these. */
  lemma UnpackedSample(format: Format, w: bv32)
    ensures Unpacked(format, SampleBytes(format, w)) == Kept(format, w)
  {
    hide Joined, ByteOf, ShiftRight8;
    JoinedBytes(w);
    JoinedShifted(w);
  }

  function FrameBytes(format: Format, f: Frame): (b: seq<bv8>)
    ensures |b| == Width(format)
  {
    SampleBytes(format, Word(f.left)) + SampleBytes(format, Word(f.right))
  }

  /** The packed form of the first n frames of s, each gained. */
  function Packed(format: Format, s: seq<S32>, n: nat, gainL: S32, gainR: S32): (b: seq<bv8>)
    requires 2 * n <= |s|
    ensures |b| == Offset(format, n)
  {
    if n == 0 then []
    else Packed(format, s, n - 1, gainL, gainR) + FrameBytes(format, GainFrame(FrameAt(s, n - 1), gainL, gainR))
  }

  lemma PackedLength(format: Format, s: seq<S32>, n: nat, gainL: S32, gainR: S32)
    requires 2 * n <= |s|
    ensures |Packed(format, s, n, gainL, gainR)| == Offset(format, n)
  {}

  /** Frame i of the packed output comes from frame i of the input, and from no other. */
  lemma {:induction false} PackedAt(format: Format, s: seq<S32>, n: nat, gainL: S32, gainR: S32, i: nat)
    requires 2 * n <= |s| && i < n
    ensures Offset(format, i) + Width(format) <= |Packed(format, s, n, gainL, gainR)|
    ensures Packed(format, s, n, gainL, gainR)[Offset(format, i)..Offset(format, i) + Width(format)]
         == FrameBytes(format, GainFrame(FrameAt(s, i), gainL, gainR))
  {
    hide *;
    PackedStep(format, s, n, gainL, gainR);
    var most := Packed(format, s, n - 1, gainL, gainR);
    var last := FrameBytes(format, GainFrame(FrameAt(s, n - 1), gainL, gainR));
    if i < n - 1 {
      PackedAt(format, s, n - 1, gainL, gainR, i);
      SliceOfFront(most, last, Offset(format, i), Width(format));
    } else {
      SliceOfBack(most, last);
    }
  }

  function LeftBytes(format: Format, b: seq<bv8>, i: nat): (l: seq<bv8>)
    requires Offset(format, i) + Width(format) <= |b|
    ensures |l| * 2 == Width(format)
  {
    b[Offset(format, i)..Offset(format, i) + Width(format) / 2]
  }

  function RightBytes(format: Format, b: seq<bv8>, i: nat): (r: seq<bv8>)
    requires Offset(format, i) + Width(format) <= |b|
    ensures |r| * 2 == Width(format)
  {
    b[Offset(format, i) + Width(format) / 2..Offset(format, i) + Width(format)]
  }

  /**
   * So a device that reads the packed output sample by sample gets, for frame i, what the format keeps of the left
   * sample at the left gain, and then of the right sample at the right gain.
   */
  lemma UnpackedAt(format: Format, s: seq<S32>, n: nat, gainL: S32, gainR: S32, i: nat)
    requires 2 * n <= |s| && i < n
    ensures Offset(format, i) + Width(format) <= |Packed(format, s, n, gainL, gainR)|
    ensures
      var b := Packed(format, s, n, gainL, gainR);
      && Unpacked(format, LeftBytes(format, b, i)) == Kept(format, Word(Gain(gainL, s[2 * i])))
      && Unpacked(format, RightBytes(format, b, i)) == Kept(format, Word(Gain(gainR, s[2 * i + 1])))
  {
    hide Packed, SampleBytes, Word, Gain, Offset, Unpacked, Kept;
    PackedAt(format, s, n, gainL, gainR, i);
    var b, at, width := Packed(format, s, n, gainL, gainR), Offset(format, i), Width(format);
    var l, r := Word(Gain(gainL, s[2 * i])), Word(Gain(gainR, s[2 * i + 1]));
    assert b[at..at + width] == SampleBytes(format, l) + SampleBytes(format, r);
    assert b[at..at + width / 2] == b[at..at + width][..width / 2] == SampleBytes(format, l);
    assert b[at + width / 2..at + width] == b[at..at + width][width / 2..] == SampleBytes(format, r);
    UnpackedSample(format, l);
    UnpackedSample(format, r);
  }

  lemma SliceOfFront<T>(a: seq<T>, b: seq<T>, i: nat, n: nat)
    requires i + n <= |a|
    ensures (a + b)[i..i + n] == a[i..i + n]
  {}

  lemma SliceOfBack<T>(a: seq<T>, b: seq<T>)
    ensures (a + b)[|a|..|a| + |b|] == b
  {}

  lemma PackedStep(format: Format, s: seq<S32>, n: nat, gainL: S32, gainR: S32)
    requires 0 < n && 2 * n <= |s|
    ensures Packed(format, s, n, gainL, gainR)
         == Packed(format, s, n - 1, gainL, gainR) + FrameBytes(format, GainFrame(FrameAt(s, n - 1), gainL, gainR))
    ensures |Packed(format, s, n - 1, gainL, gainR)| == Offset(format, n - 1)
    ensures |FrameBytes(format, GainFrame(FrameAt(s, n - 1), gainL, gainR))| == Width(format)
  {}

  /** d with the bytes b over those from offset `at` on */
  function Overlay(d: seq<bv8>, at: nat, b: seq<bv8>): seq<bv8>
    requires at + |b| <= |d|
  {
    d[..at] + b + d[at + |b|..]
  }

  lemma OverlayMore(d: seq<bv8>, at: nat, b: seq<bv8>, c: seq<bv8>)
    requires at + |b| + |c| <= |d|
    ensures Overlay(Overlay(d, at, b), at + |b|, c) == Overlay(d, at, b + c)
  {}

  method PutWord(out: array<bv8>, at: nat, w: bv32)
    requires at + 4 <= out.Length
    modifies out
    ensures out[..] == Overlay(old(out[..]), at, BytesOf(w))
  {
    hide ByteOf;
    out[at], out[at + 1], out[at + 2], out[at + 3] := ByteOf(w, 0), ByteOf(w, 1), ByteOf(w, 2), ByteOf(w, 3);
  }

  // ---------------------------------------------------------------- one or two frames at a time

  /** Three 32-bit stores move two frames. */
  method PutTwoFrames(out: array<bv8>, at: nat, f1: Frame, f2: Frame)
    requires at + 12 <= out.Length
    modifies out
    ensures out[..] == Overlay(old(out[..]), at, FrameBytes(S24_3LE, f1) + FrameBytes(S24_3LE, f2))
  {
    hide *;
    ghost var d := out[..];
    var l1, r1, l2, r2 := Word(f1.left), Word(f1.right), Word(f2.left), Word(f2.right);
    var w1 := ((l1 & 0xffff_ff00) >> 8) | ((r1 & 0x0000_ff00) << 16);
    var w2 := ((r1 & 0xffff_0000) >> 16) | ((l2 & 0x00ff_ff00) << 8);
    var w3 := ((l2 & 0xff00_0000) >> 24) | (r2 & 0xffff_ff00);
    WordLength(w1);
    WordLength(w2);
    WordLength(w3);
    PutWord(out, at, w1);
    PutWord(out, at + 4, w2);
    OverlayMore(d, at, BytesOf(w1), BytesOf(w2));
    PutWord(out, at + 8, w3);
    OverlayMore(d, at, BytesOf(w1) + BytesOf(w2), BytesOf(w3));
    TwoFrames(f1, f2, l1, r1, l2, r2);
  }

  lemma WordLength(w: bv32)
    ensures |BytesOf(w)| == 4
  {}

  lemma TwoFrames(f1: Frame, f2: Frame, l1: bv32, r1: bv32, l2: bv32, r2: bv32)
    requires l1 == Word(f1.left) && r1 == Word(f1.right) && l2 == Word(f2.left) && r2 == Word(f2.right)
    ensures BytesOf(((l1 & 0xffff_ff00) >> 8) | ((r1 & 0x0000_ff00) << 16))
      + BytesOf(((r1 & 0xffff_0000) >> 16) | ((l2 & 0x00ff_ff00) << 8))
      + BytesOf(((l2 & 0xff00_0000) >> 24) | (r2 & 0xffff_ff00))
      == FrameBytes(S24_3LE, f1) + FrameBytes(S24_3LE, f2)
  {
    hide ByteOf, BytesOf, Word;
    FirstWord(l1, r1);
    SecondWord(r1, l2);
    ThirdWord(l2, r2);
    Regrouped(ByteOf(l1, 1), ByteOf(l1, 2), ByteOf(l1, 3), ByteOf(r1, 1), ByteOf(r1, 2), ByteOf(r1, 3),
              ByteOf(l2, 1), ByteOf(l2, 2), ByteOf(l2, 3), ByteOf(r2, 1), ByteOf(r2, 2), ByteOf(r2, 3));
  }

  lemma Regrouped<T>(a: T, b: T, c: T, d: T, e: T, f: T, g: T, h: T, i: T, j: T, k: T, l: T)
    ensures [a, b, c, d] + [e, f, g, h] + [i, j, k, l] == ([a, b, c] + [d, e, f]) + ([g, h, i] + [j, k, l])
  {}

  /** The exception case: one frame, byte by byte. */
  method PutFrame(out: array<bv8>, at: nat, f: Frame)
    requires at + 6 <= out.Length
    modifies out
    ensures out[..] == Overlay(old(out[..]), at, FrameBytes(S24_3LE, f))
  {
    hide ByteOf, BytesOf, Word;
    var l, r := Word(f.left), Word(f.right);
    ByteByByte(l);
    ByteByByte(r);
    out[at] := ((l & 0x0000_ff00) >> 8) as bv8;
    out[at + 1] := ((l & 0x00ff_0000) >> 16) as bv8;
    out[at + 2] := ((l & 0xff00_0000) >> 24) as bv8;
    out[at + 3] := ((r & 0x0000_ff00) >> 8) as bv8;
    out[at + 4] := ((r & 0x00ff_0000) >> 16) as bv8;
    out[at + 5] := ((r & 0xff00_0000) >> 24) as bv8;
  }

  // ---------------------------------------------------------------- mono

  /** Mono copies in place, before packing. */
  method MixDown(input: array<S32>, cnt: nat, monoLeft: bool, monoRight: bool)
    requires 2 * cnt <= input.Length
    modifies input
    ensures forall i | 0 <= i < cnt :: FrameAt(input[..], i) == Mixed(FrameAt(old(input[..]), i), monoLeft, monoRight)
    ensures input[2 * cnt..] == old(input[2 * cnt..])
  {
    ghost var s := input[..];
    var i := 0;
    while i < cnt
      invariant 0 <= i <= cnt
      invariant forall k | 0 <= k < i :: FrameAt(input[..], k) == Mixed(FrameAt(s, k), monoLeft, monoRight)
      invariant input[2 * i..] == s[2 * i..]
    {
      assert input[2 * i] == s[2 * i..][0] && input[2 * i + 1] == s[2 * i..][1];
      if monoLeft && monoRight {
        var m := Average(input[2 * i], input[2 * i + 1]);
        input[2 * i], input[2 * i + 1] := m, m;
      } else if monoRight {
        input[2 * i] := input[2 * i + 1];
      } else if monoLeft {
        input[2 * i + 1] := input[2 * i];
      }
      i := i + 1;
    }
  }

  // ---------------------------------------------------------------- whole buffers

  /** What every packing loop has done when `done` frames are out. */
  ghost predicate Progress(
      out: seq<bv8>, before: seq<bv8>, format: Format, s: seq<S32>, done: nat, gainL: S32, gainR: S32)
  {
    2 * done <= |s| && Offset(format, done) <= |before|
    && out == Overlay(before, 0, Packed(format, s, done, gainL, gainR))
  }

  lemma NothingDone(d: seq<bv8>, format: Format, s: seq<S32>, gainL: S32, gainR: S32)
    ensures Progress(d, d, format, s, 0, gainL, gainR)
  {}

  lemma AllDone(out: seq<bv8>, d: seq<bv8>, format: Format, s: seq<S32>, cnt: nat, gainL: S32, gainR: S32)
    requires Progress(out, d, format, s, cnt, gainL, gainR)
    ensures 2 * cnt <= |s| && Offset(format, cnt) <= |d|
    ensures out == Overlay(d, 0, Packed(format, s, cnt, gainL, gainR))
  {}

  /** Overlaying one more frame is one more frame of progress. */
  lemma FrameDone(d: seq<bv8>, before: seq<bv8>, format: Format, s: seq<S32>, done: nat, gainL: S32, gainR: S32)
    requires Progress(d, before, format, s, done, gainL, gainR)
    requires 2 * done + 2 <= |s| && Offset(format, done + 1) <= |before| == |d|
    ensures |FrameBytes(format, GainFrame(FrameAt(s, done), gainL, gainR))| == Width(format)
    ensures Progress(
      Overlay(d, Offset(format, done), FrameBytes(format, GainFrame(FrameAt(s, done), gainL, gainR))),
      before, format, s, done + 1, gainL, gainR)
  {
    hide GainFrame, FrameBytes, Overlay, Packed;
    PackedStep(format, s, done + 1, gainL, gainR);
    var b := FrameBytes(format, GainFrame(FrameAt(s, done), gainL, gainR));
    OverlayMore(before, 0, Packed(format, s, done, gainL, gainR), b);
  }

  lemma TwoFramesDone(d: seq<bv8>, before: seq<bv8>, s: seq<S32>, done: nat, gainL: S32, gainR: S32)
    requires Progress(d, before, S24_3LE, s, done, gainL, gainR)
    requires 2 * done + 4 <= |s| && 6 * done + 12 <= |before| == |d|
    ensures |FrameBytes(S24_3LE, GainFrame(FrameAt(s, done), gainL, gainR))| == 6
    ensures |FrameBytes(S24_3LE, GainFrame(FrameAt(s, done + 1), gainL, gainR))| == 6
    ensures Progress(
      Overlay(d, 6 * done, FrameBytes(S24_3LE, GainFrame(FrameAt(s, done), gainL, gainR))
        + FrameBytes(S24_3LE, GainFrame(FrameAt(s, done + 1), gainL, gainR))),
      before, S24_3LE, s, done + 2, gainL, gainR)
  {
    hide GainFrame, FrameBytes, Overlay, Packed;
    var b := FrameBytes(S24_3LE, GainFrame(FrameAt(s, done), gainL, gainR));
    var c := FrameBytes(S24_3LE, GainFrame(FrameAt(s, done + 1), gainL, gainR));
    FrameDone(d, before, S24_3LE, s, done, gainL, gainR);
    OverlayLength(d, 6 * done, b);
    FrameDone(Overlay(d, 6 * done, b), before, S24_3LE, s, done + 1, gainL, gainR);
    OverlayMore(d, 6 * done, b, c);
  }

  lemma OverlayLength(d: seq<bv8>, at: nat, b: seq<bv8>)
    requires at + |b| <= |d|
    ensures |Overlay(d, at, b)| == |d|
  {}

  lemma GainedFrame(s: seq<S32>, i: nat, gainL: S32, gainR: S32)
    requires 2 * i + 1 < |s|
    ensures GainFrame(FrameAt(s, i), gainL, gainR) == Frame(Gain(gainL, s[2 * i]), Gain(gainR, s[2 * i + 1]))
  {}

  /** `S24_3LE` at unity gain, with `address` the place of `out` in memory. */
  method PackS243Unity(out: array<bv8>, address: nat, s: seq<S32>, cnt: nat)
    requires 2 * cnt <= |s| && 6 * cnt <= out.Length
    modifies out
    ensures out[..] == Overlay(old(out[..]), 0, Packed(S24_3LE, s, cnt, FIXED_ONE, FIXED_ONE))
  {
    hide Progress, Packed, FrameBytes, GainFrame, Overlay;
    ghost var d := out[..];
    var left, at := cnt, 0;
    NothingDone(d, S24_3LE, s, FIXED_ONE, FIXED_ONE);
    while left > 0
      invariant 0 <= left <= cnt && at == 6 * (cnt - left)
      invariant |out[..]| == |d| && Progress(out[..], d, S24_3LE, s, cnt - left, FIXED_ONE, FIXED_ONE)
    {
      if (address + at) % 4 == 0 && left >= 2 {
        while left >= 2
          invariant 0 <= left <= cnt && at == 6 * (cnt - left)
          invariant |out[..]| == |d| && Progress(out[..], d, S24_3LE, s, cnt - left, FIXED_ONE, FIXED_ONE)
        {
          var i := cnt - left;
          UnityFrame(FrameAt(s, i));
          UnityFrame(FrameAt(s, i + 1));
          TwoFramesDone(out[..], d, s, i, FIXED_ONE, FIXED_ONE);
          PutTwoFrames(out, at, Frame(s[2 * i], s[2 * i + 1]), Frame(s[2 * i + 2], s[2 * i + 3]));
          at := at + 12;
          left := left - 2;
        }
      } else {
        var i := cnt - left;
        UnityFrame(FrameAt(s, i));
        FrameDone(out[..], d, S24_3LE, s, i, FIXED_ONE, FIXED_ONE);
        PutFrame(out, at, Frame(s[2 * i], s[2 * i + 1]));
        at := at + 6;
        left := left - 1;
      }
    }
    AllDone(out[..], d, S24_3LE, s, cnt, FIXED_ONE, FIXED_ONE);
  }

  /** The same with gain. */
  method PackS243Gained(out: array<bv8>, address: nat, s: seq<S32>, cnt: nat, gainL: S32, gainR: S32)
    requires 2 * cnt <= |s| && 6 * cnt <= out.Length
    modifies out
    ensures out[..] == Overlay(old(out[..]), 0, Packed(S24_3LE, s, cnt, gainL, gainR))
  {
    hide Progress, Packed, FrameBytes, GainFrame, Overlay;
    ghost var d := out[..];
    var left, at := cnt, 0;
    NothingDone(d, S24_3LE, s, gainL, gainR);
    while left > 0
      invariant 0 <= left <= cnt && at == 6 * (cnt - left)
      invariant |out[..]| == |d| && Progress(out[..], d, S24_3LE, s, cnt - left, gainL, gainR)
    {
      if (address + at) % 4 == 0 && left >= 2 {
        while left >= 2
          invariant 0 <= left <= cnt && at == 6 * (cnt - left)
          invariant |out[..]| == |d| && Progress(out[..], d, S24_3LE, s, cnt - left, gainL, gainR)
        {
          var i := cnt - left;
          var f1 := Frame(Gain(gainL, s[2 * i]), Gain(gainR, s[2 * i + 1]));
          var f2 := Frame(Gain(gainL, s[2 * i + 2]), Gain(gainR, s[2 * i + 3]));
          GainedFrame(s, i, gainL, gainR);
          GainedFrame(s, i + 1, gainL, gainR);
          TwoFramesDone(out[..], d, s, i, gainL, gainR);
          PutTwoFrames(out, at, f1, f2);
          at := at + 12;
          left := left - 2;
        }
      } else {
        var i := cnt - left;
        GainedFrame(s, i, gainL, gainR);
        FrameDone(out[..], d, S24_3LE, s, i, gainL, gainR);
        PutFrame(out, at, Frame(Gain(gainL, s[2 * i]), Gain(gainR, s[2 * i + 1])));
        at := at + 6;
        left := left - 1;
      }
    }
    AllDone(out[..], d, S24_3LE, s, cnt, gainL, gainR);
  }

  method PackS243(out: array<bv8>, address: nat, s: seq<S32>, cnt: nat, gainL: S32, gainR: S32)
    requires 2 * cnt <= |s| && 6 * cnt <= out.Length
    modifies out
    ensures out[..] == Overlay(old(out[..]), 0, Packed(S24_3LE, s, cnt, gainL, gainR))
  {
    if gainL == FIXED_ONE && gainR == FIXED_ONE {
      PackS243Unity(out, address, s, cnt);
    } else {
      PackS243Gained(out, address, s, cnt, gainL, gainR);
    }
  }

  method PackS16(out: array<bv8>, s: seq<S32>, cnt: nat, gainL: S32, gainR: S32)
    requires 2 * cnt <= |s| && 4 * cnt <= out.Length
    modifies out
    ensures out[..] == Overlay(old(out[..]), 0, Packed(S16_LE, s, cnt, gainL, gainR))
  {
    hide Progress, Packed, FrameBytes, GainFrame, Overlay;
    ghost var d := out[..];
    NothingDone(d, S16_LE, s, gainL, gainR);
    var unity := gainL == FIXED_ONE && gainR == FIXED_ONE;
    var i := 0;
    while i < cnt
      invariant 0 <= i <= cnt
      invariant |out[..]| == |d| && Progress(out[..], d, S16_LE, s, i, gainL, gainR)
    {
      FrameDone(out[..], d, S16_LE, s, i, gainL, gainR);
      if unity {
        UnityFrame(FrameAt(s, i));
        PutHalfWords(out, 4 * i, Frame(s[2 * i], s[2 * i + 1]));
      } else {
        GainedFrame(s, i, gainL, gainR);
        PutHalfWords(out, 4 * i, Frame(Gain(gainL, s[2 * i]), Gain(gainR, s[2 * i + 1])));
      }
      i := i + 1;
    }
    AllDone(out[..], d, S16_LE, s, cnt, gainL, gainR);
  }

  method PackS24(out: array<bv8>, s: seq<S32>, cnt: nat, gainL: S32, gainR: S32)
    requires 2 * cnt <= |s| && 8 * cnt <= out.Length
    modifies out
    ensures out[..] == Overlay(old(out[..]), 0, Packed(S24_LE, s, cnt, gainL, gainR))
  {
    hide Progress, Packed, FrameBytes, GainFrame, Overlay;
    ghost var d := out[..];
    NothingDone(d, S24_LE, s, gainL, gainR);
    var unity := gainL == FIXED_ONE && gainR == FIXED_ONE;
    var i := 0;
    while i < cnt
      invariant 0 <= i <= cnt
      invariant |out[..]| == |d| && Progress(out[..], d, S24_LE, s, i, gainL, gainR)
    {
      FrameDone(out[..], d, S24_LE, s, i, gainL, gainR);
      if unity {
        UnityFrame(FrameAt(s, i));
        PutShifted(out, 8 * i, Frame(s[2 * i], s[2 * i + 1]));
      } else {
        GainedFrame(s, i, gainL, gainR);
        PutShifted(out, 8 * i, Frame(Gain(gainL, s[2 * i]), Gain(gainR, s[2 * i + 1])));
      }
      i := i + 1;
    }
    AllDone(out[..], d, S24_LE, s, cnt, gainL, gainR);
  }

  /** At unity gain this is a `memcpy`. */
  method PackS32(out: array<bv8>, s: seq<S32>, cnt: nat, gainL: S32, gainR: S32)
    requires 2 * cnt <= |s| && 8 * cnt <= out.Length
    modifies out
    ensures out[..] == Overlay(old(out[..]), 0, Packed(S32_LE, s, cnt, gainL, gainR))
  {
    hide Progress, Packed, FrameBytes, GainFrame, Overlay;
    ghost var d := out[..];
    NothingDone(d, S32_LE, s, gainL, gainR);
    var unity := gainL == FIXED_ONE && gainR == FIXED_ONE;
    var i := 0;
    while i < cnt
      invariant 0 <= i <= cnt
      invariant |out[..]| == |d| && Progress(out[..], d, S32_LE, s, i, gainL, gainR)
    {
      FrameDone(out[..], d, S32_LE, s, i, gainL, gainR);
      if unity {
        UnityFrame(FrameAt(s, i));
        PutWords(out, 8 * i, Frame(s[2 * i], s[2 * i + 1]));
      } else {
        GainedFrame(s, i, gainL, gainR);
        PutWords(out, 8 * i, Frame(Gain(gainL, s[2 * i]), Gain(gainR, s[2 * i + 1])));
      }
      i := i + 1;
    }
    AllDone(out[..], d, S32_LE, s, cnt, gainL, gainR);
  }

  method PutHalfWords(out: array<bv8>, at: nat, f: Frame)
    requires at + 4 <= out.Length
    modifies out
    ensures out[..] == Overlay(old(out[..]), at, FrameBytes(S16_LE, f))
  {
    hide ByteOf, Word, BytesOf, Overlay, ShiftRight16;
    var l, r := Word(f.left), Word(f.right);
    HalfWords(l, r);
    WordLength((ShiftRight16(l) & 0x0000_ffff) | (r & 0xffff_0000));
    PutWord(out, at, (ShiftRight16(l) & 0x0000_ffff) | (r & 0xffff_0000));
    assert [ByteOf(l, 2), ByteOf(l, 3)] + [ByteOf(r, 2), ByteOf(r, 3)]
      == [ByteOf(l, 2), ByteOf(l, 3), ByteOf(r, 2), ByteOf(r, 3)];
  }

  method PutShifted(out: array<bv8>, at: nat, f: Frame)
    requires at + 8 <= out.Length
    modifies out
    ensures out[..] == Overlay(old(out[..]), at, FrameBytes(S24_LE, f))
  {
    hide ByteOf, Word, BytesOf, Overlay, ShiftRight8;
    ghost var d := out[..];
    var l, r := Word(f.left), Word(f.right);
    SpreadSign(l);
    SpreadSign(r);
    PutWord(out, at, ShiftRight8(l));
    PutWord(out, at + 4, ShiftRight8(r));
    OverlayMore(d, at, BytesOf(ShiftRight8(l)), BytesOf(ShiftRight8(r)));
  }

  method PutWords(out: array<bv8>, at: nat, f: Frame)
    requires at + 8 <= out.Length
    modifies out
    ensures out[..] == Overlay(old(out[..]), at, FrameBytes(S32_LE, f))
  {
    hide ByteOf, Word, BytesOf, Overlay;
    ghost var d := out[..];
    var l, r := Word(f.left), Word(f.right);
    WordLength(l);
    WordLength(r);
    PutWord(out, at, l);
    PutWord(out, at + 4, r);
    OverlayMore(d, at, BytesOf(l), BytesOf(r));
  }

  /** `_scale_and_pack_frames`: the mono copies, then the loop of the format. */
  method ScaleAndPack(
      out: array<bv8>, address: nat, input: array<S32>, cnt: nat, gainL: S32, gainR: S32,
      monoLeft: bool, monoRight: bool, format: Format)
    requires 2 * cnt <= input.Length && Offset(format, cnt) <= out.Length && input as object != out as object
    modifies out, input
    ensures forall i | 0 <= i < cnt :: FrameAt(input[..], i) == Mixed(FrameAt(old(input[..]), i), monoLeft, monoRight)
    ensures input[2 * cnt..] == old(input[2 * cnt..])
    ensures out[..] == Overlay(old(out[..]), 0, Packed(format, input[..], cnt, gainL, gainR))
  {
    hide FrameAt, Mixed, Overlay, Packed;
    MixDown(input, cnt, monoLeft, monoRight);
    match format {
      case S16_LE => PackS16(out, input[..], cnt, gainL, gainR);
      case S24_LE => PackS24(out, input[..], cnt, gainL, gainR);
      case S24_3LE => PackS243(out, address, input[..], cnt, gainL, gainR);
      case S32_LE => PackS32(out, input[..], cnt, gainL, gainR);
    }
  }
}
