/**
 * The resumable Ogg page scanner `stream_ogg` (page layout: section 6 of RFC 3533), a byte at a time, and what a call
 * makes of bytes that lie in memory above others.
 */
module Ogg {
  import opened Bytes
  import opened Options

  datatype Phase = Sync | Header | Segments | PageBody

  /** What the scanner reported: pages it copied for parsing, and pages it jumped over. */
  datatype Event = Captured(header: seq<byte>, body: seq<byte>) | Skipped(header: seq<byte>, size: nat)

  /**
   * What parsing a page did: the new flac flag, what it left in the slot if it wrote there, and whether it finished.
   */
  datatype Parsed = Parsed(flac: bool, written: Option<seq<byte>>, done: bool)

  /**
   * The one slot for a metadata header, which is stream.header up to header_len, and the flag meta_send; with a record
   * of the headers that were completed, and of whether the slot still is as the last of them left it.
   */
  datatype Metadata = Metadata(slot: seq<byte>, send: bool, intact: bool, completed: seq<seq<byte>>)

  /** A page that turns out malformed half-way has overwritten the slot all the same. */
  function Wrote(m: Metadata, r: Parsed): Metadata {
    if r.written.None? then m
    else if r.done then Metadata(r.written.value, true, true, m.completed + [r.written.value])
    else m.(slot := r.written.value, intact := false)
  }

  predicate Finished(r: Parsed) {
    r.written.Some? && r.done
  }

  /** The tag search and comment extraction, any function of the flac flag and the page body. */
  type Parser = (bool, seq<byte>) -> Parsed

  /** The `ogg` structure; `data` is the bytes copied so far where the code has a pointer, None where it has NULL. */
  datatype State = State(
    phase: Phase,
    want: nat,
    miss: nat,
    matched: nat,
    data: Option<seq<byte>>,
    header: seq<byte>,
    serial: Option<nat>,           // None is ULLONG_MAX: looking for a first page
    flac: bool,
    events: seq<Event>,
    metadata: Metadata)

  const HEADER_SIZE: nat := 27
  const PATTERN: seq<byte> := [0x4F, 0x67, 0x67, 0x53]

  const INITIAL := State(Sync, 0, 0, 0, None, [], None, false, [], Metadata([], false, false, []))

  // ---------------------------------------------------------------- header fields

  function Little(b: seq<byte>): nat {
    if b == [] then 0 else b[0] + 256 * Little(b[1..])
  }

  predicate FirstPage(h: seq<byte>)
    requires |h| == HEADER_SIZE
  {
    (h[5] / 2) % 2 == 1
  }

  function Granule(h: seq<byte>): nat
    requires |h| == HEADER_SIZE
  {
    Little(h[6..14])
  }

  function Serial(h: seq<byte>): nat
    requires |h| == HEADER_SIZE
  {
    Little(h[14..18])
  }

  function Sum(b: seq<byte>): nat {
    if b == [] then 0 else b[0] + Sum(b[1..])
  }

  const NO_GRANULE: nat := 0xFFFF_FFFF_FFFF_FFFF

  /** The serial number the scanner follows after seeing a page header, and whether the page is one of its own. */
  function Follow(serial: Option<nat>, h: seq<byte>): Option<nat>
    requires |h| == HEADER_SIZE
  {
    var acquired := if serial.None? && FirstPage(h) then Some(Serial(h)) else serial;
    if acquired == Some(Serial(h)) && Granule(h) != 0 && Granule(h) != NO_GRANULE then None else acquired
  }

  // ---------------------------------------------------------------- what happens when a phase has its bytes

  function ToSync(s: State): State {
    s.(phase := Sync, data := None)
  }

  function FinishHeader(s: State): State
    requires s.data.Some? && |s.data.value| == HEADER_SIZE
  {
    var h := s.data.value;
    if h[..4] == PATTERN
    then s.(header := h, want := h[26], miss := h[26], data := Some([]), phase := Segments)
    else ToSync(s)
  }

  function FinishSegments(s: State): State
    requires s.data.Some? && |s.header| == HEADER_SIZE
  {
    var size := Sum(s.data.value);
    var t := s.(miss := size, want := size);
    if size == 0 then ToSync(t)
    else
      var serial := Follow(s.serial, s.header);
      var u := t.(serial := serial);
      if serial != Some(Serial(s.header))
      then ToSync(u).(events := s.events + [Skipped(s.header, size)])
      else u.(phase := PageBody, data := Some([]))
  }

  function FinishPage(s: State, parse: Parser): State
    requires s.data.Some?
  {
    var r := parse(s.flac, s.data.value);
    ToSync(s).(
      flac := r.flac,
      serial := if Finished(r) then None else s.serial,
      events := s.events + [Captured(s.header, s.data.value)],
      metadata := Wrote(s.metadata, r))
  }

  /** The controller has taken what the slot holds. */
  function Lowered(s: State): State {
    s.(metadata := s.metadata.(send := false))
  }

  /** States that occur between two bytes, or between two turns of the loop. */
  predicate Good(s: State) {
    && s.matched < 4
    && (s.phase.Sync? <==> s.data.None?)
    && (!s.phase.Sync? ==> s.matched == 0 && |s.data.value| + s.miss == s.want)
    && (s.phase.Sync? && s.miss > 0 ==> s.matched == 0)
    && (s.phase.Header? ==> s.want == HEADER_SIZE && s.miss > 0)
    && (s.phase.Segments? ==> |s.header| == HEADER_SIZE && (s.miss == 0 ==> s.want == 0))
    && (s.phase.PageBody? ==> |s.header| == HEADER_SIZE && s.miss > 0)
  }

  // ---------------------------------------------------------------- the scanner one byte at a time

  /** A page without segments is finished before the next byte is looked at. */
  function Settle(s: State): State
    requires Good(s)
  {
    if s.phase.Segments? && s.miss == 0 then FinishSegments(s) else s
  }

  function Feed(s: State, b: byte, parse: Parser): (r: State)
    requires Good(s)
  {
    var t := Settle(s);
    if t.phase.Sync? then
      if t.miss > 0 then t.(miss := t.miss - 1)
      else if b != PATTERN[t.matched] then t.(matched := 0)
      else if t.matched < 3 then t.(matched := t.matched + 1)
      else t.(phase := Header, want := HEADER_SIZE, miss := HEADER_SIZE - 4, data := Some(PATTERN), matched := 0)
    else Took(t, [b], parse)
  }

  /** Bytes copied into the buffer of the phase, and the phase finished if that was the last. */
  function Took(s: State, bs: seq<byte>, parse: Parser): State
    requires Good(s) && !s.phase.Sync? && |bs| <= s.miss
  {
    var u := s.(data := Some(s.data.value + bs), miss := s.miss - |bs|);
    if u.miss > 0 then u
    else match u.phase
      case Header => FinishHeader(u)
      case Segments => FinishSegments(u)
      case PageBody => FinishPage(u, parse)
  }

  lemma FeedGood(s: State, b: byte, parse: Parser)
    requires Good(s)
    ensures Good(Feed(s, b, parse)) && Good(Settle(s))
  {}

  function FeedAll(s: State, bs: seq<byte>, parse: Parser): (r: State)
    requires Good(s)
    ensures Good(r)
    decreases |bs|
  {
    if bs == [] then s
    else
      FeedGood(s, bs[0], parse);
      FeedAll(Feed(s, bs[0], parse), bs[1..], parse)
  }

  /** Chunk independence of the byte machine. */
  lemma {:induction false} FeedInChunks(s: State, a: seq<byte>, b: seq<byte>, parse: Parser)
    requires Good(s)
    ensures FeedAll(s, a + b, parse) == FeedAll(FeedAll(s, a, parse), b, parse)
    decreases |a|
  {
    hide Feed, Good;
    if a == [] {
      assert a + b == b;
    } else {
      FeedGood(s, a[0], parse);
      assert (a + b)[1..] == a[1..] + b;
      FeedInChunks(Feed(s, a[0], parse), a[1..], b, parse);
    }
  }

  lemma FeedAllStep(s: State, bs: seq<byte>, parse: Parser)
    requires Good(s)
    ensures bs == [] ==> FeedAll(s, bs, parse) == s
    ensures bs != [] ==>
      Good(Feed(s, bs[0], parse)) && FeedAll(s, bs, parse) == FeedAll(Feed(s, bs[0], parse), bs[1..], parse)
  {
    if bs != [] {
      FeedGood(s, bs[0], parse);
    }
  }

  /** Copying into the buffer of a phase, byte by byte or in one go. */
  lemma {:induction false} FeedCopies(s: State, bs: seq<byte>, parse: Parser)
    requires Good(s) && !s.phase.Sync? && 0 < |bs| <= s.miss
    ensures FeedAll(s, bs, parse) == Took(s, bs, parse)
    decreases |bs|
  {
    FeedAllStep(s, bs, parse);
    hide FeedAll;
    var t := Took(s, [bs[0]], parse);
    assert Feed(s, bs[0], parse) == t;
    assert [bs[0]] + bs[1..] == bs;
    FeedGood(s, bs[0], parse);
    if |bs| == 1 {
      assert bs == [bs[0]] && bs[1..] == [];
      FeedAllStep(t, bs[1..], parse);
    } else {
      FeedCopies(t, bs[1..], parse);
      assert s.data.value + [bs[0]] + bs[1..] == s.data.value + bs;
      assert Took(t, bs[1..], parse) == Took(s, bs, parse);
    }
  }

  /** Jumping over the body of a page that is not followed. */
  lemma {:induction false} FeedSkips(s: State, bs: seq<byte>, parse: Parser)
    requires Good(s) && s.phase.Sync? && |bs| <= s.miss
    ensures Good(s.(miss := s.miss - |bs|)) && FeedAll(s, bs, parse) == s.(miss := s.miss - |bs|)
    decreases |bs|
  {
    FeedAllStep(s, bs, parse);
    hide FeedAll;
    if bs != [] {
      FeedSkips(s.(miss := s.miss - 1), bs[1..], parse);
    }
  }

  /** The state after the pattern has been recognised but not yet copied. */
  function AtHeader(s: State): State {
    s.(phase := Header, want := HEADER_SIZE, miss := HEADER_SIZE, data := Some([]), matched := 0)
  }

  function PastPattern(s: State): State {
    s.(phase := Header, want := HEADER_SIZE, miss := HEADER_SIZE - 4, data := Some(PATTERN), matched := 0)
  }

  /** These bytes complete a pattern of which a part was recognised before them. */
  predicate Completes(s: State, bs: seq<byte>)
    requires s.matched < 4
  {
    s.matched > 0 && PATTERN[s.matched..] <= bs
  }

  /**
   * What a call of `stream_ogg` makes of bytes bs that lie in memory just above `below`: for a pattern that began
   * before them it steps back over as many bytes as were recognised, and copies what lies there into the header.
   */
  function Scanned(s: State, below: seq<byte>, bs: seq<byte>, parse: Parser): (r: State)
    requires Good(s) && s.matched <= |below|
    ensures Good(r)
  {
    if Completes(s, bs) then
      AtHeaderGood(s);
      FeedAll(AtHeader(s), below[|below| - s.matched..] + bs, parse)
    else FeedAll(s, bs, parse)
  }

  /** Stepping back over the pattern and copying it is the same as jumping past it. */
  lemma StepBack(s: State, rest: seq<byte>, parse: Parser)
    requires Good(s) && s.phase.Sync? && s.miss == 0
    ensures Good(AtHeader(s)) && Good(PastPattern(s))
    ensures FeedAll(AtHeader(s), PATTERN + rest, parse) == FeedAll(PastPattern(s), rest, parse)
  {
    var h := AtHeader(s);
    assert Took(h, PATTERN, parse) == PastPattern(s) by {
      assert [] + PATTERN == PATTERN;
    }
    hide FeedAll, Took, Good;
    FeedInChunks(h, PATTERN, rest, parse);
    AtHeaderGood(s);
    FeedCopies(h, PATTERN, parse);
  }

  lemma AtHeaderGood(s: State)
    requires Good(s) && s.phase.Sync? && s.miss == 0
    ensures Good(AtHeader(s)) && Good(PastPattern(s)) && AtHeader(s).phase.Header? && AtHeader(s).miss == HEADER_SIZE
  {}
}
