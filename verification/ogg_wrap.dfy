/** One call of `stream_ogg` where the memory below the new bytes is not what was received before them. */
module OggWrap {
  import opened Bytes
  import opened Ogg
  import opened OggPages
  import opened Options

  /** The step back of a call, if it makes one, finds what was recognised before. */
  predicate Faithful(s: State, below: seq<byte>, bs: seq<byte>)
    requires Good(s) && s.matched <= |below|
  {
    Completes(s, bs) ==> below[|below| - s.matched..] == PATTERN[..s.matched]
  }

  lemma CompletesInSync(s: State, bs: seq<byte>)
    requires Good(s) && Completes(s, bs)
    ensures s.phase.Sync? && s.miss == 0 && s.data.None?
    ensures bs == PATTERN[s.matched..] + bs[4 - s.matched..]
    ensures Good(PastPattern(s)) && Good(AtHeader(s))
  {
    assert bs == bs[..4 - s.matched] + bs[4 - s.matched..];
  }

  /** The byte machine recognises the rest of a pattern begun before. */
  lemma {:induction false} RestOfPattern(s: State, parse: Parser)
    requires Good(s) && s.phase.Sync? && s.miss == 0
    decreases 4 - s.matched
    ensures Good(PastPattern(s)) && FeedAll(s, PATTERN[s.matched..], parse) == PastPattern(s)
  {
    var rest := PATTERN[s.matched..];
    assert rest[1..] == PATTERN[s.matched + 1..];
    FeedAllStep(s, rest, parse);
    if s.matched == 3 {
      FeedAllStep(PastPattern(s), [], parse);
      hide FeedAll;
    } else {
      hide FeedAll;
      RestOfPattern(s.(matched := s.matched + 1), parse);
    }
  }

  /** What each does once the pattern is complete. */
  lemma AfterPattern(s: State, below: seq<byte>, bs: seq<byte>, parse: Parser)
    requires Good(s) && s.matched <= |below| && Completes(s, bs)
    ensures
      var found := below[|below| - s.matched..] + PATTERN[s.matched..];
      var rest := bs[4 - s.matched..];
      && var t := PastPattern(s).(data := Some(found));
      && Good(t) && Good(PastPattern(s))
      && FeedAll(s, bs, parse) == FeedAll(PastPattern(s), rest, parse)
      && Scanned(s, below, bs, parse) == FeedAll(t, rest, parse)
  {
    CompletesInSync(s, bs);
    var found := below[|below| - s.matched..] + PATTERN[s.matched..];
    var rest := bs[4 - s.matched..];
    assert below[|below| - s.matched..] + bs == found + rest;
    assert [] + found == found;
    assert Took(AtHeader(s), found, parse) == PastPattern(s).(data := Some(found));
    hide FeedAll, Took;
    FeedInChunks(s, PATTERN[s.matched..], rest, parse);
    RestOfPattern(s, parse);
    FeedInChunks(AtHeader(s), found, rest, parse);
    FeedCopies(AtHeader(s), found, parse);
  }

  lemma FaithfulCall(s: State, below: seq<byte>, bs: seq<byte>, parse: Parser)
    requires Good(s) && s.matched <= |below| && Faithful(s, below, bs)
    ensures Scanned(s, below, bs, parse) == FeedAll(s, bs, parse)
  {
    hide FeedAll;
    if Completes(s, bs) {
      hide Scanned;
      AfterPattern(s, below, bs, parse);
      assert PATTERN[..s.matched] + PATTERN[s.matched..] == PATTERN;
    }
  }

  /** A call is in step with the byte machine at each of its bytes exactly when its step back is faithful. */
  lemma FaithfulIff(s: State, below: seq<byte>, bs: seq<byte>, parse: Parser)
    requires Good(s) && s.matched <= |below|
    ensures Faithful(s, below, bs)
       <==> forall k | 0 <= k <= |bs| :: Scanned(s, below, bs[..k], parse) == FeedAll(s, bs[..k], parse)
  {
    hide FeedAll, Scanned;
    if Faithful(s, below, bs) {
      forall k | 0 <= k <= |bs|
        ensures Scanned(s, below, bs[..k], parse) == FeedAll(s, bs[..k], parse)
      {
        FaithfulCall(s, below, bs[..k], parse);
      }
    } else {
      var k := 4 - s.matched;
      assert Completes(s, bs[..k]);
      OutOfStep(s, below, bs[..k], parse);
    }
  }

  /** Until its header is complete, the two differ in it. */
  lemma OutOfStep(s: State, below: seq<byte>, bs: seq<byte>, parse: Parser)
    requires Good(s) && s.matched <= |below| && !Faithful(s, below, bs) && s.matched + |bs| <= HEADER_SIZE
    ensures Scanned(s, below, bs, parse) != FeedAll(s, bs, parse)
  {
    AfterPattern(s, below, bs, parse);
    var was, found := below[|below| - s.matched..], below[|below| - s.matched..] + PATTERN[s.matched..];
    var rest := bs[4 - s.matched..];
    var t := PastPattern(s).(data := Some(found));
    Differ(was, s.matched, rest);
    if rest == [] {
      FeedAllStep(t, rest, parse);
      FeedAllStep(PastPattern(s), rest, parse);
      hide FeedAll, Scanned;
    } else {
      FeedCopies(t, rest, parse);
      FeedCopies(PastPattern(s), rest, parse);
      hide FeedAll, Scanned;
    }
  }

  lemma Differ(was: seq<byte>, m: nat, rest: seq<byte>)
    requires 0 < m == |was| < 4 && was != PATTERN[..m]
    ensures was + PATTERN[m..] + rest != PATTERN + rest
    ensures (was + PATTERN[m..] + rest)[..4] == was + PATTERN[m..] != PATTERN
    ensures was + PATTERN[m..] != PATTERN && was + PATTERN[m..] + [] == was + PATTERN[m..]
  {
    var all := was + PATTERN[m..] + rest;
    assert all[..m] == was && (PATTERN + rest)[..m] == PATTERN[..m];
    assert all[..4] == was + PATTERN[m..];
    assert (was + PATTERN[m..])[..m] == was;
  }

  // ---------------------------------------------------------------- what is lost

  /** Looking for the next page, the header that was there unread. */
  function Missed(s: State): State {
    s.(phase := Sync, want := HEADER_SIZE, miss := 0, matched := 0, data := None)
  }

  /** Where the byte machine is after the rest of the header. */
  function InSegments(s: State, h: seq<byte>): State
    requires |h| == HEADER_SIZE
  {
    s.(phase := Segments, header := h, want := h[26], miss := h[26], matched := 0, data := Some([]))
  }

  /**
   * The failing side: the byte machine goes on to the lacing values of the page whose header this is, and the call
   * drops the header and looks for another pattern in what follows it.
   */
  lemma HeaderMissed(s: State, below: seq<byte>, bs: seq<byte>, parse: Parser)
    requires Good(s) && s.matched <= |below| && !Faithful(s, below, bs) && s.matched + |bs| >= HEADER_SIZE
    ensures
      var h := PATTERN[..s.matched] + bs[..HEADER_SIZE - s.matched];
      var rest := bs[HEADER_SIZE - s.matched..];
      && |h| == HEADER_SIZE && Good(Missed(s)) && Good(InSegments(s, h))
      && Scanned(s, below, bs, parse) == FeedAll(Missed(s), rest, parse)
      && FeedAll(s, bs, parse) == FeedAll(InSegments(s, h), rest, parse)
  {
    var m := s.matched;
    var h := PATTERN[..m] + bs[..HEADER_SIZE - m];
    var tail, rest := bs[4 - m..HEADER_SIZE - m], bs[HEADER_SIZE - m..];
    var found := below[|below| - m..] + PATTERN[m..];
    var t := PastPattern(s).(data := Some(found));
    CompletesInSync(s, bs);
    assert bs[4 - m..] == tail + rest;
    assert PATTERN + tail == h;
    assert h[..4] == PATTERN;
    Differ(below[|below| - m..], m, tail);
    assert Took(t, tail, parse) == Missed(s);
    assert Took(PastPattern(s), tail, parse) == InSegments(s, h);
    AfterPattern(s, below, bs, parse);
    hide FeedAll, Took, Scanned;
    FeedInChunks(t, tail, rest, parse);
    FeedInChunks(PastPattern(s), tail, rest, parse);
    FeedCopies(t, tail, parse);
    FeedCopies(PastPattern(s), tail, parse);
  }

  /** A whole page with no 'O' behind its header leaves no trace then: no event, no metadata, no serial number. */
  lemma PageMissed(s: State, below: seq<byte>, g: Page, parse: Parser)
    requires Good(s) && 0 < s.matched <= |below| && below[|below| - s.matched..] != PATTERN[..s.matched]
    requires WellFormed(g) && 0x4F !in g.lacing + g.body
    ensures Scanned(s, below, Encode(g)[s.matched..], parse) == Missed(s)
  {
    var bs := Encode(g)[s.matched..];
    assert Encode(g)[..4] == HeaderOf(g)[..4] == PATTERN;
    assert bs[..4 - s.matched] == Encode(g)[s.matched..4] == PATTERN[s.matched..];
    assert bs[HEADER_SIZE - s.matched..] == g.lacing + g.body;
    hide FeedAll, Scanned, Encode;
    HeaderMissed(s, below, bs, parse);
    NoStart(Missed(s), g.lacing + g.body, parse);
  }
}
