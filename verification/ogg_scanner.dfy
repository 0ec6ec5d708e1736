/** `stream_ogg` and `memfind` as loops over the stream, and what they do with whole pages. */
module OggScanner {
  import opened Bytes
  import opened Ogg
  import opened Options

  /**
   * Of the bytes looked at so far, either all went on with the pattern, or one of them broke off what was recognised
   * before and the last m are the part recognised since.
   */
  ghost predicate Tracked(s: State, h: seq<byte>, pos: nat, m: nat)
    requires s.matched < 4
  {
    pos <= |h| && m <= 4
    && if m == s.matched + pos then h[..pos] == PATTERN[s.matched..m]
       else m < pos && h[pos - m..pos] == PATTERN[..m] && !Completes(s, h)
  }

  lemma TrackedOn(s: State, h: seq<byte>, pos: nat, m: nat)
    requires s.matched < 4 && m < 4 && pos < |h| && Tracked(s, h, pos, m)
    ensures Tracked(s, h, pos + 1, if h[pos] == PATTERN[m] then m + 1 else 0)
  {
    if m == s.matched + pos {
      if h[pos] == PATTERN[m] {
        assert h[..pos + 1] == h[..pos] + [h[pos]];
        assert PATTERN[s.matched..m + 1] == PATTERN[s.matched..m] + [PATTERN[m]];
      } else {
        assert PATTERN[s.matched..][pos] == PATTERN[m];
      }
    } else if h[pos] == PATTERN[m] {
      assert h[pos - m..pos + 1] == h[pos - m..pos] + [h[pos]];
      assert PATTERN[..m + 1] == PATTERN[..m] + [PATTERN[m]];
    }
  }

  lemma TrackedToEnd(s: State, h: seq<byte>, pos: nat, m: nat)
    requires s.matched < 4 && Tracked(s, h, pos, m) && (m == 4 || pos == |h|)
    ensures m < 4 || pos >= 4 ==> !Completes(s, h)
    ensures m == 4 && pos < 4 ==> Completes(s, h) && pos + s.matched == 4
    ensures m == 4 && pos >= 4 ==> h[pos - 4..] == PATTERN + h[pos..]
  {
    assert PATTERN[s.matched..4] == PATTERN[s.matched..];
    assert PATTERN[..4] == PATTERN;
    if m == 4 && pos >= 4 {
      assert h[pos - 4..] == h[pos - 4..pos] + h[pos..];
    }
  }

  /** The search state after `matched` bytes of the pattern. */
  function Searching(s: State, matched: nat): State {
    if matched < 4 then s.(matched := matched) else PastPattern(s)
  }

  /** Where the search stands in the new bytes h. */
  ghost predicate Underway(s: State, h: seq<byte>, pos: nat, m: nat, parse: Parser)
    requires Good(s)
  {
    Tracked(s, h, pos, m) && Good(Searching(s, m)) && FeedAll(s, h, parse) == FeedAll(Searching(s, m), h[pos..], parse)
  }

  lemma SearchStarts(s: State, h: seq<byte>, parse: Parser)
    requires Good(s)
    ensures Underway(s, h, 0, s.matched, parse)
  {
    hide FeedAll;
    assert h[0..] == h;
  }

  lemma SearchStep(s: State, h: seq<byte>, pos: nat, m: nat, parse: Parser)
    requires Good(s) && s.phase.Sync? && s.miss == 0 && pos < |h| && m < 4 && Underway(s, h, pos, m, parse)
    ensures Underway(s, h, pos + 1, if h[pos] == PATTERN[m] then m + 1 else 0, parse)
  {
    FeedAllStep(s.(matched := m), h[pos..], parse);
    hide FeedAll, Tracked;
    assert h[pos..][1..] == h[pos + 1..];
    TrackedOn(s, h, pos, m);
  }

  /** What `memfind` promises of the offset and the count of recognised bytes it leaves. */
  ghost predicate Found(s: State, h: seq<byte>, pos: nat, m: nat, parse: Parser)
    requires Good(s) && s.phase.Sync? && s.miss == 0
  {
    AtHeaderGood(s);
    && pos <= |h| && m <= 4
    && (m < 4 ==> pos == |h| && !Completes(s, h) && FeedAll(s, h, parse) == s.(matched := m))
    && (m == 4 && pos < 4 ==> Completes(s, h) && pos + s.matched == 4)
    && (m == 4 && pos >= 4 ==> !Completes(s, h) && FeedAll(s, h, parse) == FeedAll(AtHeader(s), h[pos - 4..], parse))
  }

  lemma SearchEnds(s: State, h: seq<byte>, pos: nat, m: nat, parse: Parser)
    requires Good(s) && s.phase.Sync? && s.miss == 0 && Underway(s, h, pos, m, parse) && (m == 4 || pos == |h|)
    ensures Found(s, h, pos, m, parse)
  {
    AtHeaderGood(s);
    FeedAllStep(Searching(s, m), h[pos..], parse);
    TrackedToEnd(s, h, pos, m);
    hide FeedAll, Completes, AtHeader, Good;
    if m == 4 {
      StepBack(s, h[pos..], parse);
    }
  }

  /** `memfind` for "OggS" in new bytes h; a mismatch forgets everything recognised, also when it is an 'O'. */
  method MemFind(h: seq<byte>, matched0: nat, ghost s: State, parse: Parser) returns (pos: nat, matched: nat)
    requires Good(s) && s.phase.Sync? && s.miss == 0 && s.matched == matched0 < 4
    ensures Found(s, h, pos, matched, parse)
  {
    hide Underway, Found, Searching, FeedAll, Feed;
    SearchStarts(s, h, parse);
    pos, matched := 0, matched0;
    while pos < |h| && matched != 4
      invariant pos <= |h| && matched <= 4 && Underway(s, h, pos, matched, parse)
    {
      SearchStep(s, h, pos, matched, parse);
      matched := if h[pos] == PATTERN[matched] then matched + 1 else 0;
      pos := pos + 1;
    }
    SearchEnds(s, h, pos, matched, parse);
  }

  /** The `ogg` structure of stream.c. */
  class Scanner {
    const parse: Parser
    var phase: Phase
    var want: nat
    var miss: nat
    var matched: nat
    var data: Option<seq<byte>>
    var header: seq<byte>
    var serial: Option<nat>
    var flac: bool
    ghost var events: seq<Event>
    var metadata: Metadata

    ghost function Now(): State
      reads this
    {
      State(phase, want, miss, matched, data, header, serial, flac, events, metadata)
    }

    /** The fields as stream_sock sets them for an Ogg stream. */
    constructor (parse: Parser)
      ensures Now() == INITIAL && Good(Now()) && this.parse == parse
    {
      this.parse := parse;
      phase, want, miss, matched, data := Sync, 0, 0, 0, None;
      header, serial, flac, events, metadata := [], None, false, [], Metadata([], false, false, []);
    }

    /** Where the loop stands: what is left to scan from here gives the result of the whole call. */
    ghost predicate Scanning(w: seq<byte>, p: nat, goal: State)
      reads this
    {
      Good(Now()) && matched <= p <= |w| && Scanned(Now(), w[..p], w[p..], parse) == goal
    }

    function Rank(): nat
      reads this
    {
      match phase
      case Header => 0
      case Sync => 1
      case Segments => 2
      case PageBody => 2
    }

    /**
     * `stream_ogg`: the new bytes are w[start..], and w[..start] is what lies below them in memory, whatever that is.
     * Where they begin the stream buffer, it is not part of the buffer.
     */
    method StreamOgg(w: seq<byte>, start: nat)
      requires matched <= start <= |w| && Good(Now())
      modifies this
      ensures Good(Now())
      ensures Now() == Scanned(old(Now()), w[..start], w[start..], parse)
    {
      hide FeedAll, Scanned, Took, Good, FinishHeader, FinishSegments, FinishPage;
      ghost var goal := Scanned(Now(), w[..start], w[start..], parse);
      var p := start;
      while p < |w|
        invariant p <= |w| && Scanning(w, p, goal)
        decreases |w| - p + matched, Rank()
      {
        var done;
        p, done := Turn(w, p, goal);
        if done {
          return;
        }
      }
      assert w[p..] == [];
      NothingScanned(Now(), w[..p], parse);
    }

    /** One turn of the loop. */
    method Turn(w: seq<byte>, p0: nat, ghost goal: State) returns (p: nat, done: bool)
      requires p0 < |w| && Scanning(w, p0, goal)
      modifies this
      ensures done ==> Now() == goal && Good(Now())
      ensures !done ==> p <= |w| && Scanning(w, p, goal)
      ensures !done ==> |w| - p + matched < |w| - p0 + old(matched)
                        || (|w| - p + matched == |w| - p0 + old(matched) && Rank() < old(Rank()))
    {
      hide FeedAll, Scanned, Took, Good;
      match phase
      case Sync =>
        p, done := SyncTurn(w, p0, goal);
      case _ =>
        p, done := CopyTurn(w, p0, goal);
    }

    method SyncTurn(w: seq<byte>, p0: nat, ghost goal: State) returns (p: nat, done: bool)
      requires p0 < |w| && Scanning(w, p0, goal) && phase.Sync?
      modifies this
      ensures done ==> Now() == goal && Good(Now())
      ensures !done ==> p <= |w| && Scanning(w, p, goal)
      ensures !done ==> |w| - p + matched < |w| - p0 + old(matched)
                        || (|w| - p + matched == |w| - p0 + old(matched) && Rank() < old(Rank()))
    {
      hide FeedAll, Scanned, Took;
      var consumed := if miss < |w| - p0 then miss else |w| - p0;
      if consumed > 0 {
        SkipFacts(Now(), w, p0, consumed, parse);
        miss := miss - consumed;
        return p0 + consumed, false;
      }
      var pos, m := MemFind(w[p0..], matched, Now(), parse);
      if m == 4 {
        FoundFacts(Now(), w, p0, pos, parse);
        phase, want, miss, data, matched := Header, HEADER_SIZE, HEADER_SIZE, Some([]), 0;
        return p0 + pos - 4, false;
      }
      NotFoundFacts(Now(), w[..p0], w[p0..], parse);
      matched := m;
      return p0, true;
    }

    method CopyTurn(w: seq<byte>, p0: nat, ghost goal: State) returns (p: nat, done: bool)
      requires p0 < |w| && Scanning(w, p0, goal) && !phase.Sync?
      modifies this
      ensures done ==> Now() == goal && Good(Now())
      ensures !done ==> p <= |w| && Scanning(w, p, goal)
      ensures !done ==> |w| - p + matched < |w| - p0 + old(matched)
                        || (|w| - p + matched == |w| - p0 + old(matched) && Rank() < old(Rank()))
    {
      hide FeedAll, Took, Good, FinishHeader, FinishSegments, FinishPage;
      ghost var s := Now();
      var consumed := if miss < |w| - p0 then miss else |w| - p0;
      CopyFacts(s, w, p0, consumed, parse);
      data := Some(data.value + w[p0..p0 + consumed]);
      miss := miss - consumed;
      if miss > 0 {
        return p0, true;
      }
      if phase.Header? {
        OnHeader();
      } else if phase.Segments? {
        OnSegments();
      } else {
        OnPage();
      }
      return p0 + consumed, false;
    }

    method OnHeader()
      requires data.Some? && |data.value| == HEADER_SIZE
      modifies this
      ensures Now() == old(FinishHeader(Now()))
    {
      if data.value[..4] == PATTERN {
        header := data.value;
        want, miss := header[26], header[26];
        data, phase := Some([]), Segments;
      } else {
        phase, data := Sync, None;
      }
    }

    /** The loop that adds up the lacing values. */
    method AddLacing()
      requires data.Some? && miss == 0 && want == |data.value|
      modifies `miss
      ensures miss == Sum(data.value)
    {
      var i := 0;
      while i < want
        invariant 0 <= i <= want && miss + Sum(data.value[i..]) == Sum(data.value)
      {
        assert data.value[i..][1..] == data.value[i + 1..];
        miss := miss + data.value[i];
        i := i + 1;
      }
    }

    method OnSegments()
      requires data.Some? && |header| == HEADER_SIZE && miss == 0 && want == |data.value|
      modifies this
      ensures Now() == old(FinishSegments(Now()))
    {
      AddLacing();
      want := miss;
      if want == 0 {
        phase, data := Sync, None;
        return;
      }
      if serial.None? && FirstPage(header) {
        serial := Some(Serial(header));
      }
      if serial == Some(Serial(header)) && Granule(header) != 0 && Granule(header) != NO_GRANULE {
        serial := None;
      }
      if serial != Some(Serial(header)) {
        phase, data := Sync, None;
        events := events + [Skipped(header, want)];
      } else {
        phase, data := PageBody, Some([]);
      }
    }

    method OnPage()
      requires data.Some?
      modifies this
      ensures Now() == old(FinishPage(Now(), parse))
    {
      var r := parse(flac, data.value);
      events := events + [Captured(header, data.value)];
      flac := r.flac;
      metadata := Wrote(metadata, r);
      if Finished(r) {
        serial := None;
      }
      phase, data := Sync, None;
    }

    /** The controller's side, in a pass of its own: what the slot holds is copied if the flag is up. */
    method Take() returns (taken: Option<seq<byte>>)
      modifies `metadata
      ensures Now() == Lowered(old(Now()))
      ensures taken == if old(metadata.send) then Some(metadata.slot) else None
    {
      taken := if metadata.send then Some(metadata.slot) else None;
      metadata := metadata.(send := false);
    }
  }

  /** Jumping over part of a body. */
  lemma SkipFacts(s: State, w: seq<byte>, p: nat, n: nat, parse: Parser)
    requires Good(s) && s.phase.Sync? && 0 < n <= s.miss && p + n <= |w|
    ensures s.matched == 0
    ensures
      var t := s.(miss := s.miss - n);
      Good(t) && Scanned(s, w[..p], w[p..], parse) == Scanned(t, w[..p + n], w[p + n..], parse)
  {
    hide FeedAll;
    assert w[p..] == w[p..p + n] + w[p + n..];
    FeedInChunks(s, w[p..p + n], w[p + n..], parse);
    FeedSkips(s, w[p..p + n], parse);
  }

  /** Going back to where the pattern begins, in the new bytes or below them. */
  lemma FoundFacts(s: State, w: seq<byte>, p: nat, pos: nat, parse: Parser)
    requires Good(s) && s.phase.Sync? && s.miss == 0 && s.matched <= p && p + pos <= |w|
    requires pos < 4 ==> Completes(s, w[p..]) && pos + s.matched == 4
    requires pos >= 4 ==>
      !Completes(s, w[p..])
      && (AtHeaderGood(s); FeedAll(s, w[p..], parse) == FeedAll(AtHeader(s), w[p..][pos - 4..], parse))
    ensures
      var q := p + pos - 4;
      0 <= q && Good(AtHeader(s)) && Scanned(s, w[..p], w[p..], parse) == Scanned(AtHeader(s), w[..q], w[q..], parse)
  {
    hide FeedAll;
    AtHeaderGood(s);
    var q := p + pos - 4;
    if pos < 4 {
      assert w[..p][p - s.matched..] + w[p..] == w[q..];
    } else {
      assert w[p..][pos - 4..] == w[q..];
    }
  }

  lemma NotFoundFacts(s: State, below: seq<byte>, h: seq<byte>, parse: Parser)
    requires Good(s) && s.matched <= |below| && !Completes(s, h)
    ensures Scanned(s, below, h, parse) == FeedAll(s, h, parse)
  {}

  lemma NothingScanned(s: State, below: seq<byte>, parse: Parser)
    requires Good(s) && s.matched <= |below|
    ensures Scanned(s, below, [], parse) == s
  {}

  /** The end of a phase. */
  function Done(u: State, parse: Parser): State
    requires u.data.Some?
  {
    match u.phase
    case Header => if |u.data.value| == HEADER_SIZE then FinishHeader(u) else u
    case Segments => if |u.header| == HEADER_SIZE then FinishSegments(u) else u
    case PageBody => FinishPage(u, parse)
    case Sync => u
  }

  /** The buffers after n more bytes. */
  function Copied(s: State, bs: seq<byte>): State
    requires s.data.Some? && |bs| <= s.miss
  {
    s.(data := Some(s.data.value + bs), miss := s.miss - |bs|)
  }

  lemma SettleFirst(s: State, bs: seq<byte>, parse: Parser)
    requires Good(s) && bs != []
    ensures Good(Settle(s)) && FeedAll(s, bs, parse) == FeedAll(Settle(s), bs, parse)
  {
    FeedGood(s, bs[0], parse);
    FeedAllStep(s, bs, parse); FeedAllStep(Settle(s), bs, parse);
    hide FeedAll;
    assert Settle(Settle(s)) == Settle(s);
  }

  lemma DoneIsGood(s: State, bs: seq<byte>, parse: Parser)
    requires Good(s) && !s.phase.Sync? && |bs| == s.miss
    ensures
      var u := Copied(s, bs);
      && |u.data.value| == u.want
      && (u.phase.Header? ==> |u.data.value| == HEADER_SIZE && bs != [])
      && (u.phase.PageBody? ==> bs != [])
      && (!u.phase.Header? ==> |u.header| == HEADER_SIZE)
      && Good(Done(u, parse)) && Done(u, parse).matched == 0
      && Took(s, bs, parse) == Done(u, parse)
      && (bs == [] ==> Done(u, parse).phase.Sync? && u == s && Done(u, parse) == Settle(s))
  {
    assert bs == [] ==> s.data.value + bs == s.data.value == [];
  }

  /** What copying towards the end of a phase does, in terms of the byte machine. */
  lemma CopyFacts(s: State, w: seq<byte>, p: nat, n: nat, parse: Parser)
    requires Good(s) && !s.phase.Sync? && p < |w| && n == if s.miss < |w| - p then s.miss else |w| - p
    ensures s.data.Some? && s.matched == 0 && n <= s.miss
    ensures
      var u := Copied(s, w[p..p + n]);
      && (u.miss > 0 ==> Good(u) && p + n == |w| && FeedAll(s, w[p..], parse) == u)
      && (u.miss == 0 ==>
           && |u.data.value| == u.want
           && (u.phase.Header? ==> |u.data.value| == HEADER_SIZE)
           && (!u.phase.Header? ==> |u.header| == HEADER_SIZE)
           && Good(Done(u, parse)) && Done(u, parse).matched == 0
           && FeedAll(s, w[p..], parse) == FeedAll(Done(u, parse), w[p + n..], parse)
           && (n == 0 ==> s.phase.Segments? && Done(u, parse).phase.Sync?))
  {
    var bs := w[p..p + n];
    assert w[p..] == bs + w[p + n..];
    if n < s.miss {
      assert bs == w[p..];
      FeedCopies(s, bs, parse);
      hide FeedAll;
    } else {
      DoneIsGood(s, bs, parse);
      hide FeedAll, Took, Done, Settle;
      FeedInChunks(s, bs, w[p + n..], parse);
      if n == 0 {
        SettleFirst(s, w[p..], parse);
        assert w[p + n..] == w[p..];
      } else {
        FeedCopies(s, bs, parse);
      }
    }
  }
}
