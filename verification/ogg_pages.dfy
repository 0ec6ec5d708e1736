/** What the scanner makes of a stream of well-formed pages, whatever their bodies contain. */
module OggPages {
  import opened Bytes
  import opened Ogg
  import opened Options

  /** A page: the fixed header fields up to the segment count, the lacing values, and the body they measure. */
  datatype Page = Page(fixed: seq<byte>, lacing: seq<byte>, body: seq<byte>)

  predicate WellFormed(g: Page) {
    |g.fixed| == HEADER_SIZE - 1 && g.fixed[..4] == PATTERN && |g.lacing| < 256 && |g.body| == Sum(g.lacing)
  }

  function HeaderOf(g: Page): (h: seq<byte>)
    requires WellFormed(g)
    ensures |h| == HEADER_SIZE
  {
    var count: byte := |g.lacing|;
    g.fixed + [count]
  }

  function Encode(g: Page): seq<byte>
    requires WellFormed(g)
  {
    HeaderOf(g) + g.lacing + g.body
  }

  function EncodeAll(pages: seq<Page>): seq<byte>
    requires forall g | g in pages :: WellFormed(g)
  {
    if pages == [] then [] else Encode(pages[0]) + EncodeAll(pages[1..])
  }

  // ---------------------------------------------------------------- the page at a time

  /** What the demultiplexer remembers between pages. */
  datatype Track = Track(serial: Option<nat>, flac: bool, events: seq<Event>, metadata: Metadata)

  function OnPage(t: Track, g: Page, parse: Parser): Track
    requires WellFormed(g)
  {
    var h := HeaderOf(g);
    if g.body == [] then t
    else
      var serial := Follow(t.serial, h);
      if serial != Some(Serial(h)) then t.(serial := serial, events := t.events + [Skipped(h, |g.body|)])
      else
        var r := parse(t.flac, g.body);
        Track(if Finished(r) then None else serial, r.flac, t.events + [Captured(h, g.body)], Wrote(t.metadata, r))
  }

  function OnPages(t: Track, pages: seq<Page>, parse: Parser): Track
    requires forall g | g in pages :: WellFormed(g)
    decreases |pages|
  {
    if pages == [] then t else OnPages(OnPage(t, pages[0], parse), pages[1..], parse)
  }

  // ---------------------------------------------------------------- the byte machine does the same

  /** Between pages: looking for the pattern with nothing recognised, nothing to skip and nothing being copied. */
  predicate Between(s: State) {
    s.phase.Sync? && s.miss == 0 && s.matched == 0 && s.data.None?
  }

  function TrackOf(s: State): Track {
    Track(s.serial, s.flac, s.events, s.metadata)
  }

  lemma HeaderBytes(s: State, g: Page, parse: Parser)
    requires Between(s) && WellFormed(g)
    ensures
      var t := s.(header := HeaderOf(g), want := |g.lacing|, miss := |g.lacing|, data := Some([]), phase := Segments);
      Good(t) && FeedAll(s, HeaderOf(g), parse) == t
  {
    var h := HeaderOf(g);
    var t := s.(header := h, want := |g.lacing|, miss := |g.lacing|, data := Some([]), phase := Segments);
    PatternBytes(s, parse);
    assert h == PATTERN + h[4..];
    assert PATTERN + h[4..] == h;
    assert Took(PastPattern(s), h[4..], parse) == t;
    hide FeedAll, Took, Feed;
    FeedInChunks(s, PATTERN, h[4..], parse);
    FeedCopies(PastPattern(s), h[4..], parse);
  }

  lemma PatternBytes(s: State, parse: Parser)
    requires Between(s)
    ensures Good(s) && Good(PastPattern(s)) && FeedAll(s, PATTERN, parse) == PastPattern(s)
  {
    var s1, s2, s3 := s.(matched := 1), s.(matched := 2), s.(matched := 3);
    FeedAllStep(s, PATTERN, parse);
    FeedAllStep(s1, PATTERN[1..], parse);
    FeedAllStep(s2, PATTERN[1..][1..], parse);
    FeedAllStep(s3, PATTERN[1..][1..][1..], parse);
    FeedAllStep(PastPattern(s), PATTERN[1..][1..][1..][1..], parse);
    hide FeedAll;
  }

  /** The body is copied or jumped over in full, so the pattern inside it is never looked for. */
  lemma BodyBytes(s: State, g: Page, parse: Parser)
    requires Good(s) && s.phase.Segments? && s.data == Some([]) && s.miss == |g.lacing|
    requires WellFormed(g) && s.header == HeaderOf(g)
    ensures
      var t := FeedAll(s, g.lacing + g.body, parse);
      Between(Settle(t)) && TrackOf(Settle(t)) == OnPage(TrackOf(s), g, parse)
  {
    var d := FinishSegments(s.(data := Some(g.lacing), miss := 0));
    assert [] + g.lacing == g.lacing;
    if g.lacing == [] {
      assert g.lacing + g.body == [];
      FeedAllStep(s, [], parse);
      hide FeedAll;
    } else {
      assert Took(s, g.lacing, parse) == d;
      AfterLacing(s, g, parse);
      hide FeedAll, Took, Settle, FinishSegments;
      FeedCopies(s, g.lacing, parse);
      FeedInChunks(s, g.lacing, g.body, parse);
    }
  }

  lemma AfterLacing(s: State, g: Page, parse: Parser)
    requires Good(s) && s.phase.Segments? && WellFormed(g) && s.header == HeaderOf(g) && g.lacing != []
    ensures
      var d := FinishSegments(s.(data := Some(g.lacing), miss := 0));
      && Good(d)
      && var t := FeedAll(d, g.body, parse);
         Between(Settle(t)) && TrackOf(Settle(t)) == OnPage(TrackOf(s), g, parse)
  {
    var d := FinishSegments(s.(data := Some(g.lacing), miss := 0));
    if g.body == [] {
      FeedAllStep(d, g.body, parse);
      hide FeedAll;
    } else if d.phase.Sync? {
      FeedSkips(d, g.body, parse);
      hide FeedAll;
    } else {
      FeedCopies(d, g.body, parse);
      assert [] + g.body == g.body;
      hide FeedAll;
    }
  }

  lemma PageBytes(s: State, g: Page, parse: Parser)
    requires Between(s) && WellFormed(g)
    ensures Good(s)
    ensures
      var t := FeedAll(s, Encode(g), parse);
      Between(Settle(t)) && TrackOf(Settle(t)) == OnPage(TrackOf(s), g, parse)
  {
    HeaderBytes(s, g, parse);
    var t := s.(header := HeaderOf(g), want := |g.lacing|, miss := |g.lacing|, data := Some([]), phase := Segments);
    BodyBytes(t, g, parse);
    hide FeedAll, Settle, OnPage;
    FeedInChunks(s, HeaderOf(g), g.lacing + g.body, parse);
    assert Encode(g) == HeaderOf(g) + (g.lacing + g.body);
  }

  /**
   * A stream of well-formed pages is reported page by page, each exactly once and in order: every header is read
   * at a page boundary, also when a body contains the pattern, and however the bytes were split between calls.
   */
  lemma {:induction false} PagesAreFramed(s: State, pages: seq<Page>, parse: Parser)
    requires Good(s) && Between(Settle(s)) && forall g | g in pages :: WellFormed(g)
    ensures
      var t := FeedAll(s, EncodeAll(pages), parse);
      Between(Settle(t)) && TrackOf(Settle(t)) == OnPages(TrackOf(Settle(s)), pages, parse)
    decreases |pages|
  {
    hide FeedAll, OnPage, Encode;
    if pages == [] {
      FeedAllStep(s, [], parse);
    } else {
      var first, rest := Encode(pages[0]), EncodeAll(pages[1..]);
      var u := Settle(s);
      SettledPage(s, pages[0], parse);
      var t := FeedAll(s, first, parse);
      FeedInChunks(s, first, rest, parse);
      PagesAreFramed(t, pages[1..], parse);
    }
  }

  lemma SettledPage(s: State, g: Page, parse: Parser)
    requires Good(s) && Between(Settle(s)) && WellFormed(g)
    ensures
      var t := FeedAll(s, Encode(g), parse);
      Good(t) && Between(Settle(t)) && TrackOf(Settle(t)) == OnPage(TrackOf(Settle(s)), g, parse)
  {
    var bs := Encode(g);
    FeedGood(s, bs[0], parse);
    FeedAllStep(s, bs, parse); FeedAllStep(Settle(s), bs, parse);
    assert Settle(Settle(s)) == Settle(s);
    hide FeedAll, OnPage;
    PageBytes(Settle(s), g, parse);
  }

  /**
   * While looking for a page, the pattern is recognised exactly when nothing was half recognised before it: a
   * mismatch drops what was recognised even when the mismatching byte could start the pattern again.
   */
  lemma PatternFoundIff(s: State, parse: Parser)
    requires Good(s) && s.phase.Sync? && s.miss == 0
    ensures Good(s.(matched := 0))
    ensures FeedAll(s, PATTERN, parse) == if s.matched == 0 then PastPattern(s) else s.(matched := 0)
  {
    if s.matched == 0 {
      PatternBytes(s, parse);
    } else {
      FeedAllStep(s, PATTERN, parse);
      hide FeedAll;
      NoStart(s.(matched := 0), PATTERN[1..], parse);
    }
  }

  /** Bytes that cannot start the pattern leave the search as it was. */
  lemma {:induction false} NoStart(s: State, junk: seq<byte>, parse: Parser)
    requires Between(s) && 0x4F !in junk
    ensures Good(s) && FeedAll(s, junk, parse) == s
    decreases |junk|
  {
    FeedAllStep(s, junk, parse);
    hide FeedAll;
    if junk != [] {
      NoStart(s, junk[1..], parse);
    }
  }

  /** So one stray 'O' in front hides a page. */
  lemma JunkCanHideAPage(parse: Parser)
    ensures FeedAll(INITIAL, [0x4F] + PATTERN, parse) == INITIAL
  {
    FeedAllStep(INITIAL, [0x4F], parse);
    FeedAllStep(INITIAL.(matched := 1), [0x4F][1..], parse);
    hide FeedAll;
    FeedInChunks(INITIAL, [0x4F], PATTERN, parse);
    PatternFoundIff(INITIAL.(matched := 1), parse);
  }

  /** Whatever junk without an 'O' comes first, the page is found. */
  lemma JunkIsHarmless(s: State, junk: seq<byte>, parse: Parser)
    requires Between(s) && 0x4F !in junk
    ensures Good(s) && FeedAll(s, junk + PATTERN, parse) == PastPattern(s)
  {
    NoStart(s, junk, parse);
    hide FeedAll;
    FeedInChunks(s, junk, PATTERN, parse);
    PatternBytes(s, parse);
  }
}
