/** Which streams of pages `stream_ogg` reads whole through the stream buffer. */
module OggRingPages {
  import opened Bytes
  import opened Ogg
  import opened OggDelivery
  import opened OggPages
  import opened OggRing
  import opened OggWrap
  import opened Options

  /** Some page begins so that its pattern ends in the first three places of the buffer, its beginning at the end. */
  predicate Cut(w: nat, size: nat, pages: seq<Page>)
    requires w < size && forall g | g in pages :: WellFormed(g)
    decreases |pages|
  {
    pages != [] && (Place(w, 3, size) < 3 || Cut(Place(w, |Encode(pages[0])|, size), size, pages[1..]))
  }

  lemma {:induction false} CopiesNotSevered(s: State, w: nat, size: nat, bs: seq<byte>, parse: Parser)
    requires Good(s) && w < size && !s.phase.Sync? && |bs| <= s.miss
    decreases |bs|
    ensures !Severed(s, w, size, bs, parse)
  {
    if bs != [] {
      FeedGood(s, bs[0], parse);
      var t := Feed(s, bs[0], parse);
      if |bs| == 1 {
        assert bs[1..] == [];
      } else {
        assert !t.phase.Sync? && t.miss == s.miss - 1;
        hide Feed, Good, Place;
        CopiesNotSevered(t, Place(w, 1, size), size, bs[1..], parse);
      }
    }
  }

  lemma {:induction false} SkipsNotSevered(s: State, w: nat, size: nat, bs: seq<byte>, parse: Parser)
    requires Good(s) && w < size && s.phase.Sync? && |bs| <= s.miss
    decreases |bs|
    ensures !Severed(s, w, size, bs, parse)
  {
    if bs != [] {
      FeedGood(s, bs[0], parse);
      assert Feed(s, bs[0], parse) == s.(miss := s.miss - 1);
      SkipsNotSevered(s.(miss := s.miss - 1), Place(w, 1, size), size, bs[1..], parse);
    }
  }

  /** From a state in which part of the pattern has been recognised. */
  lemma {:induction false} PatternSevered(s: State, w: nat, size: nat, parse: Parser)
    requires Good(s) && w < size && s.phase.Sync? && s.miss == 0
    decreases 4 - s.matched
    ensures Severed(s, w, size, PATTERN[s.matched..], parse) <==> Place(w, 3 - s.matched, size) < 3
  {
    var rest := PATTERN[s.matched..];
    assert rest[1..] == PATTERN[s.matched + 1..];
    FeedGood(s, rest[0], parse);
    if s.matched < 3 {
      assert Feed(s, rest[0], parse) == s.(matched := s.matched + 1);
      PlaceTwice(w, 1, 2 - s.matched, size);
      hide Feed, Place;
      PatternSevered(s.(matched := s.matched + 1), Place(w, 1, size), size, parse);
    }
  }

  lemma BodyNotSevered(s: State, w: nat, size: nat, g: Page, parse: Parser)
    requires Good(s) && w < size && s.phase.Segments? && s.data == Some([]) && s.miss == |g.lacing|
    requires WellFormed(g) && s.header == HeaderOf(g)
    ensures !Severed(s, w, size, g.lacing + g.body, parse)
  {
    if g.lacing == [] {
      assert g.lacing + g.body == [];
    } else {
      var d := FinishSegments(s.(data := Some(g.lacing), miss := 0));
      var w1 := Place(w, |g.lacing|, size);
      assert [] + g.lacing == g.lacing;
      assert Took(s, g.lacing, parse) == d;
      AfterLacing(s, g, parse);
      LeftToTake(s, g);
      hide FeedAll, Took, FinishSegments, Place;
      FeedCopies(s, g.lacing, parse);
      SeveredInChunks(s, w, size, g.lacing, g.body, parse);
      CopiesNotSevered(s, w, size, g.lacing, parse);
      if d.phase.Sync? {
        SkipsNotSevered(d, w1, size, g.body, parse);
      } else {
        CopiesNotSevered(d, w1, size, g.body, parse);
      }
    }
  }

  lemma LeftToTake(s: State, g: Page)
    requires WellFormed(g) && s.header == HeaderOf(g)
    ensures FinishSegments(s.(data := Some(g.lacing), miss := 0)).miss == |g.body|
  {}

  lemma PageSevered(s: State, w: nat, size: nat, g: Page, parse: Parser)
    requires Between(s) && w < size && WellFormed(g)
    ensures Good(s) && (Severed(s, w, size, Encode(g), parse) <==> Place(w, 3, size) < 3)
  {
    var h := HeaderOf(g);
    var t := s.(header := h, want := |g.lacing|, miss := |g.lacing|, data := Some([]), phase := Segments);
    var w1, w2 := Place(w, 4, size), Place(w, HEADER_SIZE, size);
    var rest := g.lacing + g.body;
    assert h == PATTERN + h[4..];
    assert Encode(g) == h + rest;
    assert PATTERN[0..] == PATTERN;
    hide FeedAll, Took, Place, Severed;
    HeaderBytes(s, g, parse);
    PatternBytes(s, parse);
    SeveredInChunks(s, w, size, h, rest, parse);
    SeveredInChunks(s, w, size, PATTERN, h[4..], parse);
    PatternSevered(s, w, size, parse);
    CopiesNotSevered(PastPattern(s), w1, size, h[4..], parse);
    BodyNotSevered(t, w2, size, g, parse);
  }

  lemma SettledSevered(s: State, w: nat, size: nat, g: Page, parse: Parser)
    requires Good(s) && Between(Settle(s)) && w < size && WellFormed(g)
    ensures Severed(s, w, size, Encode(g), parse) <==> Place(w, 3, size) < 3
  {
    var bs := Encode(g);
    FeedGood(s, bs[0], parse);
    assert Settle(Settle(s)) == Settle(s) && Settle(s).matched == s.matched;
    assert Feed(s, bs[0], parse) == Feed(Settle(s), bs[0], parse);
    assert Severed(s, w, size, bs, parse) == Severed(Settle(s), w, size, bs, parse);
    hide Severed, Place, Encode;
    PageSevered(Settle(s), w, size, g, parse);
  }

  /** Only where the pages begin counts: no pattern in a body, nor any other accident of the data, is divided. */
  lemma {:induction false} SeveredIffCut(s: State, w: nat, size: nat, pages: seq<Page>, parse: Parser)
    requires Good(s) && Between(Settle(s)) && w < size && forall g | g in pages :: WellFormed(g)
    decreases |pages|
    ensures Severed(s, w, size, EncodeAll(pages), parse) <==> Cut(w, size, pages)
  {
    hide FeedAll, Encode, Place, OnPage;
    if pages != [] {
      var first, rest := Encode(pages[0]), EncodeAll(pages[1..]);
      SettledPage(s, pages[0], parse);
      SettledSevered(s, w, size, pages[0], parse);
      SeveredInChunks(s, w, size, first, rest, parse);
      hide Severed;
      SeveredIffCut(FeedAll(s, first, parse), Place(w, |first|, size), size, pages[1..], parse);
    }
  }

  /**
   * However a stream of pages arrives: it is reported page by page if no page begins in the last three places of the
   * buffer, and that is also necessary for the scanner to be in step throughout, but for lucky bytes below the buffer.
   */
  lemma RingPagesAreFramed(r: Ring, pages: seq<Page>, run: seq<Arrival>, parse: Parser)
    requires Valid(r) && Possible(r, run, parse) && Between(Settle(r.s))
    requires (forall g | g in pages :: WellFormed(g)) && Received(run) == EncodeAll(pages)
    ensures !Cut(r.writep, |r.mem|, pages) ==>
      && InStep(r, r.s, run, parse)
      && var t := After(r, run, parse).s;
         Between(Settle(t)) && TrackOf(Settle(t)) == OnPages(TrackOf(Settle(r.s)), pages, parse)
    ensures (forall a | a in run :: Foreign(a.outside)) ==>
      (InStep(r, r.s, run, parse) <==> !Cut(r.writep, |r.mem|, pages))
  {
    NothingRecognised(r);
    hide FeedAll, Scanned, Divided, Lucky, Holds, Step, Below, Severed, Cut, InStep, Undivided, Good, Settle, OnPages;
    SeveredIffCut(r.s, r.writep, |r.mem|, pages, parse);
    UndividedIff(r, run, parse);
    InStepIff(r, run, parse);
    if InStep(r, r.s, run, parse) {
      InStepEnds(r, r.s, run, parse);
      PagesAreFramed(r.s, pages, parse);
    }
  }

  lemma NothingRecognised(r: Ring)
    requires Valid(r) && Between(Settle(r.s))
    ensures Holds(r)
  {}

  // ---------------------------------------------------------------- a lost page

  lemma {:induction false} BeginningOfPattern(s: State, j: nat, parse: Parser)
    requires Between(s) && j < 4
    ensures Good(s) && FeedAll(s, PATTERN[..j], parse) == s.(matched := j)
  {
    FeedAllStep(s, [], parse);
    if j > 0 {
      var t := s.(matched := j - 1);
      assert PATTERN[..j] == PATTERN[..j - 1] + [PATTERN[j - 1]];
      FeedAllStep(t, [PATTERN[j - 1]], parse);
      FeedAllStep(s.(matched := j), [], parse);
      assert [PATTERN[j - 1]][1..] == [];
      hide FeedAll;
      BeginningOfPattern(s, j - 1, parse);
      FeedInChunks(s, PATTERN[..j - 1], [PATTERN[j - 1]], parse);
    }
  }

  /** A page that begins j places before the end of the buffer and has no 'O' behind its header is lost whole. */
  lemma CutPageIsLost(r: Ring, j: nat, g: Page, outside: seq<byte>, parse: Parser)
    requires Valid(r) && Between(r.s) && 0 < j < 4 && r.writep + j == |r.mem| && Foreign(outside)
    requires WellFormed(g) && 0x4F !in g.lacing + g.body && |Encode(g)| - j <= |r.mem|
    ensures
      var run := [Arrival(outside, Encode(g)[..j]), Arrival(outside, Encode(g)[j..])];
      Possible(r, run, parse) && Received(run) == Encode(g) && TrackOf(After(r, run, parse).s) == TrackOf(r.s)
  {
    var bs := Encode(g);
    var a, b := Arrival(outside, bs[..j]), Arrival(outside, bs[j..]);
    var t := Step(r, a, parse);
    ToTheEnd(r, j, g, outside, parse);
    assert bs[..j] + bs[j..] == bs;
    assert Below(t, b) == outside;
    assert Step(t, b, parse).s == Scanned(t.s, outside, bs[j..], parse);
    hide Encode, Scanned, Step;
    PageMissed(t.s, outside, g, parse);
    TwoCalls(r, a, b, parse);
  }

  lemma ToTheEnd(r: Ring, j: nat, g: Page, outside: seq<byte>, parse: Parser)
    requires Valid(r) && Between(r.s) && 0 < j < 4 && r.writep + j == |r.mem| && |outside| == 3 && WellFormed(g)
    ensures
      var t := Step(r, Arrival(outside, Encode(g)[..j]), parse);
      t.s == r.s.(matched := j) && t.writep == 0
  {
    var bs := Encode(g)[..j];
    assert bs == HeaderOf(g)[..4][..j] == PATTERN[..j];
    PlaceNear(r.writep, j, |r.mem|);
    hide FeedAll;
    BeginningOfPattern(r.s, j, parse);
  }

  lemma TwoCalls(r: Ring, a: Arrival, b: Arrival, parse: Parser)
    requires Fits(r, a) && Fits(Step(r, a, parse), b)
    ensures Possible(r, [a, b], parse) && After(r, [a, b], parse) == Step(Step(r, a, parse), b, parse)
    ensures Received([a, b]) == a.bytes + b.bytes
  {
    var t := Step(r, a, parse);
    hide Step;
    assert [a, b][1..] == [b] && [b][1..] == [];
    assert Possible(t, [b], parse) && After(t, [b], parse) == Step(t, b, parse);
    assert Received([b]) == b.bytes;
  }

  /** A stream whose only header is lost: 32 bytes of buffer, and the first page begins in the last but one of them. */
  lemma HeaderCut(b: byte)
    requires b != 0x4F
    ensures
      var r := Ring(Zeros(32), 30, INITIAL);
      var page := Encode(FirstPageOf(b));
      var run := [Arrival(Zeros(3), page[..2]), Arrival(Zeros(3), page[2..])];
      && Valid(r) && Possible(r, run, HEADERS) && Received(run) == page
      && After(r, run, HEADERS).s.metadata.completed == []
      && FeedAll(r.s, page, HEADERS).metadata.completed == [[b]]
  {
    var r, g := Ring(Zeros(32), 30, INITIAL), FirstPageOf(b);
    FirstPageIsFollowed(b);
    assert Foreign(Zeros(3)) by {
      forall m | 0 < m < 4 ensures Zeros(3)[3 - m..] != PATTERN[..m] {
        assert Zeros(3)[3 - m..][0] == 0;
      }
    }
    hide FeedAll;
    HeaderCompleted(INITIAL, b);
    CutPageIsLost(r, 2, g, Zeros(3), HEADERS);
  }
}
