/** Which pages of an Ogg stream are captured, told by their flags, serial numbers and granule positions. */
module OggStreams {
  import opened Bytes
  import opened Ogg
  import opened OggPages
  import opened Options

  // ---------------------------------------------------------------- pages by their fields

  /** A page as section 6 of RFC 3533 lays it out. */
  datatype Fields = Fields(
    version: byte, flags: byte, granule: nat, serial: nat, sequence: nat, checksum: nat,
    lacing: seq<byte>, body: seq<byte>)

  /** A number in k bytes, least significant first. */
  function LittleBytes(n: nat, k: nat): (b: seq<byte>)
    ensures |b| == k
  {
    if k == 0 then [] else [n % 256] + LittleBytes(n / 256, k - 1)
  }

  function Limit(k: nat): nat {
    if k == 0 then 1 else 256 * Limit(k - 1)
  }

  lemma {:induction false} LittleOfBytes(n: nat, k: nat)
    requires n < Limit(k)
    ensures Little(LittleBytes(n, k)) == n
  {
    if k > 0 {
      LittleOfBytes(n / 256, k - 1);
      assert LittleBytes(n, k)[1..] == LittleBytes(n / 256, k - 1);
    }
  }

  /** The lacing values of a packet of n bytes: as many times 255 as go into it, and the rest. */
  function Lacing(n: nat): (l: seq<byte>)
    ensures |l| == n / 255 + 1
  {
    if n < 255 then [n] else [255] + Lacing(n - 255)
  }

  lemma {:induction false} LacingAddsUp(n: nat)
    ensures Sum(Lacing(n)) == n
  {
    if n >= 255 {
      LacingAddsUp(n - 255);
      assert Lacing(n)[1..] == Lacing(n - 255);
    } else {
      assert [n][1..] == [];
    }
  }

  const NO_PACKET_ENDS: nat := 0xFFFF_FFFF_FFFF_FFFF

  predicate Sound(f: Fields) {
    f.granule <= NO_PACKET_ENDS && f.serial < 0x1_0000_0000 && f.sequence < 0x1_0000_0000
    && f.checksum < 0x1_0000_0000 && |f.lacing| < 256 && |f.body| == Sum(f.lacing) > 0
  }

  function PageOf(f: Fields): (g: Page)
    requires Sound(f)
    ensures WellFormed(g)
  {
    Page(
      PATTERN + [f.version, f.flags] + LittleBytes(f.granule, 8) + LittleBytes(f.serial, 4)
      + LittleBytes(f.sequence, 4) + LittleBytes(f.checksum, 4),
      f.lacing, f.body)
  }

  function PagesOf(fs: seq<Fields>): (gs: seq<Page>)
    requires forall f | f in fs :: Sound(f)
    ensures forall g | g in gs :: WellFormed(g)
    ensures |gs| == |fs|
  {
    if fs == [] then [] else [PageOf(fs[0])] + PagesOf(fs[1..])
  }

  function Header(f: Fields): (h: seq<byte>)
    requires Sound(f)
    ensures |h| == HEADER_SIZE
  {
    HeaderOf(PageOf(f))
  }

  /** The scanner reads the fields where they are. */
  lemma FieldsRead(f: Fields)
    requires Sound(f)
    ensures FirstPage(Header(f)) <==> (f.flags / 2) % 2 == 1
    ensures Granule(Header(f)) == f.granule && Serial(Header(f)) == f.serial
  {
    var h := Header(f);
    assert Limit(4) == 0x1_0000_0000;
    assert Limit(8) == 0x1_0000_0000_0000_0000;
    LittleOfBytes(f.granule, 8);
    LittleOfBytes(f.serial, 4);
    assert h[5] == f.flags;
    assert h[6..14] == LittleBytes(f.granule, 8);
    assert h[14..18] == LittleBytes(f.serial, 4);
  }

  // ---------------------------------------------------------------- one page

  /** Begins a logical stream. */
  predicate Begins(f: Fields) {
    (f.flags / 2) % 2 == 1
  }

  /** Header pages have granule position 0, or all ones where no packet ends on them. */
  predicate Early(f: Fields) {
    f.granule == 0 || f.granule == NO_PACKET_ENDS
  }

  predicate Starts(f: Fields) {
    Begins(f) && Early(f)
  }

  function Capture(t: Track, f: Fields, parse: Parser): Track
    requires Sound(f)
  {
    var r := parse(t.flac, f.body);
    Track(if r.written.Some? && r.done then None else Some(f.serial), r.flac,
          t.events + [Captured(Header(f), f.body)], Wrote(t.metadata, r))
  }

  function Skip(t: Track, f: Fields): Track
    requires Sound(f)
  {
    t.(events := t.events + [Skipped(Header(f), |f.body|)])
  }

  /**
   * Every case of a page: with no stream followed, one that begins a stream is captured if it is early, and all others
   * are skipped; of the stream followed, early pages are captured and any other is skipped and ends the following;
   * pages of other streams are skipped.
   */
  lemma OnePage(t: Track, f: Fields, parse: Parser)
    requires Sound(f)
    ensures t.serial.None? && Starts(f) ==> OnPage(t, PageOf(f), parse) == Capture(t, f, parse)
    ensures t.serial.None? && !Starts(f) ==> OnPage(t, PageOf(f), parse) == Skip(t, f)
    ensures t.serial == Some(f.serial) && Early(f) ==> OnPage(t, PageOf(f), parse) == Capture(t, f, parse)
    ensures t.serial == Some(f.serial) && !Early(f) ==> OnPage(t, PageOf(f), parse) == Skip(t.(serial := None), f)
    ensures t.serial.Some? && t.serial != Some(f.serial) ==> OnPage(t, PageOf(f), parse) == Skip(t, f)
  {
    FieldsRead(f);
    hide Granule, Serial, FirstPage, HeaderOf;
  }

  // ---------------------------------------------------------------- runs of pages

  lemma {:induction false} OnPagesAdd(t: Track, a: seq<Page>, b: seq<Page>, parse: Parser)
    requires forall g | g in a + b :: WellFormed(g)
    ensures forall g | g in a :: WellFormed(g)
    ensures forall g | g in b :: WellFormed(g)
    ensures OnPages(t, a + b, parse) == OnPages(OnPages(t, a, parse), b, parse)
    decreases |a|
  {
    hide OnPage, WellFormed;
    assert forall g | g in a :: g in a + b;
    assert forall g | g in b :: g in a + b;
    if a == [] {
      assert a + b == b;
    } else {
      assert (a + b)[1..] == a[1..] + b;
      OnPagesAdd(OnPage(t, a[0], parse), a[1..], b, parse);
    }
  }

  lemma {:induction false} PagesOfAdd(a: seq<Fields>, b: seq<Fields>)
    requires forall f | f in a + b :: Sound(f)
    ensures forall f | f in a :: Sound(f)
    ensures forall f | f in b :: Sound(f)
    ensures PagesOf(a + b) == PagesOf(a) + PagesOf(b)
  {
    hide PageOf, Sound;
    assert forall f | f in a :: f in a + b;
    assert forall f | f in b :: f in a + b;
    if a == [] {
      assert a + b == b;
    } else {
      assert (a + b)[1..] == a[1..] + b;
      PagesOfAdd(a[1..], b);
    }
  }

  /** What is reported of pages while stream n is followed: its own are captured, the others skipped. */
  function Reports(n: nat, fs: seq<Fields>): seq<Event>
    requires forall f | f in fs :: Sound(f)
  {
    if fs == [] then []
    else
      [if fs[0].serial == n then Captured(Header(fs[0]), fs[0].body) else Skipped(Header(fs[0]), |fs[0].body|)]
      + Reports(n, fs[1..])
  }

  function SkippedAll(fs: seq<Fields>): seq<Event>
    requires forall f | f in fs :: Sound(f)
  {
    if fs == [] then [] else [Skipped(Header(fs[0]), |fs[0].body|)] + SkippedAll(fs[1..])
  }

  function BodiesOf(n: nat, fs: seq<Fields>): seq<seq<byte>> {
    if fs == [] then []
    else (if fs[0].serial == n then [fs[0].body] else []) + BodiesOf(n, fs[1..])
  }

  /** What parsing bodies one after another leaves of the flac flag and the metadata, and that none finishes. */
  function FlacAfter(flac: bool, bodies: seq<seq<byte>>, parse: Parser): bool
    decreases |bodies|
  {
    if bodies == [] then flac else FlacAfter(parse(flac, bodies[0]).flac, bodies[1..], parse)
  }

  function WroteAll(m: Metadata, flac: bool, bodies: seq<seq<byte>>, parse: Parser): Metadata
    decreases |bodies|
  {
    if bodies == [] then m
    else WroteAll(Wrote(m, parse(flac, bodies[0])), parse(flac, bodies[0]).flac, bodies[1..], parse)
  }

  predicate Unfinished(flac: bool, bodies: seq<seq<byte>>, parse: Parser)
    decreases |bodies|
  {
    bodies != [] ==>
      var r := parse(flac, bodies[0]);
      !(r.written.Some? && r.done) && Unfinished(r.flac, bodies[1..], parse)
  }

  lemma PagesStep(t: Track, fs: seq<Fields>, parse: Parser)
    requires fs != [] && forall f | f in fs :: Sound(f)
    ensures OnPages(t, PagesOf(fs), parse) == OnPages(OnPage(t, PageOf(fs[0]), parse), PagesOf(fs[1..]), parse)
  {
    hide OnPage, PageOf, Sound;
    assert PagesOf(fs)[1..] == PagesOf(fs[1..]);
  }

  lemma EventsMore(t: Track, e: Event, more: seq<Event>)
    ensures t.events + [e] + more == t.events + ([e] + more)
  {}

  /** With no stream followed, pages that start none are skipped, and leave everything else as it is. */
  lemma {:induction false} BeforeTheStream(t: Track, fs: seq<Fields>, parse: Parser)
    requires t.serial.None? && (forall f | f in fs :: Sound(f)) && forall f | f in fs :: !Starts(f)
    ensures OnPages(t, PagesOf(fs), parse) == t.(events := t.events + SkippedAll(fs))
    decreases |fs|
  {
    hide OnPage, PageOf, Sound, Header, Starts, OnPages;
    if fs == [] {
      NoPages(t, parse);
      assert t.events + [] == t.events;
    } else {
      PagesStep(t, fs, parse);
      OnePage(t, fs[0], parse);
      assert fs[0] in fs;
      BeforeTheStream(Skip(t, fs[0]), fs[1..], parse);
      EventsMore(t, Skipped(Header(fs[0]), |fs[0].body|), SkippedAll(fs[1..]));
    }
  }

  lemma NoPages(t: Track, parse: Parser)
    ensures OnPages(t, PagesOf([]), parse) == t
  {}

  /** What following stream n over some pages comes to. */
  function Followed(t: Track, n: nat, fs: seq<Fields>, parse: Parser): Track
    requires forall f | f in fs :: Sound(f)
  {
    var bodies := BodiesOf(n, fs);
    Track(Some(n), FlacAfter(t.flac, bodies, parse), t.events + Reports(n, fs),
          WroteAll(t.metadata, t.flac, bodies, parse))
  }

  lemma FollowedOwn(t: Track, n: nat, fs: seq<Fields>, parse: Parser)
    requires fs != [] && (forall f | f in fs :: Sound(f)) && fs[0].serial == n
    requires Unfinished(t.flac, BodiesOf(n, fs), parse)
    ensures
      var u := Capture(t, fs[0], parse);
      && u.serial == Some(n) && Unfinished(u.flac, BodiesOf(n, fs[1..]), parse)
      && Followed(u, n, fs[1..], parse) == Followed(t, n, fs, parse)
  {
    hide Sound, Header, Wrote;
    var f := fs[0];
    assert f in fs;
    assert BodiesOf(n, fs)[1..] == BodiesOf(n, fs[1..]);
    EventsMore(t, Captured(Header(f), f.body), Reports(n, fs[1..]));
  }

  lemma FollowedOther(t: Track, n: nat, fs: seq<Fields>, parse: Parser)
    requires fs != [] && (forall f | f in fs :: Sound(f)) && fs[0].serial != n
    ensures BodiesOf(n, fs) == BodiesOf(n, fs[1..])
    ensures Followed(Skip(t, fs[0]), n, fs[1..], parse) == Followed(t, n, fs, parse)
  {
    hide Sound, Header, WroteAll, FlacAfter;
    assert fs[0] in fs;
    EventsMore(t, Skipped(Header(fs[0]), |fs[0].body|), Reports(n, fs[1..]));
  }

  /** While stream n is followed its early pages are captured in order, and those of other streams skipped. */
  lemma {:induction false} WithinTheStream(t: Track, n: nat, fs: seq<Fields>, parse: Parser)
    requires t.serial == Some(n) && (forall f | f in fs :: Sound(f))
    requires (forall f | f in fs && f.serial == n :: Early(f)) && Unfinished(t.flac, BodiesOf(n, fs), parse)
    ensures OnPages(t, PagesOf(fs), parse) == Followed(t, n, fs, parse)
    decreases |fs|
  {
    hide OnPage, OnPages, PageOf, Sound, Header, Early, Followed, Capture, Unfinished;
    if fs == [] {
      NoPages(t, parse);
      FollowedNothing(t, n, parse);
    } else {
      var f := fs[0];
      assert f in fs;
      PagesStep(t, fs, parse);
      OnePage(t, f, parse);
      if f.serial == n {
        FollowedOwn(t, n, fs, parse);
        WithinTheStream(Capture(t, f, parse), n, fs[1..], parse);
      } else {
        FollowedOther(t, n, fs, parse);
        WithinTheStream(Skip(t, f), n, fs[1..], parse);
      }
    }
  }

  lemma FollowedNothing(t: Track, n: nat, parse: Parser)
    requires t.serial == Some(n)
    ensures Followed(t, n, [], parse) == t
  {
    assert t.events + [] == t.events;
  }

  /** A page by itself. */
  lemma SinglePage(t: Track, f: Fields, parse: Parser)
    requires Sound(f)
    ensures OnPages(t, PagesOf([f]), parse) == OnPage(t, PageOf(f), parse)
  {
    hide OnPage, PageOf, Sound;
    assert [f][1..] == [];
    assert PagesOf([f]) == [PageOf(f)] && [PageOf(f)][1..] == [];
  }

  // ---------------------------------------------------------------- whole streams

  lemma Stages(t: Track, a: seq<Fields>, b: seq<Fields>, parse: Parser)
    requires forall f | f in a + b :: Sound(f)
    ensures forall f | f in a :: Sound(f)
    ensures forall f | f in b :: Sound(f)
    ensures OnPages(t, PagesOf(a + b), parse) == OnPages(OnPages(t, PagesOf(a), parse), PagesOf(b), parse)
  {
    hide OnPages, PagesOf, Sound;
    PagesOfAdd(a, b);
    OnPagesAdd(t, PagesOf(a), PagesOf(b), parse);
  }

  /**
   * The headers of a stream, whatever comes before, whatever the pages hold and whatever other streams are interleaved:
   * from its first page on its early pages are captured one after another, until a parse finishes; then what that
   * parse wrote is in the slot, and no stream is followed any more.
   */
  lemma HeadersAreFound(
    t: Track, before: seq<Fields>, first: Fields, between: seq<Fields>, last: Fields, parse: Parser
  )
    requires t.serial.None? && (forall f | f in before + [first] + between + [last] :: Sound(f))
    requires (forall f | f in before :: !Starts(f)) && Starts(first)
    requires (forall f | f in between && f.serial == first.serial :: Early(f))
    requires last.serial == first.serial && Early(last)
    requires Unfinished(t.flac, BodiesOf(first.serial, [first] + between), parse)
    requires
      var r := parse(FlacAfter(t.flac, BodiesOf(first.serial, [first] + between), parse), last.body);
      r.written.Some? && r.done
    ensures
      var bodies := BodiesOf(first.serial, [first] + between);
      var r := parse(FlacAfter(t.flac, bodies, parse), last.body);
      var u := OnPages(t, PagesOf(before + [first] + between + [last]), parse);
      && u.serial == None && u.flac == r.flac
      && u.events == t.events + SkippedAll(before) + Reports(first.serial, [first] + between)
                     + [Captured(Header(last), last.body)]
      && u.metadata.slot == r.written.value && u.metadata.send && u.metadata.intact
      && u.metadata.completed == WroteAll(t.metadata, t.flac, bodies, parse).completed + [r.written.value]
  {
    hide OnPage, OnPages, PagesOf, PageOf, Sound, Header, Early, Starts, BodiesOf, Reports, Unfinished;
    hide FlacAfter, WroteAll;
    Stages(t, before + [first] + between, [last], parse);
    FirstPages(t, before, first, between, parse);
    var v := OnPages(t, PagesOf(before + [first] + between), parse);
    SinglePage(v, last, parse);
    OnePage(v, last, parse);
  }

  lemma FirstPages(t: Track, before: seq<Fields>, first: Fields, between: seq<Fields>, parse: Parser)
    requires t.serial.None? && (forall f | f in before + [first] + between :: Sound(f))
    requires (forall f | f in before :: !Starts(f)) && Starts(first)
    requires (forall f | f in between && f.serial == first.serial :: Early(f))
    requires Unfinished(t.flac, BodiesOf(first.serial, [first] + between), parse)
    ensures
      var bodies := BodiesOf(first.serial, [first] + between);
      OnPages(t, PagesOf(before + [first] + between), parse)
      == Track(Some(first.serial), FlacAfter(t.flac, bodies, parse),
               t.events + SkippedAll(before) + Reports(first.serial, [first] + between),
               WroteAll(t.metadata, t.flac, bodies, parse))
  {
    hide OnPage, OnPages, PagesOf, PageOf, Sound, Header, Early, Starts, Unfinished, FlacAfter, WroteAll;
    var n, from := first.serial, [first] + between;
    assert before + [first] + between == before + from;
    assert from[0] == first && from[1..] == between;
    Stages(t, before, from, parse);
    BeforeTheStream(t, before, parse);
    var u := OnPages(t, PagesOf(before), parse);
    PagesStep(u, from, parse);
    OnePage(u, first, parse);
    FollowedOwn(u, n, from, parse);
    WithinTheStream(Capture(u, first, parse), n, between, parse);
  }

  /**
   * A page of the stream with any other granule position ends the following: it and all later pages are skipped,
   * until one starts a stream.
   */
  lemma StreamIsLetGo(
    t: Track, n: nat, within: seq<Fields>, late: Fields, after: seq<Fields>, parse: Parser
  )
    requires t.serial == Some(n) && (forall f | f in within + [late] + after :: Sound(f))
    requires (forall f | f in within && f.serial == n :: Early(f)) && Unfinished(t.flac, BodiesOf(n, within), parse)
    requires late.serial == n && !Early(late) && forall f | f in after :: !Starts(f)
    ensures
      var u := Followed(t, n, within, parse);
      OnPages(t, PagesOf(within + [late] + after), parse)
      == u.(serial := None, events := u.events + [Skipped(Header(late), |late.body|)] + SkippedAll(after))
  {
    hide OnPage, OnPages, PagesOf, PageOf, Sound, Header, Early, Starts, Followed, Unfinished;
    assert within + [late] + after == within + ([late] + after);
    assert ([late] + after)[0] == late && ([late] + after)[1..] == after;
    Stages(t, within, [late] + after, parse);
    WithinTheStream(t, n, within, parse);
    var u := Followed(t, n, within, parse);
    FollowedSerial(t, n, within, parse);
    PagesStep(u, [late] + after, parse);
    OnePage(u, late, parse);
    BeforeTheStream(Skip(u.(serial := None), late), after, parse);
  }

  lemma FollowedSerial(t: Track, n: nat, fs: seq<Fields>, parse: Parser)
    requires forall f | f in fs :: Sound(f)
    ensures Followed(t, n, fs, parse).serial == Some(n)
  {}
}
