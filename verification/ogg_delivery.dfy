/** What the controller gets of the metadata headers, its passes falling anywhere between calls of `stream_ogg`. */
module OggDelivery {
  import opened Bytes
  import opened Ogg
  import opened OggPages
  import opened Options

  datatype Action = Call(bytes: seq<byte>) | Take

  function Act(s: State, a: Action, parse: Parser): (t: State)
    requires Good(s)
    ensures Good(t)
  {
    match a
    case Call(bs) => FeedAll(s, bs, parse)
    case Take => Lowered(s)
  }

  /** The headers, by their number, that a take finds in the slot as they were completed. */
  function TakenWhole(s: State, acts: seq<Action>, parse: Parser): seq<nat>
    requires Good(s)
    decreases |acts|
  {
    if acts == [] then []
    else
      var m := s.metadata;
      (if acts[0].Take? && m.send && m.intact && |m.completed| > 0 then [|m.completed| - 1] else [])
      + TakenWhole(Act(s, acts[0], parse), acts[1..], parse)
  }

  /** Header i is the last one completed, and nothing has been written over it. */
  predicate Standing(m: Metadata, i: nat) {
    |m.completed| == i + 1 && m.intact
  }

  /** A take falls while header i stands. */
  predicate InTime(s: State, acts: seq<Action>, parse: Parser, i: nat)
    requires Good(s)
    decreases |acts|
  {
    acts != []
    && ((acts[0].Take? && Standing(s.metadata, i)) || InTime(Act(s, acts[0], parse), acts[1..], parse, i))
  }

  /** What any amount of scanning does to the slot: headers are added, and each raises the flag. */
  predicate Later(m: Metadata, n: Metadata) {
    m.completed <= n.completed
    && (m.send ==> n.send)
    && (|n.completed| > |m.completed| ==> n.send)
    && (n.completed == m.completed ==> n.send == m.send && (n.intact ==> m.intact && n.slot == m.slot))
    && (n.intact && |n.completed| > |m.completed| ==> n.slot == n.completed[|n.completed| - 1])
  }

  lemma LaterTwice(m: Metadata, n: Metadata, o: Metadata)
    requires Later(m, n) && Later(n, o)
    ensures Later(m, o)
  {}

  lemma FeedIsLater(s: State, b: byte, parse: Parser)
    requires Good(s)
    ensures Later(s.metadata, Feed(s, b, parse).metadata)
  {
    SettleIsLater(s);
  }

  lemma SettleIsLater(s: State)
    requires Good(s)
    ensures Good(Settle(s)) && Settle(s).metadata == s.metadata
  {
    FeedGood(s, 0, (f, bs) => Parsed(f, None, false));
  }

  lemma {:induction false} FeedAllIsLater(s: State, bs: seq<byte>, parse: Parser)
    requires Good(s)
    decreases |bs|
    ensures Later(s.metadata, FeedAll(s, bs, parse).metadata)
  {
    hide FeedAll, Feed, Good, Later;
    FeedAllStep(s, bs, parse);
    if bs == [] {
      LaterNow(s.metadata);
    } else {
      var t := Feed(s, bs[0], parse);
      FeedIsLater(s, bs[0], parse);
      FeedAllIsLater(t, bs[1..], parse);
      LaterTwice(s.metadata, t.metadata, FeedAll(s, bs, parse).metadata);
    }
  }

  lemma LaterNow(m: Metadata)
    ensures Later(m, m)
  {}

  /** A header that was written over or followed by another is not found by any later take. */
  lemma {:induction false} Gone(s: State, acts: seq<Action>, parse: Parser, i: nat)
    requires Good(s) && |s.metadata.completed| > i && !Standing(s.metadata, i)
    decreases |acts|
    ensures i !in TakenWhole(s, acts, parse) && !InTime(s, acts, parse, i)
  {
    hide FeedAll, Good;
    if acts != [] {
      if acts[0].Call? {
        FeedAllIsLater(s, acts[0].bytes, parse);
      }
      Gone(Act(s, acts[0], parse), acts[1..], parse, i);
    }
  }

  /** Header i is still to be completed, or has been and was not taken yet. */
  predicate Outstanding(m: Metadata, i: nat) {
    |m.completed| <= i || (|m.completed| == i + 1 && m.send)
  }

  /**
   * However scanning and takes follow one another, a header is taken whole exactly when a take falls after it is
   * completed and before the slot is written again.
   */
  lemma {:induction false} HeaderTakenIff(s: State, acts: seq<Action>, parse: Parser, i: nat)
    requires Good(s) && Outstanding(s.metadata, i)
    decreases |acts|
    ensures i in TakenWhole(s, acts, parse) <==> InTime(s, acts, parse, i)
  {
    hide FeedAll, Good;
    if acts != [] {
      var t := Act(s, acts[0], parse);
      if acts[0].Call? {
        FeedAllIsLater(s, acts[0].bytes, parse);
      }
      if Outstanding(t.metadata, i) {
        HeaderTakenIff(t, acts[1..], parse, i);
      } else if !Standing(t.metadata, i) {
        Gone(t, acts[1..], parse, i);
      }
    }
  }

  /** And what is taken then is the header. */
  predicate Slotted(m: Metadata) {
    m.intact ==> |m.completed| > 0 && m.slot == m.completed[|m.completed| - 1]
  }

  lemma ActKeepsSlot(s: State, a: Action, parse: Parser)
    requires Good(s) && Slotted(s.metadata)
    ensures Slotted(Act(s, a, parse).metadata)
  {
    hide FeedAll, Good;
    if a.Call? {
      FeedAllIsLater(s, a.bytes, parse);
    }
  }

  /** Headers are taken in order, and none is taken twice. */
  lemma {:induction false} TakenOnce(s: State, acts: seq<Action>, parse: Parser)
    requires Good(s)
    decreases |acts|
    ensures Ascends(if s.metadata.send then |s.metadata.completed| - 1 else |s.metadata.completed|,
                    TakenWhole(s, acts, parse))
  {
    hide FeedAll, Good;
    if acts != [] {
      var t := Act(s, acts[0], parse);
      if acts[0].Call? {
        FeedAllIsLater(s, acts[0].bytes, parse);
      }
      TakenOnce(t, acts[1..], parse);
      var rest, last := TakenWhole(t, acts[1..], parse), |s.metadata.completed| - 1;
      assert [] + rest == rest;
      assert last >= 0 ==> var n: nat := last; ([n] + rest)[1..] == rest;
    }
  }

  /** One after another, the first not before `from`. */
  predicate Ascends(from: int, s: seq<nat>)
    decreases |s|
  {
    s != [] ==> from <= s[0] && Ascends(s[0] + 1, s[1..])
  }

  // ---------------------------------------------------------------- a lost header

  function Zeros(n: nat): (z: seq<byte>)
    ensures |z| == n && forall k | 0 <= k < n :: z[k] == 0
  {
    seq(n, _ => 0)
  }

  /** A page that begins a logical stream, with a one-byte body. */
  function FirstPageOf(b: byte): Page {
    Page(PATTERN + [0, 2] + Zeros(20), [1], [b])
  }

  /** A parser to which every body is a complete header. */
  const HEADERS: Parser := (flac, body) => Parsed(false, Some(body), true)

  lemma {:induction false} LittleOfZeros(b: seq<byte>)
    requires forall k | 0 <= k < |b| :: b[k] == 0
    ensures Little(b) == 0
  {
    if b != [] {
      LittleOfZeros(b[1..]);
    }
  }

  lemma FirstPageIsFollowed(b: byte)
    ensures WellFormed(FirstPageOf(b))
    ensures var h := HeaderOf(FirstPageOf(b)); Follow(None, h) == Some(Serial(h))
  {
    var h := HeaderOf(FirstPageOf(b));
    assert h[6..14] == Zeros(20)[..8];
    assert h[5] == 2;
    LittleOfZeros(h[6..14]);
    assert Sum([1]) == 1;
    assert FirstPage(h) && Granule(h) == 0;
  }

  /** Between pages, and looking for the first page of a stream. */
  predicate Looking(s: State)
    requires Good(s)
  {
    Between(Settle(s)) && Settle(s).serial == None
  }

  /** One such page completes one header. */
  lemma HeaderCompleted(s: State, b: byte)
    requires Good(s) && Looking(s)
    ensures WellFormed(FirstPageOf(b))
    ensures
      var t := FeedAll(s, Encode(FirstPageOf(b)), HEADERS);
      Looking(t) && t.metadata == Metadata([b], true, true, s.metadata.completed + [[b]])
  {
    var g := FirstPageOf(b);
    FirstPageIsFollowed(b);
    SettleIsLater(s);
    var track := OnPage(TrackOf(Settle(s)), g, HEADERS);
    assert track.serial == None && track.metadata == Metadata([b], true, true, s.metadata.completed + [[b]]);
    hide FeedAll, Encode, OnPage, Settle, Good;
    SettledPage(s, g, HEADERS);
    SettleIsLater(FeedAll(s, Encode(g), HEADERS));
  }

  /** Two headers before the controller's pass: the first one is never taken. */
  lemma HeaderLost()
    ensures WellFormed(FirstPageOf(1)) && WellFormed(FirstPageOf(2)) && Good(INITIAL)
    ensures
      var acts := [Call(Encode(FirstPageOf(1))), Call(Encode(FirstPageOf(2))), Take];
      TakenWhole(INITIAL, acts, HEADERS) == [1] && !InTime(INITIAL, acts, HEADERS, 0)
  {
    HeaderCompleted(INITIAL, 1);
    HeaderCompleted(FeedAll(INITIAL, Encode(FirstPageOf(1)), HEADERS), 2);
    hide FeedAll, Encode, FirstPageOf, Good, TakenWhole, InTime, Looking;
    Overtaken(INITIAL, Encode(FirstPageOf(1)), Encode(FirstPageOf(2)), HEADERS);
  }

  lemma Overtaken(s: State, a: seq<byte>, b: seq<byte>, parse: Parser)
    requires Good(s) && |FeedAll(s, a, parse).metadata.completed| == 1
    requires
      var m := FeedAll(FeedAll(s, a, parse), b, parse).metadata;
      |m.completed| == 2 && m.send && m.intact
    ensures
      var acts := [Call(a), Call(b), Take];
      TakenWhole(s, acts, parse) == [1] && !InTime(s, acts, parse, 0)
  {
    var acts := [Call(a), Call(b), Take];
    var t := FeedAll(s, a, parse);
    var u := FeedAll(t, b, parse);
    assert acts[1..] == [Call(b), Take] && acts[2..] == [Take] && acts[3..] == [];
    assert acts[1..][1..] == acts[2..] && acts[2..][1..] == acts[3..];
    hide FeedAll, Good, Lowered, TakenWhole, InTime;
    Unrolled(s, acts, parse);
    Unrolled(t, acts[1..], parse);
    Unrolled(u, acts[2..], parse);
    Unrolled(Act(u, Take, parse), acts[3..], parse);
  }

  lemma Unrolled(s: State, acts: seq<Action>, parse: Parser)
    requires Good(s)
    ensures acts == [] ==> TakenWhole(s, acts, parse) == [] && !InTime(s, acts, parse, 0)
    ensures acts != [] && acts[0].Call? ==>
      TakenWhole(s, acts, parse) == TakenWhole(Act(s, acts[0], parse), acts[1..], parse)
      && InTime(s, acts, parse, 0) == InTime(Act(s, acts[0], parse), acts[1..], parse, 0)
    ensures acts != [] && acts[0].Take? && s.metadata.send && s.metadata.intact && |s.metadata.completed| == 2 ==>
      TakenWhole(s, acts, parse) == [1] + TakenWhole(Act(s, acts[0], parse), acts[1..], parse)
      && InTime(s, acts, parse, 0) == InTime(Act(s, acts[0], parse), acts[1..], parse, 0)
  {}
}
