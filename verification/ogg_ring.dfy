/** `stream_ogg` over the stream buffer: calls on what is received at `writep`, never across the end of the buffer. */
module OggRing {
  import opened Bytes
  import opened Ogg
  import opened OggDelivery
  import opened OggPages
  import opened OggWrap
  import opened Options

  /** The bytes of the buffer, where the next ones go, and the scanner. */
  datatype Ring = Ring(mem: seq<byte>, writep: nat, s: State)

  /** What is received, and what the three bytes in front of the buffer happen to be. */
  datatype Arrival = Arrival(outside: seq<byte>, bytes: seq<byte>)

  predicate Valid(r: Ring) {
    r.writep < |r.mem| && Good(r.s)
  }

  /** What `_buf_cont_write` lets through at most. */
  predicate Fits(r: Ring, a: Arrival) {
    Valid(r) && |a.outside| == 3 && |a.bytes| <= |r.mem| - r.writep
  }

  function Below(r: Ring, a: Arrival): (below: seq<byte>)
    requires Fits(r, a)
    ensures |below| == 3 + r.writep
  {
    a.outside + r.mem[..r.writep]
  }

  /** The offset that lies count bytes on from w. */
  function Place(w: nat, count: nat, size: nat): (p: nat)
    requires w < size
    ensures p < size
    decreases count
  {
    if count < size - w then w + count else Place(0, count - (size - w), size)
  }

  lemma PlaceNear(w: nat, count: nat, size: nat)
    requires w < size && count <= size - w
    ensures Place(w, count, size) == if w + count < size then w + count else 0
  {}

  lemma {:induction false} PlaceTwice(w: nat, j: nat, k: nat, size: nat)
    requires w < size
    ensures Place(Place(w, j, size), k, size) == Place(w, j + k, size)
    decreases j
  {
    if j >= size - w {
      PlaceTwice(0, j - (size - w), k, size);
    }
  }

  function Step(r: Ring, a: Arrival, parse: Parser): (t: Ring)
    requires Fits(r, a)
    ensures Valid(t) && |t.mem| == |r.mem|
  {
    var end := r.writep + |a.bytes|;
    Ring(r.mem[..r.writep] + a.bytes + r.mem[end..],
         Place(r.writep, |a.bytes|, |r.mem|),
         Scanned(r.s, Below(r, a), a.bytes, parse))
  }

  predicate Possible(r: Ring, run: seq<Arrival>, parse: Parser)
    requires Valid(r)
    decreases |run|
  {
    run != [] ==> Fits(r, run[0]) && Possible(Step(r, run[0], parse), run[1..], parse)
  }

  function After(r: Ring, run: seq<Arrival>, parse: Parser): (t: Ring)
    requires Valid(r) && Possible(r, run, parse)
    ensures Valid(t) && |t.mem| == |r.mem|
    decreases |run|
  {
    if run == [] then r else After(Step(r, run[0], parse), run[1..], parse)
  }

  function Received(run: seq<Arrival>): seq<byte> {
    if run == [] then [] else run[0].bytes + Received(run[1..])
  }

  // ---------------------------------------------------------------- the part of the pattern that is still there

  /** The last bytes of bs, or all of them, are those by which the recognised part of the pattern grew. */
  ghost predicate Grown(s: State, bs: seq<byte>, t: State) {
    if t.matched > |bs| then t.matched == s.matched + |bs| <= 4 && bs == PATTERN[s.matched..t.matched]
    else t.matched <= 4 && bs[|bs| - t.matched..] == PATTERN[..t.matched]
  }

  lemma MatchedStep(s: State, b: byte, parse: Parser)
    requires Good(s)
    ensures
      var t := Feed(s, b, parse);
      t.matched == 0 || (t.matched == s.matched + 1 < 4 && b == PATTERN[s.matched])
  {}

  lemma {:induction false} MatchedAll(s: State, bs: seq<byte>, parse: Parser)
    requires Good(s)
    decreases |bs|
    ensures Grown(s, bs, FeedAll(s, bs, parse))
  {
    FeedAllStep(s, bs, parse);
    hide FeedAll, Feed, Good;
    if bs == [] {
      assert PATTERN[s.matched..s.matched] == [];
    } else {
      MatchedStep(s, bs[0], parse);
      MatchedAll(Feed(s, bs[0], parse), bs[1..], parse);
      GrownFirst(s, bs, Feed(s, bs[0], parse), FeedAll(s, bs, parse));
    }
  }

  lemma GrownFirst(s: State, bs: seq<byte>, s1: State, t: State)
    requires bs != [] && Grown(s1, bs[1..], t)
    requires s1.matched == 0 || (s1.matched == s.matched + 1 < 4 && bs[0] == PATTERN[s.matched])
    ensures Grown(s, bs, t)
  {
    assert bs == [bs[0]] + bs[1..];
    if t.matched >= |bs| {
      assert PATTERN[s.matched..t.matched] == [PATTERN[s.matched]] + PATTERN[s1.matched..t.matched];
    } else {
      assert bs[1..][|bs| - 1 - t.matched..] == bs[|bs| - t.matched..];
    }
  }

  lemma MatchedScanned(s: State, below: seq<byte>, bs: seq<byte>, parse: Parser)
    requires Good(s) && s.matched <= |below|
    ensures Grown(s, bs, Scanned(s, below, bs, parse))
  {
    hide FeedAll, Grown;
    if Completes(s, bs) {
      CompletesInSync(s, bs);
      MatchedBack(s, below[|below| - s.matched..], bs, parse);
    } else {
      MatchedAll(s, bs, parse);
    }
  }

  /** After a step back nothing is recognised before the 27 bytes of a header are through. */
  lemma MatchedBack(s: State, back: seq<byte>, bs: seq<byte>, parse: Parser)
    requires Good(s) && s.phase.Sync? && s.miss == 0 && |back| == s.matched && bs != []
    ensures Good(AtHeader(s)) && Grown(s, bs, FeedAll(AtHeader(s), back + bs, parse))
  {
    AtHeaderGood(s);
    var all := back + bs;
    var t := FeedAll(AtHeader(s), all, parse);
    if |all| < HEADER_SIZE {
      FeedCopies(AtHeader(s), all, parse);
      hide FeedAll;
      assert t.matched == 0;
      assert bs[|bs|..] == [] == PATTERN[..0];
    } else {
      MatchedAll(AtHeader(s), all, parse);
      hide FeedAll;
      assert all[|all| - t.matched..] == bs[|bs| - t.matched..];
    }
  }

  /** Going down from the end of `have`, as far as it goes, lie the first m elements of q. */
  ghost predicate Trails(q: seq<byte>, m: nat, have: seq<byte>) {
    m <= |q| && forall j | 0 <= j < |have| && j >= |have| - m :: have[j] == q[j + m - |have|]
  }

  lemma TrailsOn(q: seq<byte>, m: nat, have: seq<byte>, bs: seq<byte>, t: nat)
    requires Trails(q, m, have) && t == m + |bs| <= |q| && bs == q[m..t]
    ensures Trails(q, t, have + bs)
  {
    var all := have + bs;
    forall j | 0 <= j < |all| && j >= |all| - t ensures all[j] == q[j + t - |all|] {
      if j < |have| {
        assert all[j] == have[j];
      } else {
        assert all[j] == q[m..t][j - |have|];
      }
    }
  }

  lemma TrailsAnew(q: seq<byte>, have: seq<byte>, bs: seq<byte>, t: nat)
    requires t <= |bs| && t <= |q| && bs[|bs| - t..] == q[..t]
    ensures Trails(q, t, have + bs)
  {
    var all := have + bs;
    forall j | 0 <= j < |all| && j >= |all| - t ensures all[j] == q[j + t - |all|] {
      assert all[j] == bs[|bs| - t..][j + t - |all|];
    }
  }

  /** In the buffer, as far as it goes down from writep, lies the recognised part of the pattern. */
  ghost predicate Holds(r: Ring)
    requires Valid(r)
  {
    Trails(PATTERN, r.s.matched, r.mem[..r.writep])
  }

  lemma HoldsStep(r: Ring, a: Arrival, parse: Parser)
    requires Fits(r, a) && Holds(r)
    ensures Holds(Step(r, a, parse))
  {
    StepFacts(r, a, parse);
    hide *;
    HoldsOn(r, a.bytes, Step(r, a, parse));
  }

  lemma StepFacts(r: Ring, a: Arrival, parse: Parser)
    requires Fits(r, a)
    ensures
      var t := Step(r, a, parse);
      && Valid(r) && Valid(t) && r.writep + |a.bytes| <= |r.mem| && Grown(r.s, a.bytes, t.s)
      && t.mem == r.mem[..r.writep] + a.bytes + r.mem[r.writep + |a.bytes|..]
      && t.writep == if r.writep + |a.bytes| < |r.mem| then r.writep + |a.bytes| else 0
  {
    hide Scanned, Grown;
    MatchedScanned(r.s, Below(r, a), a.bytes, parse);
    PlaceNear(r.writep, |a.bytes|, |r.mem|);
  }

  lemma HoldsOn(r: Ring, bs: seq<byte>, t: Ring)
    requires Valid(r) && Valid(t) && Holds(r) && r.writep + |bs| <= |r.mem| && Grown(r.s, bs, t.s)
    requires t.mem == r.mem[..r.writep] + bs + r.mem[r.writep + |bs|..]
    requires t.writep == if r.writep + |bs| < |r.mem| then r.writep + |bs| else 0
    ensures Holds(t)
  {
    hide Good, Trails;
    assert t.mem[..r.writep + |bs|] == r.mem[..r.writep] + bs;
    if t.writep == 0 {
      NothingTrails(PATTERN, t.s.matched);
    } else if t.s.matched <= |bs| {
      TrailsAnew(PATTERN, r.mem[..r.writep], bs, t.s.matched);
    } else {
      TrailsOn(PATTERN, r.s.matched, r.mem[..r.writep], bs, t.s.matched);
    }
  }

  lemma NothingTrails(q: seq<byte>, m: nat)
    requires m <= |q|
    ensures Trails(q, m, [])
  {}

  // ---------------------------------------------------------------- when a run is in step with the byte machine

  /** A call divided from the beginning of its pattern by the end of the buffer: it steps back below the buffer. */
  predicate Divided(r: Ring, a: Arrival)
    requires Fits(r, a)
  {
    r.s.matched > r.writep && Completes(r.s, a.bytes)
  }

  /** What is stepped back over there happens to be the beginning of the pattern. */
  predicate Lucky(r: Ring, a: Arrival)
    requires Fits(r, a) && Divided(r, a)
  {
    var over := r.s.matched - r.writep;
    a.outside[3 - over..] == PATTERN[..over]
  }

  lemma FaithfulStep(r: Ring, a: Arrival)
    requires Fits(r, a) && Holds(r)
    ensures Faithful(r.s, Below(r, a), a.bytes) <==> (Divided(r, a) ==> Lucky(r, a))
  {
    BelowTrails(PATTERN, r.s.matched, a.outside, r.mem[..r.writep]);
    hide Trails, Completes, Good;
  }

  lemma BelowTrails(q: seq<byte>, m: nat, outside: seq<byte>, have: seq<byte>)
    requires Trails(q, m, have) && m <= |outside|
    ensures
      var below := outside + have;
      && (m <= |have| ==> below[|below| - m..] == q[..m])
      && (m > |have| ==>
            var over := m - |have|;
            below[|below| - m..] == q[..m] <==> outside[|outside| - over..] == q[..over])
  {
    var below := outside + have;
    if m <= |have| {
      assert below[|below| - m..] == have[|have| - m..];
      assert have[|have| - m..] == q[..m];
    } else {
      Divide(q, m, outside, have);
    }
  }

  lemma Divide(q: seq<byte>, m: nat, outside: seq<byte>, have: seq<byte>)
    requires Trails(q, m, have) && |have| < m <= |outside|
    ensures
      var over, below := m - |have|, outside + have;
      below[|below| - m..] == q[..m] <==> outside[|outside| - over..] == q[..over]
  {
    var over := m - |have|;
    var back := outside[|outside| - over..];
    assert (outside + have)[|outside + have| - m..] == back + have;
    assert q[over..m] == have;
    SameSplit(back, have, q, m);
  }

  lemma SameSplit(a: seq<byte>, b: seq<byte>, q: seq<byte>, m: nat)
    requires |a| + |b| == m <= |q| && q[|a|..m] == b
    ensures a + b == q[..m] <==> a == q[..|a|]
  {
    assert q[..m] == q[..|a|] + q[|a|..m];
    assert (a + b)[..|a|] == a && q[..m][..|a|] == q[..|a|];
  }

  /** After every byte of every call the scanner is where the byte machine e is. */
  predicate InStep(r: Ring, e: State, run: seq<Arrival>, parse: Parser)
    requires Valid(r) && Good(e) && Possible(r, run, parse)
    decreases |run|
  {
    if run == [] then r.s == e
    else
      var bs := run[0].bytes;
      && (forall k | 0 <= k <= |bs| :: Scanned(r.s, Below(r, run[0]), bs[..k], parse) == FeedAll(e, bs[..k], parse))
      && InStep(Step(r, run[0], parse), FeedAll(e, bs, parse), run[1..], parse)
  }

  /** No call is divided from its pattern, except by luck. */
  predicate Undivided(r: Ring, run: seq<Arrival>, parse: Parser)
    requires Valid(r) && Possible(r, run, parse)
    decreases |run|
  {
    run != [] ==>
      (Divided(r, run[0]) ==> Lucky(r, run[0])) && Undivided(Step(r, run[0], parse), run[1..], parse)
  }

  lemma FirstCall(r: Ring, a: Arrival, parse: Parser)
    requires Fits(r, a) && Holds(r)
    ensures (Divided(r, a) ==> Lucky(r, a))
       <==> forall k | 0 <= k <= |a.bytes| ::
              Scanned(r.s, Below(r, a), a.bytes[..k], parse) == FeedAll(r.s, a.bytes[..k], parse)
    ensures (Divided(r, a) ==> Lucky(r, a)) ==> Step(r, a, parse).s == FeedAll(r.s, a.bytes, parse)
  {
    hide FeedAll, Scanned, Divided, Lucky, Below;
    FaithfulStep(r, a);
    FaithfulIff(r.s, Below(r, a), a.bytes, parse);
    if Divided(r, a) ==> Lucky(r, a) {
      FaithfulCall(r.s, Below(r, a), a.bytes, parse);
    }
  }

  /** However the stream arrives: in step throughout, if and only if no call is divided from its pattern. */
  lemma {:induction false} InStepIff(r: Ring, run: seq<Arrival>, parse: Parser)
    requires Valid(r) && Holds(r) && Possible(r, run, parse)
    decreases |run|
    ensures InStep(r, r.s, run, parse) <==> Undivided(r, run, parse)
  {
    hide FeedAll, Scanned, Divided, Lucky, Holds, Step, Below, Good, Fits;
    if run != [] {
      FirstCall(r, run[0], parse);
      HoldsStep(r, run[0], parse);
      if Divided(r, run[0]) ==> Lucky(r, run[0]) {
        InStepIff(Step(r, run[0], parse), run[1..], parse);
      }
    }
  }

  lemma {:induction false} InStepEnds(r: Ring, e: State, run: seq<Arrival>, parse: Parser)
    requires Valid(r) && Good(e) && Possible(r, run, parse) && InStep(r, e, run, parse)
    decreases |run|
    ensures After(r, run, parse).s == FeedAll(e, Received(run), parse)
  {
    hide FeedAll, Scanned, Step, Below, Good, Fits;
    if run == [] {
      FeedAllStep(e, [], parse);
    } else {
      InStepEnds(Step(r, run[0], parse), FeedAll(e, run[0].bytes, parse), run[1..], parse);
      FeedInChunks(e, run[0].bytes, Received(run[1..]), parse);
    }
  }

  // ---------------------------------------------------------------- the same, whatever the calls

  /** A pattern whose last byte falls in the first three places of the buffer. */
  predicate Severed(s: State, w: nat, size: nat, bs: seq<byte>, parse: Parser)
    requires Good(s) && w < size
    decreases |bs|
  {
    bs != []
    && ((s.matched == 3 && bs[0] == PATTERN[3] && w < 3)
        || (FeedGood(s, bs[0], parse); Severed(Feed(s, bs[0], parse), Place(w, 1, size), size, bs[1..], parse)))
  }

  /** For what one call receives. */
  lemma {:induction false} SeveredCall(s: State, w: nat, size: nat, bs: seq<byte>, parse: Parser)
    requires Good(s) && w < size && |bs| <= size - w
    decreases |bs|
    ensures Severed(s, w, size, bs, parse) <==> s.matched > w && Completes(s, bs)
  {
    if bs != [] {
      FeedGood(s, bs[0], parse);
      var t := Feed(s, bs[0], parse);
      MatchedStep(s, bs[0], parse);
      CompletesNext(s, bs, parse);
      hide Feed, Good, Completes;
      if |bs| > 1 {
        SeveredCall(t, w + 1, size, bs[1..], parse);
      }
    }
  }

  lemma CompletesNext(s: State, bs: seq<byte>, parse: Parser)
    requires Good(s) && bs != []
    ensures Good(Feed(s, bs[0], parse))
    ensures s.matched == 3 ==> (Completes(s, bs) <==> bs[0] == PATTERN[3]) && Feed(s, bs[0], parse).matched == 0
    ensures 0 < s.matched < 3 ==> (Completes(s, bs) <==> Completes(Feed(s, bs[0], parse), bs[1..]))
    ensures s.matched == 0 ==> !Completes(s, bs) && Feed(s, bs[0], parse).matched <= 1
    ensures |bs| == 1 ==> (Completes(s, bs) <==> s.matched == 3 && bs[0] == PATTERN[3])
  {
    FeedGood(s, bs[0], parse);
    var t := Feed(s, bs[0], parse);
    assert s.matched > 0 ==>
      t.matched == if s.matched < 3 && bs[0] == PATTERN[s.matched] then s.matched + 1 else 0;
    hide Feed, Good;
    PrefixNext(PATTERN, s.matched, bs);
  }

  lemma PrefixNext(q: seq<byte>, m: nat, bs: seq<byte>)
    requires m < |q| && bs != []
    ensures q[m..] <= bs <==> bs[0] == q[m] && q[m + 1..] <= bs[1..]
    ensures m + 1 == |q| ==> q[m + 1..] <= bs[1..]
    ensures m + 1 < |q| && |bs| == 1 ==> !(q[m..] <= bs)
  {
    assert q[m..] == [q[m]] + q[m + 1..];
    assert bs == [bs[0]] + bs[1..];
  }

  lemma {:induction false} SeveredInChunks(
    s: State, w: nat, size: nat, a: seq<byte>, b: seq<byte>, parse: Parser
  )
    requires Good(s) && w < size
    decreases |a|
    ensures Severed(s, w, size, a + b, parse)
       <==> Severed(s, w, size, a, parse) || Severed(FeedAll(s, a, parse), Place(w, |a|, size), size, b, parse)
  {
    FeedAllStep(s, a, parse);
    hide FeedAll, Feed, Good;
    if a == [] {
      assert a + b == b;
    } else {
      FeedGood(s, a[0], parse);
      assert (a + b)[1..] == a[1..] + b;
      PlaceTwice(w, 1, |a| - 1, size);
      SeveredInChunks(Feed(s, a[0], parse), Place(w, 1, size), size, a[1..], b, parse);
    }
  }

  /** Bytes in front of the buffer that no step back can take for a beginning of the pattern. */
  predicate Foreign(outside: seq<byte>) {
    |outside| == 3 && forall m | 0 < m < 4 :: outside[3 - m..] != PATTERN[..m]
  }

  /** Whether a run is in step does not depend on the calls: only on where the patterns of the stream fall. */
  lemma {:induction false} UndividedIff(r: Ring, run: seq<Arrival>, parse: Parser)
    requires Valid(r) && Holds(r) && Possible(r, run, parse)
    decreases |run|
    ensures !Severed(r.s, r.writep, |r.mem|, Received(run), parse) ==> Undivided(r, run, parse)
    ensures (forall a | a in run :: Foreign(a.outside)) ==>
      (Undivided(r, run, parse) <==> !Severed(r.s, r.writep, |r.mem|, Received(run), parse))
  {
    hide FeedAll, Scanned, Lucky, Holds, Good, Severed, Completes, Below, Foreign;
    if run == [] {
      NothingSevered(r, parse);
    } else {
      var a := run[0];
      var t := Step(r, a, parse);
      HoldsStep(r, a, parse);
      FirstCall(r, a, parse);
      SeveredInChunks(r.s, r.writep, |r.mem|, a.bytes, Received(run[1..]), parse);
      SeveredCall(r.s, r.writep, |r.mem|, a.bytes, parse);
      UndividedIff(t, run[1..], parse);
      if Foreign(a.outside) && Divided(r, a) {
        Unlucky(r, a);
      }
    }
  }

  lemma NothingSevered(r: Ring, parse: Parser)
    requires Valid(r)
    ensures !Severed(r.s, r.writep, |r.mem|, [], parse)
  {}

  lemma Unlucky(r: Ring, a: Arrival)
    requires Fits(r, a) && Divided(r, a) && Foreign(a.outside)
    ensures !Lucky(r, a)
  {}
}
