/**
 * Who owns each `struct chain` while the configuration watcher, the decode thread and shutdown interleave.
 * A step is one access to the shared pending slot, or the work a thread does between two such accesses.
 */
module ChainSwap {
  import opened Options

  /** Where the watcher is inside dsp_configure. */
  datatype Watcher =
    | WIdle
    | WParsed(parsed: nat)                  // n is validated, not yet exchanged
    | WExchanged(displaced: Option<nat>)         // the displaced chain is still to be freed

  /** Where the decode thread is inside dsp_newstream or dsp_process. */
  datatype Decoder =
    | DIdle
    | DTook(queued: Option<nat>)                              // dsp_newstream emptied pending
    | DPrepared(queued: Option<nat>, prepared: nat)           // the clone is ready
    | DFailed(rejected: nat)                                  // to be put back
    | DPutBack(superseded: Option<nat>)                       // what the put-back displaced
    | DBlock(taken: Option<nat>)                              // dsp_process emptied pending

  const RAMP_FRAMES: nat := 256

  datatype State = State(
    live: set<nat>,                        // allocated and not freed
    next: nat,                             // identities are handed out in order
    fault: bool,                           // a chain was freed twice, or used when not live
    pending: Option<nat>,
    current: Option<nat>,
    retiring: Option<nat>,
    ramp: nat,
    active: bool,
    configured: bool,
    closed: bool,
    watcher: Watcher,
    decoder: Decoder)

  const START := State({}, 0, false, None, None, None, 0, false, false, false, WIdle, DIdle)

  datatype Action =
    | Parse                                // _parse accepts a document
    | Publish                              // __atomic_exchange_n(&d.pending, n)
    | FreeDisplaced
    | TakeForStream                        // dsp_newstream up to the exchange
    | CloneChain(prepares: bool)           // _clone_chain and _prepare
    | Commit
    | PutBack                              // the exchange on the failure path
    | FreeSuperseded
    | TakeForBlock                         // dsp_process up to the exchange
    | RenderBlock(prepares: bool, frames: nat)
    | FlushStream
    | Close

  function Free(s: State, c: Option<nat>): State {
    match c
    case None => s
    case Some(id) => if id in s.live then s.(live := s.live - {id}) else s.(fault := true)
  }

  function Use(s: State, c: Option<nat>): State {
    match c
    case None => s
    case Some(id) => if id in s.live then s else s.(fault := true)
  }

  function Allocate(s: State): State {
    s.(live := s.live + {s.next}, next := s.next + 1)
  }

  /** The flag goes up where a chain is freed twice, or used when it was freed. */
  lemma FaultIsSeen(s: State, id: nat)
    ensures Free(Free(s, Some(id)), Some(id)).fault && Use(Free(s, Some(id)), Some(id)).fault
    ensures s.fault ==> Free(s, Some(id)).fault && Use(s, Some(id)).fault
  {}

  predicate Enabled(s: State, a: Action) {
    !s.closed &&
    match a
    case Parse => s.watcher.WIdle?
    case Publish => s.watcher.WParsed?
    case FreeDisplaced => s.watcher.WExchanged?
    case TakeForStream => s.decoder.DIdle? && s.configured
    case CloneChain(_) => s.decoder.DTook?
    case Commit => s.decoder.DPrepared?
    case PutBack => s.decoder.DFailed?
    case FreeSuperseded => s.decoder.DPutBack?
    case TakeForBlock => s.decoder.DIdle? && s.active
    case RenderBlock(_, _) => s.decoder.DBlock?
    case FlushStream => s.decoder.DIdle?
    case Close => s.watcher.WIdle? && s.decoder.DIdle?   // after the watcher has been joined
  }

  function Step(s: State, a: Action): State
    requires Enabled(s, a)
  {
    match a
    case Parse =>
      Allocate(s).(watcher := WParsed(s.next))
    case Publish =>
      Use(s, Some(s.watcher.parsed))
      .(pending := Some(s.watcher.parsed), watcher := WExchanged(s.pending))
    case FreeDisplaced =>
      Free(s, s.watcher.displaced).(configured := true, watcher := WIdle)
    case TakeForStream =>
      if s.pending.None? && s.current.None? then s
      else s.(pending := None, decoder := DTook(s.pending))
    case CloneChain(prepares) =>
      var queued := s.decoder.queued;
      var used := Use(s, if queued.Some? then queued else s.current);
      if prepares then Allocate(used).(decoder := DPrepared(queued, s.next))
      else if queued.Some? then used.(decoder := DFailed(queued.value))
      else used.(decoder := DIdle)
    case Commit =>
      var freed := Free(Free(Free(Use(s, Some(s.decoder.prepared)), s.decoder.queued), s.current), s.retiring);
      freed.(current := Some(s.decoder.prepared), retiring := None, ramp := RAMP_FRAMES, active := true,
          decoder := DIdle)
    case PutBack =>
      s.(pending := Some(s.decoder.rejected), decoder := DPutBack(s.pending))
    case FreeSuperseded =>
      Free(s, s.decoder.superseded).(decoder := DIdle)
    case TakeForBlock =>
      s.(pending := None, decoder := DBlock(s.pending))
    case RenderBlock(prepares, frames) =>
      Render(Install(Use(s, s.decoder.taken), s.decoder.taken, prepares).(decoder := DIdle), frames)
    case FlushStream =>
      Use(Use(s, s.current), s.retiring).(active := false)
    case Close =>
      Free(Free(Free(s, s.pending), s.current), s.retiring)
      .(pending := None, current := None, retiring := None, active := false, configured := false, closed := true)
  }

  /** The head of dsp_process: a taken chain is dropped, or becomes current while the old one retires. */
  function Install(s: State, taken: Option<nat>, prepares: bool): State {
    if taken.None? then s
    else if !prepares then Free(s, taken)
    else Free(s, s.retiring).(retiring := s.current, current := taken, ramp := 0)
  }

  /** The frame loop mixes in the retiring chain until the ramp is over, and then it is freed. */
  function Render(s: State, frames: nat): State {
    var used := Use(Use(s, s.current), s.retiring);
    var ramped := if s.retiring.Some? && s.ramp < RAMP_FRAMES
                  then used.(ramp := if s.ramp + frames < RAMP_FRAMES then s.ramp + frames else RAMP_FRAMES)
                  else used;
    if ramped.retiring.Some? && ramped.ramp >= RAMP_FRAMES then Free(ramped, ramped.retiring).(retiring := None)
    else ramped
  }

  // ---------------------------------------------------------------- the invariant

  /** How often c refers to the chain id. */
  function Refers(c: Option<nat>, id: nat): nat {
    if c == Some(id) then 1 else 0
  }

  function WatcherHolds(w: Watcher, id: nat): nat {
    match w
    case WIdle => 0
    case WParsed(parsed) => Refers(Some(parsed), id)
    case WExchanged(displaced) => Refers(displaced, id)
  }

  function DecoderHolds(d: Decoder, id: nat): nat {
    match d
    case DIdle => 0
    case DTook(queued) => Refers(queued, id)
    case DPrepared(queued, prepared) => Refers(queued, id) + Refers(Some(prepared), id)
    case DFailed(rejected) => Refers(Some(rejected), id)
    case DPutBack(superseded) => Refers(superseded, id)
    case DBlock(taken) => Refers(taken, id)
  }

  /** The number of references to a chain that are held anywhere. */
  function Held(s: State, id: nat): nat {
    Refers(s.pending, id) + Refers(s.current, id) + Refers(s.retiring, id)
    + WatcherHolds(s.watcher, id) + DecoderHolds(s.decoder, id)
  }

  /** Ownership is exact: every live chain has one owner, and nothing refers to a freed one. */
  predicate Owned(s: State, id: nat) {
    Held(s, id) == if id in s.live then 1 else 0
  }

  ghost predicate Inv(s: State) {
    && !s.fault
    && (forall id: nat :: Owned(s, id))
    && (forall id | id in s.live :: id < s.next)
    && (s.active ==> s.current.Some?)
    && (s.decoder.DTook? ==> s.decoder.queued.Some? || s.current.Some?)
    && (s.decoder.DBlock? ==> s.active)
    && (s.retiring.Some? ==> s.current.Some?)
    && (s.closed ==> s.live == {})
  }

  /** Whatever a reference names is live. */
  lemma HeldIsLive(s: State, c: Option<nat>)
    requires forall id: nat :: Owned(s, id)
    requires c.Some? ==> Held(s, c.value) > 0
    ensures c.Some? ==> c.value in s.live
  {
    if c.Some? {
      assert Owned(s, c.value);
    }
  }

  lemma CommitKeepsInv(s: State)
    requires Inv(s) && Enabled(s, Commit)
    ensures Inv(Step(s, Commit))
  {
    var t, d := Step(s, Commit), s.decoder;
    assert Owned(s, d.prepared);
    assert d.queued.Some? ==> Owned(s, d.queued.value);
    assert s.current.Some? ==> Owned(s, s.current.value);
    assert s.retiring.Some? ==> Owned(s, s.retiring.value);
    forall id: nat ensures Owned(t, id) {
      assert Owned(s, id);
    }
  }

  lemma InstallKeepsInv(s: State, prepares: bool)
    requires Inv(s) && s.decoder.DBlock?
    ensures
      var t := Install(Use(s, s.decoder.taken), s.decoder.taken, prepares).(decoder := DIdle);
      Inv(t) && t.active
  {
    var taken := s.decoder.taken;
    var t := Install(Use(s, taken), taken, prepares).(decoder := DIdle);
    assert taken.Some? ==> Owned(s, taken.value);
    assert s.retiring.Some? ==> Owned(s, s.retiring.value);
    forall id: nat ensures Owned(t, id) {
      assert Owned(s, id);
    }
  }

  lemma RenderKeepsInv(s: State, frames: nat)
    requires Inv(s) && s.active && s.decoder.DIdle?
    ensures Inv(Render(s, frames))
  {
    var t := Render(s, frames);
    assert s.current.Some? ==> Owned(s, s.current.value);
    assert s.retiring.Some? ==> Owned(s, s.retiring.value);
    forall id: nat ensures Owned(t, id) {
      assert Owned(s, id);
    }
  }

  lemma BlockKeepsInv(s: State, prepares: bool, frames: nat)
    requires Inv(s) && Enabled(s, RenderBlock(prepares, frames))
    ensures Inv(Step(s, RenderBlock(prepares, frames)))
  {
    hide Install, Render, Use, Inv;
    assert s.decoder.DBlock?;
    var t := Install(Use(s, s.decoder.taken), s.decoder.taken, prepares);
    InstallKeepsInv(s, prepares);
    RenderKeepsInv(t.(decoder := DIdle), frames);
  }

  lemma CloseKeepsInv(s: State)
    requires Inv(s) && Enabled(s, Close)
    ensures Inv(Step(s, Close))
  {
    var t := Step(s, Close);
    assert s.pending.Some? ==> Owned(s, s.pending.value);
    assert s.current.Some? ==> Owned(s, s.current.value);
    assert s.retiring.Some? ==> Owned(s, s.retiring.value);
    forall id: nat ensures Owned(t, id) {
      assert Owned(s, id);
    }
    forall id: nat ensures id !in t.live {
      assert Owned(t, id);
    }
  }

  lemma WatcherKeepsInv(s: State, a: Action)
    requires Inv(s) && Enabled(s, a)
    requires a.Parse? || a.Publish? || a.FreeDisplaced?
    ensures Inv(Step(s, a))
  {
    var t := Step(s, a);
    assert Owned(s, s.next);
    match s.watcher {
      case WIdle =>
      case WParsed(parsed) => HeldIsLive(s, Some(parsed));
      case WExchanged(displaced) => HeldIsLive(s, displaced);
    }
    forall id: nat ensures Owned(t, id) {
      assert Owned(s, id);
    }
  }

  lemma DecoderKeepsInv(s: State, a: Action)
    requires Inv(s) && Enabled(s, a)
    requires a.TakeForStream? || a.PutBack? || a.FreeSuperseded? || a.TakeForBlock? || a.FlushStream?
    ensures Inv(Step(s, a))
  {
    var t := Step(s, a);
    if s.decoder.DPutBack? {
      HeldIsLive(s, s.decoder.superseded);
    }
    HeldIsLive(s, s.current);
    HeldIsLive(s, s.retiring);
    forall id: nat ensures Owned(t, id) {
      assert Owned(s, id);
    }
  }

  lemma CloneKeepsInv(s: State, prepares: bool)
    requires Inv(s) && Enabled(s, CloneChain(prepares))
    ensures Inv(Step(s, CloneChain(prepares)))
  {
    var t := Step(s, CloneChain(prepares));
    assert Owned(s, s.next);
    HeldIsLive(s, s.decoder.queued);
    HeldIsLive(s, s.current);
    forall id: nat ensures Owned(t, id) {
      assert Owned(s, id);
    }
  }

  /** No step of any thread, in any state that can occur, breaks exact ownership. */
  lemma StepKeepsInv(s: State, a: Action)
    requires Inv(s) && Enabled(s, a)
    ensures Inv(Step(s, a))
  {
    hide *;
    match a
    case Commit => CommitKeepsInv(s);
    case RenderBlock(prepares, frames) => BlockKeepsInv(s, prepares, frames);
    case Close => CloseKeepsInv(s);
    case CloneChain(prepares) => CloneKeepsInv(s, prepares);
    case Parse => WatcherKeepsInv(s, a);
    case Publish => WatcherKeepsInv(s, a);
    case FreeDisplaced => WatcherKeepsInv(s, a);
    case _ => DecoderKeepsInv(s, a);
  }

  /**
   * Neither thread ever waits for the other: until shutdown each can take its next step, whatever the other is at, and
   * from their resting places they can begin anything that a call can ask of them.
   */
  lemma NobodyWaits(s: State, prepares: bool, frames: nat)
    requires !s.closed
    ensures Enabled(s, Parse) || Enabled(s, Publish) || Enabled(s, FreeDisplaced)
    ensures
      Enabled(s, FlushStream) || Enabled(s, CloneChain(prepares)) || Enabled(s, Commit) || Enabled(s, PutBack)
      || Enabled(s, FreeSuperseded) || Enabled(s, RenderBlock(prepares, frames))
    ensures s.decoder == DIdle ==>
      (s.active <==> Enabled(s, TakeForBlock)) && (s.configured <==> Enabled(s, TakeForStream))
    ensures s.decoder == DIdle && s.watcher == WIdle ==> Enabled(s, Close)
  {}

  // ---------------------------------------------------------------- whole runs

  /** The actions can happen one after the other from s. */
  ghost predicate Possible(s: State, run: seq<Action>)
    decreases run
  {
    run == [] || (Enabled(s, run[0]) && Possible(Step(s, run[0]), run[1..]))
  }

  function Final(s: State, run: seq<Action>): State
    requires Possible(s, run)
    decreases run
  {
    if run == [] then s else Final(Step(s, run[0]), run[1..])
  }

  lemma {:induction false} RunKeepsInv(s: State, run: seq<Action>)
    requires Inv(s) && Possible(s, run)
    ensures Inv(Final(s, run))
    decreases run
  {
    hide Step, Enabled, Inv;
    if run != [] {
      StepKeepsInv(s, run[0]);
      RunKeepsInv(Step(s, run[0]), run[1..]);
    }
  }

  /**
   * Whatever the interleaving: no chain is freed twice or used after it was freed, each live chain has exactly
   * one owner, an active stream has a current chain, and shutdown leaves nothing allocated.
   */
  lemma EveryInterleaving(run: seq<Action>)
    requires Possible(START, run)
    ensures
      var s := Final(START, run);
      && !s.fault
      && (forall id: nat :: Held(s, id) == if id in s.live then 1 else 0)
      && (s.active ==> s.current.Some?)
      && (s.closed ==> s.live == {})
  {
    assert Inv(START);
    RunKeepsInv(START, run);
    var s := Final(START, run);
    forall id: nat ensures Held(s, id) == if id in s.live then 1 else 0 {
      assert Owned(s, id);
    }
  }

  // ---------------------------------------------------------------- which configuration survives

  /** Configurations are published in the order they were parsed, so a larger identity is a newer document. */
  predicate PublishedInOrder(s: State) {
    var took := if s.decoder.DTook? || s.decoder.DPrepared? then s.decoder.queued
                else if s.decoder.DFailed? then Some(s.decoder.rejected) else None;
    && (s.pending.Some? ==> s.pending.value < s.next)
    && (took.Some? ==> took.value < s.next)
    && (s.watcher.WParsed? ==>
          s.watcher.parsed < s.next
          && (s.pending.Some? ==> s.pending.value < s.watcher.parsed)
          && (took.Some? ==> took.value < s.watcher.parsed))
    && (s.pending.Some? && took.Some? ==> took.value < s.pending.value)
  }

  lemma StepKeepsOrder(s: State, a: Action)
    requires PublishedInOrder(s) && Enabled(s, a)
    ensures PublishedInOrder(Step(s, a))
  {
    if a.RenderBlock? || a.Commit? || a.Close? {
      FreesLeaveSlots(s, a);
      hide Step;
    } else {
      hide Render, Install;
    }
  }

  /** What freeing and using cannot touch. */
  function Slots(s: State): (Option<nat>, nat, Watcher, Decoder) {
    (s.pending, s.next, s.watcher, s.decoder)
  }

  lemma FreeSlots(s: State, c: Option<nat>)
    ensures Slots(Free(s, c)) == Slots(s) && Slots(Use(s, c)) == Slots(s)
  {}

  lemma CommitSlots(s: State)
    requires Enabled(s, Commit)
    ensures Slots(Step(s, Commit)) == Slots(s.(decoder := DIdle))
  {
    hide Free, Use;
    var s0 := Use(s, Some(s.decoder.prepared));
    var s1 := Free(s0, s.decoder.queued);
    var s2 := Free(s1, s.current);
    FreeSlots(s, Some(s.decoder.prepared)); FreeSlots(s0, s.decoder.queued);
    FreeSlots(s1, s.current); FreeSlots(s2, s.retiring);
  }

  lemma InstallSlots(s: State, taken: Option<nat>, prepares: bool)
    ensures Slots(Install(s, taken, prepares)) == Slots(s)
  {}

  lemma RenderSlots(s: State, frames: nat)
    ensures Slots(Render(s, frames)) == Slots(s)
  {}

  lemma FreesLeaveSlots(s: State, a: Action)
    requires Enabled(s, a) && (a.RenderBlock? || a.Commit? || a.Close?)
    ensures Step(s, a).pending == (if a.Close? then None else s.pending)
    ensures Step(s, a).next == s.next && Step(s, a).watcher == s.watcher
    ensures a.Close? || Step(s, a).decoder == DIdle
    ensures a.Close? ==> Step(s, a).decoder == s.decoder
  {
    if a.Commit? {
      CommitSlots(s);
    } else if a.RenderBlock? {
      hide Use, Install, Render;
      var used := Use(s, s.decoder.taken);
      FreeSlots(s, s.decoder.taken);
      InstallSlots(used, s.decoder.taken, a.prepares);
      RenderSlots(Install(used, s.decoder.taken, a.prepares).(decoder := DIdle), a.frames);
    }
  }

  /**
   * Putting a rejected stream's configuration back keeps the newest document exactly when nothing was published
   * in the meantime; otherwise the newer one is discarded in favour of the older.
   */
  lemma PutBackKeepsNewestIff(s: State)
    requires Inv(s) && PublishedInOrder(s) && Enabled(s, PutBack)
    ensures
      var t := Step(Step(s, PutBack), FreeSuperseded);
      && t.pending == Some(s.decoder.rejected)
      && (s.pending.None? <==> t.live == s.live)
      && (s.pending.Some? ==> s.decoder.rejected < s.pending.value && t.live == s.live - {s.pending.value})
  {
    HeldIsLive(s, s.pending);
  }

  /** A run in which it is discarded: the second document arrives while the first is being tried at a bad rate. */
  lemma NewerDocumentLost()
    ensures
      var run := [Parse, Publish, FreeDisplaced, TakeForStream, Parse, Publish, CloneChain(false), PutBack,
          FreeSuperseded];
      && Possible(START, run)
      && Final(START, run).pending == Some(0)
      && Final(START, run).live == {0}
      && Final(START, run).next == 2
  {
    var s1 := Step(START, Parse);
    var s2 := Step(s1, Publish);
    var s3 := Step(s2, FreeDisplaced);
    var s4 := Step(s3, TakeForStream);
    var s5 := Step(s4, Parse);
    var s6 := Step(s5, Publish);
    LostBefore(s6);
    hide Step;
    var run := [CloneChain(false), PutBack, FreeSuperseded];
    Unroll(s5, Publish, run);
    Unroll(s4, Parse, [Publish] + run);
    Unroll(s3, TakeForStream, [Parse] + ([Publish] + run));
    Unroll(s2, FreeDisplaced, [TakeForStream] + ([Parse] + ([Publish] + run)));
    Unroll(s1, Publish, [FreeDisplaced] + ([TakeForStream] + ([Parse] + ([Publish] + run))));
    Unroll(START, Parse, [Publish] + ([FreeDisplaced] + ([TakeForStream] + ([Parse] + ([Publish] + run)))));
    assert [Parse, Publish, FreeDisplaced, TakeForStream, Parse, Publish, CloneChain(false), PutBack, FreeSuperseded]
        == [Parse] + ([Publish] + ([FreeDisplaced] + ([TakeForStream] + ([Parse] + ([Publish] + run)))));
  }

  lemma LostBefore(s: State)
    requires s == State({0, 1}, 2, false, Some(1), None, None, 0, false, true, false, WExchanged(None), DTook(Some(0)))
    ensures
      var run := [CloneChain(false), PutBack, FreeSuperseded];
      && Possible(s, run) && Final(s, run).pending == Some(0) && Final(s, run).live == {0} && Final(s, run).next == 2
  {
    var t1 := Step(s, CloneChain(false));
    var t2 := Step(t1, PutBack);
    var t3 := Step(t2, FreeSuperseded);
    hide Step;
    Unroll(t2, FreeSuperseded, []);
    Unroll(t1, PutBack, [FreeSuperseded] + []);
    Unroll(s, CloneChain(false), [PutBack] + ([FreeSuperseded] + []));
    assert [CloneChain(false), PutBack, FreeSuperseded] == [CloneChain(false)] + ([PutBack] + ([FreeSuperseded] + []));
  }

  lemma Unroll(s: State, a: Action, rest: seq<Action>)
    requires Enabled(s, a) && Possible(Step(s, a), rest)
    ensures Possible(s, [a] + rest) && Final(s, [a] + rest) == Final(Step(s, a), rest)
  {
    assert ([a] + rest)[1..] == rest;
  }
}
