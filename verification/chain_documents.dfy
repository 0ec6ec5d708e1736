/** Which configuration document is heard, over every interleaving of the watcher and the decode thread. */
module ChainDocuments {
  import opened ChainSwap
  import opened Options

  /** docs[id] is the document chain id was made from; a clone is made from its source's. */
  function DocumentsAfter(s: State, docs: seq<nat>, a: Action): seq<nat> {
    match a
    case Parse => docs + [s.next]
    case CloneChain(prepares) =>
      if !prepares || !s.decoder.DTook? then docs
      else if s.decoder.queued.Some? then docs + [s.decoder.queued.value]
      else if s.current.Some? && s.current.value < |docs| then docs + [docs[s.current.value]]
      else docs
    case _ => docs
  }

  /** The document of the current chain. */
  function Playing(s: State, docs: seq<nat>): Option<nat> {
    if s.current.Some? && s.current.value < |docs| then Some(docs[s.current.value]) else None
  }

  /** The document a step begins to play: one taken by a block that prepares it, or by a stream that starts. */
  function Begun(s: State, a: Action): Option<nat> {
    if a.RenderBlock? && a.prepares && s.decoder.DBlock? then s.decoder.taken
    else if a.Commit? && s.decoder.DPrepared? then s.decoder.queued
    else None
  }

  /** The document the decode thread has taken from the slot. */
  function Taken(d: Decoder): Option<nat> {
    match d
    case DTook(queued) => queued
    case DPrepared(queued, _) => queued
    case DFailed(rejected) => Some(rejected)
    case DBlock(taken) => taken
    case _ => None
  }

  /** A chain on its way to be played is of its own document, and that is newer than the one playing. */
  predicate Newer(c: Option<nat>, playing: Option<nat>, docs: seq<nat>) {
    c.Some? ==> c.value < |docs| && docs[c.value] == c.value && (playing.Some? ==> playing.value < c.value)
  }

  predicate Kept(s: State, docs: seq<nat>) {
    var parsed := if s.watcher.WParsed? then Some(s.watcher.parsed) else None;
    && |docs| == s.next
    && (s.retiring.Some? ==> s.ramp < RAMP_FRAMES)
    && (s.current.Some? ==> s.current.value < s.next && docs[s.current.value] < s.next)
    && Newer(s.pending, Playing(s, docs), docs)
    && Newer(parsed, Playing(s, docs), docs)
    && Newer(Taken(s.decoder), Playing(s, docs), docs)
    && (s.pending.Some? && Taken(s.decoder).Some? ==> Taken(s.decoder).value < s.pending.value)
    && (parsed.Some? && Taken(s.decoder).Some? ==> Taken(s.decoder).value < parsed.value)
    && (parsed.Some? && s.pending.Some? ==> s.pending.value < parsed.value)
    && (s.decoder.DPrepared? ==>
          s.decoder.prepared < s.next
          && Some(docs[s.decoder.prepared])
             == if s.decoder.queued.Some? then s.decoder.queued else Playing(s, docs))
  }

  /** Everything but what is allocated. */
  function Rest(s: State): State {
    s.(live := {}, fault := false)
  }

  lemma FreeingLeavesRest(s: State, c: Option<nat>)
    ensures Rest(Free(s, c)) == Rest(s) && Rest(Use(s, c)) == Rest(s)
  {}

  lemma CommitRest(s: State)
    requires Enabled(s, Commit)
    ensures Rest(Step(s, Commit)) == Rest(s).(
      current := Some(s.decoder.prepared), retiring := None, ramp := RAMP_FRAMES, active := true, decoder := DIdle)
  {
    hide Free, Use;
    var s0 := Use(s, Some(s.decoder.prepared));
    var s1 := Free(s0, s.decoder.queued);
    var s2 := Free(s1, s.current);
    FreeingLeavesRest(s, Some(s.decoder.prepared)); FreeingLeavesRest(s0, s.decoder.queued);
    FreeingLeavesRest(s1, s.current); FreeingLeavesRest(s2, s.retiring);
  }

  /** How far the ramp gets in a block. */
  function Faded(ramp: nat, frames: nat): nat {
    if ramp + frames < RAMP_FRAMES then ramp + frames else RAMP_FRAMES
  }

  lemma InstallRest(s: State, taken: Option<nat>, prepares: bool)
    ensures Rest(Install(s, taken, prepares)) ==
      if prepares && taken.Some? then Rest(s).(retiring := s.current, current := taken, ramp := 0) else Rest(s)
  {
    hide Free;
    FreeingLeavesRest(s, taken);
    FreeingLeavesRest(s, s.retiring);
  }

  lemma RenderRest(s: State, frames: nat)
    requires s.retiring.Some? ==> s.ramp < RAMP_FRAMES
    ensures Rest(Render(s, frames)) ==
      if s.retiring.None? then Rest(s)
      else if Faded(s.ramp, frames) < RAMP_FRAMES then Rest(s).(ramp := Faded(s.ramp, frames))
      else Rest(s).(ramp := RAMP_FRAMES, retiring := None)
  {
    hide Free, Use;
    var used := Use(Use(s, s.current), s.retiring);
    FreeingLeavesRest(s, s.current);
    FreeingLeavesRest(Use(s, s.current), s.retiring);
    FreeingLeavesRest(used.(ramp := RAMP_FRAMES), s.retiring);
  }

  /** A block plays the chain it took, if it could prepare it, and fades out the one before for 256 frames. */
  lemma BlockRest(s: State, prepares: bool, frames: nat)
    requires Enabled(s, RenderBlock(prepares, frames)) && (s.retiring.Some? ==> s.ramp < RAMP_FRAMES)
    ensures
      var t := Step(s, RenderBlock(prepares, frames));
      var swaps := prepares && s.decoder.taken.Some?;
      var ramp := if swaps then 0 else s.ramp;
      var fading := if swaps then s.current else s.retiring;
      && t.current == (if swaps then s.decoder.taken else s.current)
      && t.retiring == (if fading.Some? && Faded(ramp, frames) < RAMP_FRAMES then fading else None)
      && t.ramp == (if fading.Some? then Faded(ramp, frames) else ramp)
      && Rest(t) == Rest(s).(decoder := DIdle, current := t.current, retiring := t.retiring, ramp := t.ramp)
  {
    hide Use, Install, Render;
    var used := Use(s, s.decoder.taken);
    FreeingLeavesRest(s, s.decoder.taken);
    InstallRest(used, s.decoder.taken, prepares);
    RenderRest(Install(used, s.decoder.taken, prepares).(decoder := DIdle), frames);
  }

  lemma CloseRest(s: State)
    requires Enabled(s, Close)
    ensures Rest(Step(s, Close)) == Rest(s).(
      pending := None, current := None, retiring := None, active := false, configured := false, closed := true)
  {
    hide Free;
    FreeingLeavesRest(s, s.pending);
    FreeingLeavesRest(Free(s, s.pending), s.current);
    FreeingLeavesRest(Free(Free(s, s.pending), s.current), s.retiring);
  }

  // ---------------------------------------------------------------- one step

  lemma ParseKeeps(s: State, docs: seq<nat>)
    requires Kept(s, docs) && Enabled(s, Parse)
    ensures Kept(Step(s, Parse), DocumentsAfter(s, docs, Parse))
    ensures Playing(Step(s, Parse), DocumentsAfter(s, docs, Parse)) == Playing(s, docs)
  {}

  lemma CloneRest(s: State, prepares: bool)
    requires Enabled(s, CloneChain(prepares))
    ensures Rest(Step(s, CloneChain(prepares))) ==
      var queued := s.decoder.queued;
      if prepares then Rest(s).(next := s.next + 1, decoder := DPrepared(queued, s.next))
      else Rest(s).(decoder := if queued.Some? then DFailed(queued.value) else DIdle)
  {
    hide Use;
    FreeingLeavesRest(s, if s.decoder.queued.Some? then s.decoder.queued else s.current);
  }

  lemma CloneKeeps(s: State, docs: seq<nat>, prepares: bool)
    requires Kept(s, docs) && Enabled(s, CloneChain(prepares)) && (s.decoder.queued.Some? || s.current.Some?)
    ensures
      var a := CloneChain(prepares);
      && Kept(Step(s, a), DocumentsAfter(s, docs, a))
      && Playing(Step(s, a), DocumentsAfter(s, docs, a)) == Playing(s, docs)
  {
    CloneRest(s, prepares);
    hide Step;
    if prepares {
      var more := DocumentsAfter(s, docs, CloneChain(true));
      assert more[..|docs|] == docs;
    }
  }

  lemma CommitKeeps(s: State, docs: seq<nat>)
    requires Kept(s, docs) && Enabled(s, Commit)
    ensures Kept(Step(s, Commit), docs)
    ensures
      Playing(Step(s, Commit), docs) == if s.decoder.queued.Some? then s.decoder.queued else Playing(s, docs)
  {
    CommitRest(s);
    hide Step;
  }

  lemma BlockKeeps(s: State, docs: seq<nat>, prepares: bool, frames: nat)
    requires Kept(s, docs) && Enabled(s, RenderBlock(prepares, frames))
    ensures
      var t := Step(s, RenderBlock(prepares, frames));
      && Kept(t, docs)
      && Playing(t, docs) == if prepares && s.decoder.taken.Some? then s.decoder.taken else Playing(s, docs)
  {
    BlockRest(s, prepares, frames);
    hide Step, Faded;
  }

  lemma FreeingRest(s: State, a: Action)
    requires Enabled(s, a) && (a.FreeDisplaced? || a.FreeSuperseded? || a.FlushStream?)
    ensures Rest(Step(s, a)) ==
      if a.FreeDisplaced? then Rest(s).(configured := true, watcher := WIdle)
      else if a.FreeSuperseded? then Rest(s).(decoder := DIdle)
      else Rest(s).(active := false)
  {
    hide Free, Use;
    match a {
      case FreeDisplaced => FreeingLeavesRest(s, s.watcher.displaced);
      case FreeSuperseded => FreeingLeavesRest(s, s.decoder.superseded);
      case FlushStream => FreeingLeavesRest(s, s.current); FreeingLeavesRest(Use(s, s.current), s.retiring);
      case _ =>
    }
  }

  lemma FreeingKeeps(s: State, docs: seq<nat>, a: Action)
    requires Kept(s, docs) && Enabled(s, a) && (a.FreeDisplaced? || a.FreeSuperseded? || a.FlushStream?)
    ensures Kept(Step(s, a), docs) && Playing(Step(s, a), docs) == Playing(s, docs)
  {
    FreeingRest(s, a);
    hide Step;
  }

  lemma PublishKeeps(s: State, docs: seq<nat>)
    requires Kept(s, docs) && Enabled(s, Publish)
    ensures Kept(Step(s, Publish), docs) && Playing(Step(s, Publish), docs) == Playing(s, docs)
  {}

  lemma TakeKeeps(s: State, docs: seq<nat>, a: Action)
    requires Kept(s, docs) && Enabled(s, a) && (a.TakeForStream? || a.TakeForBlock?)
    ensures Kept(Step(s, a), docs) && Playing(Step(s, a), docs) == Playing(s, docs)
  {}

  lemma PutBackKeeps(s: State, docs: seq<nat>)
    requires Kept(s, docs) && Enabled(s, PutBack)
    ensures Kept(Step(s, PutBack), docs) && Playing(Step(s, PutBack), docs) == Playing(s, docs)
  {}

  lemma CloseKeeps(s: State, docs: seq<nat>)
    requires Kept(s, docs) && Enabled(s, Close)
    ensures Kept(Step(s, Close), docs) && Playing(Step(s, Close), docs) == None
  {
    CloseRest(s);
    hide Step;
  }

  /** A step begins to play the document it is the time for, newer than the one before, or leaves the one playing. */
  lemma StepPlays(s: State, docs: seq<nat>, a: Action)
    requires Inv(s) && Kept(s, docs) && Enabled(s, a)
    ensures
      var t, more := Step(s, a), DocumentsAfter(s, docs, a);
      && Kept(t, more)
      && Playing(t, more) == (if a.Close? then None else if Begun(s, a).Some? then Begun(s, a) else Playing(s, docs))
    ensures Begun(s, a).Some? && Playing(s, docs).Some? ==> Playing(s, docs).value < Begun(s, a).value
  {
    BegunIs(s, docs, a);
    if a.CloneChain? {
      SourceExists(s);
    }
    hide Step, Kept, Inv, Playing, Begun, DocumentsAfter;
    match a {
      case Parse => ParseKeeps(s, docs);
      case CloneChain(prepares) => CloneKeeps(s, docs, prepares);
      case Commit => CommitKeeps(s, docs);
      case RenderBlock(prepares, frames) => BlockKeeps(s, docs, prepares, frames);
      case Publish => PublishKeeps(s, docs);
      case TakeForStream => TakeKeeps(s, docs, a);
      case TakeForBlock => TakeKeeps(s, docs, a);
      case PutBack => PutBackKeeps(s, docs);
      case Close => CloseKeeps(s, docs);
      case _ => FreeingKeeps(s, docs, a);
    }
  }

  lemma BegunIs(s: State, docs: seq<nat>, a: Action)
    requires Kept(s, docs) && Enabled(s, a)
    ensures a.Commit? ==> Begun(s, a) == s.decoder.queued
    ensures a.RenderBlock? ==> Begun(s, a) == if a.prepares then s.decoder.taken else None
    ensures !a.Commit? && !a.RenderBlock? ==> Begun(s, a) == None
    ensures !a.Parse? && !a.CloneChain? ==> DocumentsAfter(s, docs, a) == docs
    ensures Begun(s, a).Some? && Playing(s, docs).Some? ==> Playing(s, docs).value < Begun(s, a).value
  {}

  lemma SourceExists(s: State)
    requires Inv(s) && s.decoder.DTook?
    ensures s.decoder.queued.Some? || s.current.Some?
  {}

  // ---------------------------------------------------------------- whole runs

  function Documents(s: State, docs: seq<nat>, run: seq<Action>): seq<nat>
    requires Possible(s, run)
    decreases run
  {
    if run == [] then docs else Documents(Step(s, run[0]), DocumentsAfter(s, docs, run[0]), run[1..])
  }

  /** The documents a run begins to play, in order. */
  function AllBegun(s: State, run: seq<Action>): seq<nat>
    requires Possible(s, run)
    decreases run
  {
    if run == [] then []
    else (if Begun(s, run[0]).Some? then [Begun(s, run[0]).value] else []) + AllBegun(Step(s, run[0]), run[1..])
  }

  predicate Ascending(s: seq<nat>) {
    forall i, j | 0 <= i < j < |s| :: s[i] < s[j]
  }

  /**
   * In every interleaving the documents that begin to be played get newer and newer, none comes twice, and until
   * shutdown the one playing is the one begun last.
   */
  lemma {:induction false} NewestIsHeard(s: State, docs: seq<nat>, run: seq<Action>)
    requires Inv(s) && Kept(s, docs) && Possible(s, run)
    decreases run
    ensures
      var begun, t := AllBegun(s, run), Final(s, run);
      && Kept(t, Documents(s, docs, run))
      && Ascending(begun)
      && (Playing(s, docs).Some? && begun != [] ==> Playing(s, docs).value < begun[0])
      && (!t.closed ==>
            Playing(t, Documents(s, docs, run)) == if begun == [] then Playing(s, docs) else Some(begun[|begun| - 1]))
  {
    hide Step, Enabled, Inv, Kept, Playing, Begun, DocumentsAfter;
    if run != [] {
      var a := run[0];
      var t, more := Step(s, a), DocumentsAfter(s, docs, a);
      StepKeepsInv(s, a);
      StepPlays(s, docs, a);
      NewestIsHeard(t, more, run[1..]);
      AfterClosing(s, a, run[1..]);
      if Begun(s, a).Some? {
        AscendingFrom(Begun(s, a).value, AllBegun(t, run[1..]));
      }
    }
  }

  lemma AscendingFrom(first: nat, rest: seq<nat>)
    requires Ascending(rest) && (rest != [] ==> first < rest[0])
    ensures Ascending([first] + rest)
  {}

  lemma AfterClosing(s: State, a: Action, rest: seq<Action>)
    requires Enabled(s, a) && Possible(Step(s, a), rest)
    ensures a.Close? ==> rest == [] && Step(s, a).closed && Begun(s, a) == None
  {
    hide Free;
  }

  lemma FromTheStart(run: seq<Action>)
    requires Possible(START, run)
    ensures
      var begun, t := AllBegun(START, run), Final(START, run);
      Ascending(begun)
      && (!t.closed ==>
            Playing(t, Documents(START, [], run)) == if begun == [] then None else Some(begun[|begun| - 1]))
  {
    assert Inv(START) && Kept(START, []) && Playing(START, []) == None;
    NewestIsHeard(START, [], run);
  }

  // ---------------------------------------------------------------- from the slot to the ear

  predicate ByWatcher(a: Action) {
    a.Parse? || a.Publish? || a.FreeDisplaced?
  }

  lemma {:induction false} WatcherLeavesDecoder(s: State, run: seq<Action>)
    requires Possible(s, run) && forall a | a in run :: ByWatcher(a)
    decreases run
    ensures
      var t := Final(s, run);
      t.decoder == s.decoder && t.current == s.current && t.retiring == s.retiring && t.ramp == s.ramp
      && t.active == s.active && t.closed == s.closed
  {
    if run != [] {
      assert ByWatcher(run[0]);
      WatcherStep(s, run[0]);
      hide Step, Enabled;
      WatcherLeavesDecoder(Step(s, run[0]), run[1..]);
    }
  }

  lemma WatcherStep(s: State, a: Action)
    requires Enabled(s, a) && ByWatcher(a)
    ensures
      var t := Step(s, a);
      t.decoder == s.decoder && t.current == s.current && t.retiring == s.retiring && t.ramp == s.ramp
      && t.active == s.active && t.closed == s.closed
  {}

  /**
   * A block of an active stream that finds chain n in the slot, whatever the watcher does meanwhile: if n can be
   * prepared it is current, and the chain before it retires until 256 frames have been mixed and is then freed; if
   * not, n is freed and the one before goes on. A block that finds nothing changes nothing but the ramp.
   */
  lemma BlockPlays(s: State, meanwhile: seq<Action>, prepares: bool, frames: nat)
    requires Inv(s) && Enabled(s, TakeForBlock) && Possible(Step(s, TakeForBlock), meanwhile)
    requires (forall a | a in meanwhile :: ByWatcher(a)) && (s.retiring.Some? ==> s.ramp < RAMP_FRAMES)
    ensures
      var before := Final(Step(s, TakeForBlock), meanwhile);
      && Enabled(before, RenderBlock(prepares, frames))
      && var t := Step(before, RenderBlock(prepares, frames));
         && (prepares && s.pending.Some? ==>
               && t.current == s.pending
               && t.retiring == (if frames < 256 then s.current else None)
               && t.live == before.live - Chain(s.retiring) - (if frames < 256 then {} else Chain(s.current)))
         && (!prepares && s.pending.Some? ==> t.current == s.current && s.pending.value !in t.live)
         && (s.pending.None? ==> t.current == s.current)
         && (s.pending.None? || !prepares ==>
               && t.retiring == (if s.ramp + frames < RAMP_FRAMES then s.retiring else None)
               && t.live == before.live - Chain(s.pending)
                            - (if s.ramp + frames < RAMP_FRAMES then {} else Chain(s.retiring)))
  {
    var u := Step(s, TakeForBlock);
    StepKeepsInv(s, TakeForBlock);
    RunKeepsInv(u, meanwhile);
    WatcherLeavesDecoder(u, meanwhile);
    var before := Final(u, meanwhile);
    assert Enabled(before, RenderBlock(prepares, frames));
    BlockRest(before, prepares, frames);
    BlockFrees(before, prepares, frames);
    hide Inv, Step, Final, Possible;
  }

  function Chain(c: Option<nat>): set<nat> {
    if c.Some? then {c.value} else {}
  }

  /** Freeing leaves the other chains alone, whether or not the fault flag goes up. */
  lemma FreeLive(s: State, c: Option<nat>)
    ensures Free(s, c).live == s.live - Chain(c) && Use(s, c).live == s.live
  {}

  lemma BlockFrees(s: State, prepares: bool, frames: nat)
    requires Enabled(s, RenderBlock(prepares, frames)) && (s.retiring.Some? ==> s.ramp < RAMP_FRAMES)
    ensures
      var t, taken := Step(s, RenderBlock(prepares, frames)), s.decoder.taken;
      && (prepares && taken.Some? ==>
            t.live == s.live - Chain(s.retiring) - (if frames < RAMP_FRAMES then {} else Chain(s.current)))
      && (!prepares || taken.None? ==>
            t.live == s.live - Chain(taken) - (if s.ramp + frames < RAMP_FRAMES then {} else Chain(s.retiring)))
  {
    hide Free, Use, Render, Install;
    var taken := s.decoder.taken;
    var used := Use(s, taken);
    FreeLive(s, taken);
    FreeingLeavesRest(s, taken);
    InstallLive(used, taken, prepares);
    InstallRest(used, taken, prepares);
    RenderLive(Install(used, taken, prepares).(decoder := DIdle), frames);
  }

  lemma InstallLive(s: State, taken: Option<nat>, prepares: bool)
    ensures Install(s, taken, prepares).live ==
      if taken.None? then s.live else if prepares then s.live - Chain(s.retiring) else s.live - Chain(taken)
  {
    hide Free;
    FreeLive(s, taken);
    FreeLive(s, s.retiring);
  }

  lemma RenderLive(s: State, frames: nat)
    requires s.retiring.Some? ==> s.ramp < RAMP_FRAMES
    ensures Render(s, frames).live == s.live - (if s.ramp + frames < RAMP_FRAMES then {} else Chain(s.retiring))
  {
    hide Free, Use;
    var used := Use(Use(s, s.current), s.retiring);
    FreeLive(s, s.current);
    FreeLive(Use(s, s.current), s.retiring);
    FreeLive(used.(ramp := RAMP_FRAMES), s.retiring);
    FreeingLeavesRest(s, s.current);
    FreeingLeavesRest(Use(s, s.current), s.retiring);
  }

  /** A stream start takes what is in the slot, unless there is no chain at all. */
  lemma TakesForStream(s: State)
    requires Enabled(s, TakeForStream)
    ensures
      Step(s, TakeForStream)
      == if s.pending.Some? || s.current.Some? then s.(pending := None, decoder := DTook(s.pending)) else s
  {}

  /**
   * A stream that starts, whatever the watcher does meanwhile: with a chain that can be prepared it is active, on a
   * new chain made from the one in the slot, or else from the current one, and all older ones are freed; otherwise
   * the current chain stays.
   */
  lemma StreamPlays(s: State, meanwhile: seq<Action>, later: seq<Action>, prepares: bool)
    requires Enabled(s, TakeForStream) && (s.pending.Some? || s.current.Some?)
    requires Possible(Step(s, TakeForStream), meanwhile) && forall a | a in meanwhile :: ByWatcher(a)
    ensures
      var cloning := Final(Step(s, TakeForStream), meanwhile);
      && Enabled(cloning, CloneChain(prepares))
      && var made := Step(cloning, CloneChain(prepares));
         Possible(made, later) && (forall a | a in later :: ByWatcher(a)) ==>
           var t := Final(made, later);
           && (prepares ==>
                 && t.decoder == DPrepared(s.pending, cloning.next) && Enabled(t, Commit)
                 && var u := Step(t, Commit);
                    u.active && u.current == Some(cloning.next) && u.retiring == None
                    && u.live == t.live - Chain(s.pending) - Chain(s.current) - Chain(s.retiring))
           && (!prepares ==>
                 t.current == s.current && t.active == s.active
                 && t.decoder == if s.pending.Some? then DFailed(s.pending.value) else DIdle)
  {
    var u := Step(s, TakeForStream);
    TakesForStream(s);
    WatcherLeavesDecoder(u, meanwhile);
    var cloning := Final(u, meanwhile);
    assert Enabled(cloning, CloneChain(prepares));
    var made := Step(cloning, CloneChain(prepares));
    CloneIs(cloning, prepares);
    if Possible(made, later) && forall a | a in later :: ByWatcher(a) {
      WatcherLeavesDecoder(made, later);
      var t := Final(made, later);
      if prepares {
        CommitRest(t);
        CommitFrees(t);
      }
    }
    hide Final, Possible;
  }

  lemma CloneIs(s: State, prepares: bool)
    requires Enabled(s, CloneChain(prepares))
    ensures
      var t, queued := Step(s, CloneChain(prepares)), s.decoder.queued;
      && t.decoder == (if prepares then DPrepared(queued, s.next)
                       else if queued.Some? then DFailed(queued.value) else DIdle)
      && t.current == s.current && t.retiring == s.retiring && t.active == s.active && t.closed == s.closed
  {}

  lemma CommitFrees(s: State)
    requires Enabled(s, Commit)
    ensures Step(s, Commit).live == s.live - Chain(s.decoder.queued) - Chain(s.current) - Chain(s.retiring)
  {
    hide Free, Use;
    var s0 := Use(s, Some(s.decoder.prepared));
    var s1 := Free(s0, s.decoder.queued);
    var s2 := Free(s1, s.current);
    FreeLive(s, Some(s.decoder.prepared)); FreeLive(s0, s.decoder.queued);
    FreeLive(s1, s.current); FreeLive(s2, s.retiring);
    FreeingLeavesRest(s, Some(s.decoder.prepared)); FreeingLeavesRest(s0, s.decoder.queued);
    FreeingLeavesRest(s1, s.current);
  }
}
