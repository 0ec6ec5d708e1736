/** Whole runs: what was heard, against what was owed. */
module SchedulerHeard {
  import opened Pack
  import opened Samples
  import opened Scheduler
  import opened SchedulerRuns
  import opened SchedulerSafety
  import opened SchedulerTerms

  /** Every frame heard so far was heard on the terms of the track it was decoded for. */
  ghost predicate HeardRight(r: Run) {
    r.heard <= r.owed
  }

  /** The frames owed and not heard yet. */
  ghost function Pending(r: Run): seq<Event> {
    if |r.heard| <= |r.owed| then r.owed[|r.heard|..] else []
  }

  /** How many of these come before the first one that is owed on other terms. */
  function Agreeing(pending: seq<Event>, setup: Setup): (n: nat)
    ensures n <= |pending|
  {
    if pending == [] || !pending[0].Sound? || pending[0].setup != setup then 0 else 1 + Agreeing(pending[1..], setup)
  }

  /** How many frames of the ring a step plays. */
  ghost function Played(c: Config, r: Run, step: Step): nat
    requires Inv(c, r.st) && Allowed(c, r.st, step)
  {
    |Audible(Heard(c, r.st, step))|
  }

  /** Frames, each with the gains of the setup it comes with. */
  ghost predicate Tuned(c: Config, out: seq<Event>) {
    forall e | e in out :: e.Sound? && e.gains == PlayGains(c, e.setup)
  }

  ghost predicate Sane(c: Config, r: Run) {
    Complete(r) && Tuned(c, r.heard) && Tuned(c, r.owed)
  }

  lemma FreshIsSane(c: Config, st: State)
    requires Inv(c, st)
    ensures Sane(c, Fresh(c, st)) && HeardRight(Fresh(c, st))
  {
    hide PlayGains;
    FreshIsComplete(c, st);
    hide Complete;
  }

  lemma {:induction false} AgreeingIff(pending: seq<Event>, frames: seq<Frame>, n: nat, gains: Gains, setup: Setup)
    requires n <= |frames| && |frames| == |pending|
    requires forall i | 0 <= i < |pending| :: pending[i].Sound? && pending[i].frame == frames[i]
    requires forall i | 0 <= i < |pending| :: pending[i].setup == setup ==> pending[i].gains == gains
    ensures Sounds(frames[..n], gains, setup) <= pending <==> n <= Agreeing(pending, setup)
  {
    if n > 0 {
      var s := Sounds(frames[..n], gains, setup);
      assert s[0] == Sound(frames[0], gains, setup);
      assert s[1..] == Sounds(frames[1..][..n - 1], gains, setup);
      assert s == [s[0]] + s[1..] && pending == [pending[0]] + pending[1..];
      if pending[0].setup == setup {
        AgreeingIff(pending[1..], frames[1..], n - 1, gains, setup);
        assert s <= pending <==> s[1..] <= pending[1..];
      } else {
        assert s[0] != pending[0];
      }
    } else {
      assert frames[..0] == [];
    }
  }

  /** In a sane run the frames pending are those in the ring, in order. */
  lemma PendingFrames(c: Config, r: Run)
    requires Sane(c, r)
    ensures |r.heard| + |r.st.frames| == |r.owed| && Pending(r) == r.owed[|r.heard|..]
    ensures forall i | 0 <= i < |Pending(r)| :: Pending(r)[i].Sound? && Pending(r)[i].frame == r.st.frames[i]
    ensures forall i | 0 <= i < |Pending(r)| :: Pending(r)[i].gains == PlayGains(c, Pending(r)[i].setup)
  {
    hide PlayGains;
    FramesAt(r.heard);
    FramesAt(r.owed);
    forall i | 0 <= i < |Pending(r)|
      ensures Pending(r)[i].Sound? && Pending(r)[i].frame == r.st.frames[i]
      ensures Pending(r)[i].gains == PlayGains(c, Pending(r)[i].setup)
    {
      assert Pending(r)[i] == r.owed[|r.heard| + i];
      assert FramesOf(r.owed)[|r.heard| + i] == r.st.frames[i];
    }
  }

  lemma {:induction false} FramesAt(out: seq<Event>)
    requires AllSound(out)
    ensures |FramesOf(out)| == |out|
    ensures forall i | 0 <= i < |out| :: FramesOf(out)[i] == out[i].frame
  {
    if out != [] {
      assert out[0] in out && forall e | e in out[1..] :: e in out;
      FramesAt(out[1..]);
    }
  }

  lemma OutputHeardIff(c: Config, r: Run, avail: nat, now: nat, cb: Callback)
    requires Inv(c, r.st) && Honest(cb) && Sane(c, r)
    ensures
      var t, step := Next(c, r, Output(avail, now, cb)), Output(avail, now, cb);
      && Tuned(c, t.heard) && t.owed == r.owed
      && (HeardRight(t) <==> HeardRight(r) && Played(c, r, step) <= Agreeing(Pending(r), r.st.cur))
  {
    hide Call, Returned, Inv, Honest, Audible, PlayGains, Sounds, Complete, Distance, Agreeing;
    CallHandsOverOneTrack(c, r.st, avail, now, cb);
    PendingFrames(c, r);
    var o, n := Call(c, r.st, avail, now, cb), Returned(c, r.st, avail, now, cb);
    if Silenced(r.st, n, o) {
      AudibleSilences(n, r.st.cur);
      assert r.heard + [] == r.heard;
    } else {
      var played := Sounds(r.st.frames[..n], PlayGains(c, r.st.cur), r.st.cur);
      AudibleSounds(r.st.frames[..n], PlayGains(c, r.st.cur), r.st.cur);
      AgreeingIff(Pending(r), r.st.frames, n, PlayGains(c, r.st.cur), r.st.cur);
      SoundsTuned(c, r.st.frames[..n], r.st.cur);
      PrefixAfter(r.heard, played, r.owed);
    }
  }

  lemma SoundsTuned(c: Config, f: seq<Frame>, setup: Setup)
    ensures Tuned(c, Sounds(f, PlayGains(c, setup), setup))
  {}

  lemma PrefixAfter<T>(a: seq<T>, b: seq<T>, s: seq<T>)
    requires |a| <= |s|
    ensures a + b <= s <==> a <= s && b <= s[|a|..]
  {
    if a + b <= s {
      assert s[..|a| + |b|] == a + b;
      assert s[|a|..][..|b|] == s[..|a| + |b|][|a|..];
    }
    if a <= s && b <= s[|a|..] {
      assert s == a + s[|a|..];
    }
  }

  /** What is owed changes at its end only, behind all that was heard. */
  lemma QuietHeardIff(c: Config, r: Run, step: Step)
    requires Inv(c, r.st) && Allowed(c, r.st, step) && Sane(c, r) && !step.Output?
    ensures
      var t := Next(c, r, step);
      && t.heard == r.heard && Tuned(c, t.owed) && Played(c, r, step) == 0
      && (HeardRight(t) <==> HeardRight(r))
  {
    hide Inv, PlayGains, Complete, Sounds, Distance, Waiting, Marked;
    NothingAudible();
    assert r.heard + [] == r.heard;
    PendingFrames(c, r);
    WaitingFits(c, r.st);
    match step {
      case Decoded(f) => SoundsTuned(c, f, r.own);
      case FlushStreaming =>
      case _ =>
    }
  }

  lemma StepHeardIff(c: Config, r: Run, step: Step)
    requires Inv(c, r.st) && Allowed(c, r.st, step) && Sane(c, r)
    ensures Sane(c, Next(c, r, step))
    ensures HeardRight(Next(c, r, step)) <==> HeardRight(r) && Played(c, r, step) <= Agreeing(Pending(r), r.st.cur)
  {
    hide HeardRight, Agreeing, Played, Complete, Tuned, Next, Inv;
    StepStaysComplete(c, r, step);
    match step {
      case Output(avail, now, cb) => OutputHeardIff(c, r, avail, now, cb);
      case _ => QuietHeardIff(c, r, step);
    }
  }

  // ---------------------------------------------------------------- any run

  /** No call plays beyond the frames that are owed on the terms it plays them on. */
  ghost predicate InTime(c: Config, r: Run, steps: seq<Step>)
    requires Inv(c, r.st) && Possible(c, r, steps)
    decreases |steps|
  {
    steps != [] ==>
      Played(c, r, steps[0]) <= Agreeing(Pending(r), r.st.cur) && InTime(c, Next(c, r, steps[0]), steps[1..])
  }

  lemma {:induction false} HeardRightIff(c: Config, r: Run, steps: seq<Step>)
    requires Inv(c, r.st) && Possible(c, r, steps) && Sane(c, r)
    decreases |steps|
    ensures HeardRight(Final(c, r, steps)) <==> HeardRight(r) && InTime(c, r, steps)
  {
    hide Inv, HeardRight, Agreeing, Pending, Played, Sane, Next, Allowed;
    if steps != [] {
      StepHeardIff(c, r, steps[0]);
      HeardRightIff(c, Next(c, r, steps[0]), steps[1..]);
    }
  }

  lemma {:induction false} AlwaysRightAtLast(c: Config, r: Run, steps: seq<Step>)
    requires Inv(c, r.st) && Possible(c, r, steps) && AlwaysRight(c, r, steps)
    decreases |steps|
    ensures Right(c, Final(c, r, steps))
  {
    hide Inv, Right, Next, Allowed;
    if steps != [] {
      AlwaysRightAtLast(c, Next(c, r, steps[0]), steps[1..]);
    }
  }

  /**
   * Whole runs, from any state of the output: every frame that is not dropped is heard once and in order; all was heard
   * on its own terms exactly when every call was in time; and a calm run, which keeps even the frames still buffered
   * on their terms, is in time.
   */
  lemma WholeRun(c: Config, st: State, steps: seq<Step>)
    requires Inv(c, st) && Possible(c, Fresh(c, st), steps)
    ensures
      var r := Fresh(c, st);
      && Complete(Final(c, r, steps))
      && (HeardRight(Final(c, r, steps)) <==> InTime(c, r, steps))
      && (AlwaysRight(c, r, steps) <==> Calm(c, r, steps))
      && (Calm(c, r, steps) ==> InTime(c, r, steps))
  {
    hide Fresh, Inv, Complete, Tied, Possible, Calm, AlwaysRight, InTime, Due, Newest;
    FreshIsRight(c, st);
    FreshIsSane(c, st);
    var r := Fresh(c, st);
    assert r.st == st by { FreshState(c, st); }
    EveryFrameOnce(c, r, steps);
    HeardRightIff(c, r, steps);
    OwnTermsIffCalm(c, r, steps);
    if AlwaysRight(c, r, steps) {
      AlwaysRightAtLast(c, r, steps);
    }
  }

  lemma FreshState(c: Config, st: State)
    requires Inv(c, st)
    ensures Fresh(c, st).st == st
  {}

  /** Calm asks for more: a gain set and set back while frames wait is not calm, and nothing is changed by it. */
  lemma GainRestored(c: Config, r: Run, g: S32)
    requires Inv(c, r.st) && Behind(c, r.st) && g != r.st.next.replayGain
    ensures
      var t := Next(c, r, StreamStart(g));
      && Inv(c, t.st)
      && !Undisturbed(c, r, StreamStart(g))
      && Next(c, t, StreamStart(r.st.next.replayGain)) == r
  {
    NothingAudible();
  }
}
