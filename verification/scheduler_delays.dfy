/** Whole runs: when a change of track gets both halves of its delay. */
module SchedulerDelays {
  import opened Scheduler
  import opened SchedulerRuns
  import opened SchedulerSafety
  import opened SchedulerTimeline

  /** Between the two halves of a delay, and only there, the flag is up. */
  ghost predicate Halfway(c: Config, st: State) {
    st.delayActive ==> AtTrackStart(st) && Delay(c, st) > 0
  }

  /** What leaves it so: between the halves no command 'f', and a new mark only in the place of the old one. */
  ghost predicate LeavesDelay(c: Config, st: State, step: Step) {
    st.delayActive ==>
      match step
      case FlushStreaming => false
      case NewTrack(rate, format) => st.frames == [] && Delay(c, st.(next := Setup(rate, format, 0))) > 0
      case _ => true
  }

  lemma {:induction false} SilentHalfway(
    c: Config, st: State, size: nat, gains: Gains, now: nat, cb: Callback, k: nat
  )
    requires Inv(c, st) && Honest(cb) && Halfway(c, st)
    ensures Halfway(c, Written(c, st, size, true, gains, now, cb, k).st)
  {
    hide *;
    SilentCall(c, st, size, gains, now, cb, k);
  }

  lemma {:induction false} SoundingHalfway(
    c: Config, st: State, size: nat, gains: Gains, now: nat, cb: Callback, k: nat
  )
    requires Inv(c, st) && Honest(cb) && Halfway(c, st) && size <= |st.frames|
    decreases size
    ensures Halfway(c, Written(c, st, size, false, gains, now, cb, k).st)
  {
    hide *;
    if size == 0 {
      NothingToWrite(c, st, false, gains, now, cb, k);
    } else if AtTrackStart(st) {
      AtStart(c, st, size, gains, now, cb, k);
      StartHalfway(c, st, now);
    } else if (OfferedFits(c, st, size); cb(k, Offered(c, st, size, false)) <= 0) {
      Refused(c, st, size, false, gains, now, cb, k);
    } else {
      var wrote := SoundWritten(c, st, size, gains, now, cb, k);
      ConsumedFrames(c, st, wrote);
      ConsumedHalfway(c, st, wrote);
      SoundingHalfway(c, Consumed(c, st, wrote), size - wrote, LoopGains(st, gains), now, cb, k + 1);
    }
  }

  lemma StartHalfway(c: Config, st: State, now: nat)
    requires Halfway(c, st) && AtTrackStart(st)
    ensures Halfway(c, StartTrack(c, st, now))
  {}

  lemma ConsumedHalfway(c: Config, st: State, n: nat)
    requires Halfway(c, st) && !AtTrackStart(st) && n <= |st.frames|
    ensures Halfway(c, Consumed(c, st, n))
  {}

  lemma OutputHalfway(c: Config, st: State, avail: nat, now: nat, cb: Callback)
    requires Inv(c, st) && Honest(cb) && Halfway(c, st)
    ensures Halfway(c, Call(c, st, avail, now, cb).st)
  {
    hide Chosen, Written, Call, Inv, Honest;
    CallIs(c, st, avail, now, cb);
    ChosenIsSound(c, st, avail, now);
    var ch, gains := Chosen(c, st, avail, now), CallGains(c, st.cur.replayGain);
    hide Delay, CallGains;
    SameDelay(c, st, ch.st);
    if ch.silence {
      SilentHalfway(c, ch.st, ch.size, gains, now, cb, 0);
    } else {
      SoundingHalfway(c, ch.st, ch.size, gains, now, cb, 0);
    }
  }

  lemma SameDelay(c: Config, st: State, s: State)
    requires s.cur == st.cur && s.next == st.next
    ensures Delay(c, s) == Delay(c, st)
  {}

  /** One step. */
  lemma StaysHalfwayIff(c: Config, st: State, step: Step)
    requires Inv(c, st) && Allowed(c, st, step) && Halfway(c, st)
    ensures Halfway(c, After(c, st, step)) <==> LeavesDelay(c, st, step)
  {
    hide Call;
    match step {
      case Output(avail, now, cb) => OutputHalfway(c, st, avail, now, cb);
      case _ =>
    }
  }

  ghost predicate Possible(c: Config, st: State, steps: seq<Step>)
    requires Inv(c, st)
    decreases |steps|
  {
    steps != [] ==>
      Allowed(c, st, steps[0]) && (StepKeepsInv(c, st, steps[0]); Possible(c, After(c, st, steps[0]), steps[1..]))
  }

  ghost predicate AlwaysHalfway(c: Config, st: State, steps: seq<Step>)
    requires Inv(c, st) && Possible(c, st, steps)
    decreases |steps|
  {
    Halfway(c, st)
    && (steps != [] ==> (StepKeepsInv(c, st, steps[0]); AlwaysHalfway(c, After(c, st, steps[0]), steps[1..])))
  }

  ghost predicate DelaysLeft(c: Config, st: State, steps: seq<Step>)
    requires Inv(c, st) && Possible(c, st, steps)
    decreases |steps|
  {
    steps != [] ==>
      LeavesDelay(c, st, steps[0])
      && (StepKeepsInv(c, st, steps[0]); DelaysLeft(c, After(c, st, steps[0]), steps[1..]))
  }

  /** Over any run: the flag is up between the halves of a delay only, if and only if no step falls between them. */
  lemma {:induction false} AlwaysHalfwayIff(c: Config, st: State, steps: seq<Step>)
    requires Inv(c, st) && Possible(c, st, steps) && Halfway(c, st)
    decreases |steps|
    ensures AlwaysHalfway(c, st, steps) <==> DelaysLeft(c, st, steps)
  {
    hide Inv, Halfway, LeavesDelay, Allowed, After;
    if steps != [] {
      StepKeepsInv(c, st, steps[0]);
      StaysHalfwayIff(c, st, steps[0]);
      if Halfway(c, After(c, st, steps[0])) {
        AlwaysHalfwayIff(c, After(c, st, steps[0]), steps[1..]);
      } else {
        NotHalfway(c, After(c, st, steps[0]), steps[1..]);
      }
    }
  }

  lemma NotHalfway(c: Config, st: State, steps: seq<Step>)
    requires Inv(c, st) && Possible(c, st, steps) && !Halfway(c, st)
    ensures !AlwaysHalfway(c, st, steps)
  {}

  /** And then a track whose mark is still to be reached gets all of its delay. */
  lemma WholeDelay(c: Config, st: State)
    requires Halfway(c, st) && st.track.TrackAt? && !AtTrackStart(st) && Delay(c, st) > 0
    ensures
      Change(c, st) == Silences(HalfDelay(st.cur.rate, Delay(c, st)), st.cur)
        + [TrackStart(st.next)] + Silences(HalfDelay(st.next.rate, Delay(c, st)), st.next)
  {}

  /**
   * The next track after a command 'f': the silence at the old rate is in its change of track if and only if the
   * command did not fall between the halves of a delay.
   */
  lemma FlushedDelayIff(c: Config, st: State, rate: nat, format: OutFormat)
    requires Inv(c, st)
    ensures Inv(c, After(c, st, FlushStreaming))
    ensures
      var s := After(c, After(c, st, FlushStreaming), NewTrack(rate, format));
      var d := Delay(c, s);
      && s.cur == st.cur
      && (HalfDelay(st.cur.rate, d) > 0 && d > 0 ==>
            (Change(c, s) == Silences(HalfDelay(s.cur.rate, d), s.cur)
               + [TrackStart(s.next)] + Silences(HalfDelay(s.next.rate, d), s.next)
             <==> !st.delayActive))
  {
    StepKeepsInv(c, st, FlushStreaming);
    hide Inv;
    var s := After(c, After(c, st, FlushStreaming), NewTrack(rate, format));
    hide HalfDelay;
    var d := Delay(c, s);
    if st.delayActive && d > 0 {
      assert Change(c, s) == [TrackStart(s.next)] + Silences(HalfDelay(s.next.rate, d), s.next);
    }
  }

  // ---------------------------------------------------------------- the flag left up

  /** No mark, or one that needs no delay. */
  ghost predicate Plain(c: Config, st: State) {
    st.track.TrackAt? ==> Delay(c, st) == 0
  }

  lemma {:induction false} SoundingFlag(
    c: Config, st: State, size: nat, gains: Gains, now: nat, cb: Callback, k: nat
  )
    requires Inv(c, st) && Honest(cb) && Plain(c, st) && size <= |st.frames|
    decreases size
    ensures Written(c, st, size, false, gains, now, cb, k).st.delayActive == st.delayActive
  {
    hide *;
    if size == 0 {
      NothingToWrite(c, st, false, gains, now, cb, k);
    } else if AtTrackStart(st) {
      AtStart(c, st, size, gains, now, cb, k);
      PlainStart(c, st, now);
    } else if (OfferedFits(c, st, size); cb(k, Offered(c, st, size, false)) <= 0) {
      Refused(c, st, size, false, gains, now, cb, k);
    } else {
      var wrote := SoundWritten(c, st, size, gains, now, cb, k);
      ConsumedPlain(c, st, wrote);
      SoundingFlag(c, Consumed(c, st, wrote), size - wrote, LoopGains(st, gains), now, cb, k + 1);
    }
  }

  lemma PlainStart(c: Config, st: State, now: nat)
    requires Plain(c, st) && AtTrackStart(st)
    ensures StartTrack(c, st, now).delayActive == st.delayActive
  {}

  lemma ConsumedPlain(c: Config, st: State, n: nat)
    requires Plain(c, st) && n <= |st.frames|
    ensures Plain(c, Consumed(c, st, n)) && Consumed(c, st, n).delayActive == st.delayActive
    ensures Consumed(c, st, n).frames == st.frames[n..]
  {}

  /** Tracks that start without a delay leave the flag as they find it. */
  lemma FlagStays(c: Config, st: State, step: Step)
    requires Inv(c, st) && Allowed(c, st, step) && Plain(c, st)
    ensures After(c, st, step).delayActive == st.delayActive
  {
    hide Call, Chosen, Written, Inv, Honest, CallGains, Delay;
    match step {
      case Output(avail, now, cb) =>
        CallIs(c, st, avail, now, cb);
        ChosenIsSound(c, st, avail, now);
        var ch, gains := Chosen(c, st, avail, now), CallGains(c, st.cur.replayGain);
        SameDelay(c, st, ch.st);
        if ch.silence {
          SilentCall(c, ch.st, ch.size, gains, now, cb, 0);
        } else {
          SoundingFlag(c, ch.st, ch.size, gains, now, cb, 0);
        }
      case _ =>
    }
  }

  ghost predicate AlwaysPlain(c: Config, st: State, steps: seq<Step>)
    requires Inv(c, st) && Possible(c, st, steps)
    decreases |steps|
  {
    Plain(c, st)
    && (steps != [] ==> (StepKeepsInv(c, st, steps[0]); AlwaysPlain(c, After(c, st, steps[0]), steps[1..])))
  }

  ghost function Last(c: Config, st: State, steps: seq<Step>): (t: State)
    requires Inv(c, st) && Possible(c, st, steps)
    decreases |steps|
    ensures Inv(c, t)
  {
    if steps == [] then st
    else
      StepKeepsInv(c, st, steps[0]);
      Last(c, After(c, st, steps[0]), steps[1..])
  }

  /** However many tracks without a delay are played, the flag stays as it was. */
  lemma {:induction false} FlagStaysUp(c: Config, st: State, steps: seq<Step>)
    requires Inv(c, st) && Possible(c, st, steps) && AlwaysPlain(c, st, steps)
    decreases |steps|
    ensures Last(c, st, steps).delayActive == st.delayActive
  {
    hide Inv, Allowed, After, Plain;
    if steps != [] {
      StepKeepsInv(c, st, steps[0]);
      FlagStays(c, st, steps[0]);
      FlagStaysUp(c, After(c, st, steps[0]), steps[1..]);
    }
  }

  /**
   * So a command 'f' between the halves costs the next track that needs a delay its first half, however many without
   * one are played in between.
   */
  lemma LostHalf(c: Config, st: State, steps: seq<Step>, rate: nat, format: OutFormat)
    requires Inv(c, st) && st.delayActive
    requires Possible(c, After(c, st, FlushStreaming), steps) && AlwaysPlain(c, After(c, st, FlushStreaming), steps)
    ensures
      var s := Marked(c, Last(c, After(c, st, FlushStreaming), steps), rate, format);
      var d := Delay(c, s);
      Change(c, s) == [TrackStart(s.next)] + (if d > 0 then Silences(HalfDelay(s.next.rate, d), s.next) else [])
  {
    hide HalfDelay, AlwaysPlain, Possible;
    FlagStaysUp(c, After(c, st, FlushStreaming), steps);
    hide Last, Delay;
    hide Inv;
  }
}
