/** What a change of track sounds like when the device takes every frame it is offered. */
module SchedulerTimeline {
  import opened Scheduler
  import opened SchedulerSafety

  ghost predicate Full(cb: Callback) {
    forall k, n :: cb(k, n) == n
  }

  /** Playing, or pausing for a track change, with frames of the next track already buffered behind its mark. */
  ghost predicate Steady(c: Config, st: State) {
    Inv(c, st) && (st.mode == Running || st.mode == PauseFrames)
    && (st.track.TrackAt? ==> Distance(c, st) < |st.frames|)
    && (st.delayActive ==> AtTrackStart(st) && Delay(c, st) > 0)
  }

  function PauseLeft(st: State): nat {
    if st.mode == PauseFrames then st.wait else 0
  }

  /** The change of track itself: half the delay at the old rate, the track start, half the delay at the new rate. */
  function Change(c: Config, st: State): seq<Event> {
    var delay := Delay(c, st);
    (if FirstHalf(c, st) then Silences(HalfDelay(st.cur.rate, delay), st.cur) else [])
    + [TrackStart(st.next)]
    + (if delay > 0 then Silences(HalfDelay(st.next.rate, delay), st.next) else [])
  }

  /** Everything still to be heard of what is buffered. */
  ghost function Rest(c: Config, st: State): seq<Event>
    requires Inv(c, st)
  {
    Silences(PauseLeft(st), st.cur) +
    if st.track.TrackAt? then
      var d := Distance(c, st);
      Sounds(st.frames[..d], PlayGains(c, st.cur), st.cur) + Change(c, st)
      + Sounds(st.frames[d..], PlayGains(c, st.next), st.next)
    else Sounds(st.frames, PlayGains(c, st.cur), st.cur)
  }

  /** Bounds the calls still needed: each emits an event or sets up the first half of a delay. */
  ghost function Weight(c: Config, st: State): nat
    requires Inv(c, st)
  {
    |Rest(c, st)| + if st.track.TrackAt? && FirstHalf(c, st) then 1 else 0
  }

  // ---------------------------------------------------------------- playing

  lemma PlainRest(c: Config, st: State)
    requires Inv(c, st) && st.mode == Running && st.track == NoTrack
    ensures Rest(c, st) == Sounds(st.frames, PlayGains(c, st.cur), st.cur)
  {
    hide PlayGains;
    assert Silences(0, st.cur) == [];
  }

  lemma TrackRest(c: Config, st: State)
    requires Inv(c, st) && st.mode == Running && st.track.TrackAt?
    ensures 0 <= Distance(c, st) <= |st.frames|
    ensures
      var d := Distance(c, st);
      Rest(c, st) == Sounds(st.frames[..d], PlayGains(c, st.cur), st.cur)
        + (Change(c, st) + Sounds(st.frames[d..], PlayGains(c, st.next), st.next))
  {
    hide PlayGains, Change;
    assert Silences(0, st.cur) == [];
  }

  /** Playing n frames takes them off the front of the rest. */
  lemma ConsumedRest(c: Config, st: State, n: nat)
    requires Steady(c, st) && st.mode == Running && n <= |st.frames| && Inv(c, Consumed(c, st, n))
    requires st.track.TrackAt? ==> n <= Distance(c, st) && Distance(c, Consumed(c, st, n)) == Distance(c, st) - n
    requires n > 0 ==> !AtTrackStart(st)
    ensures Steady(c, Consumed(c, st, n))
    ensures Rest(c, st) == Sounds(st.frames[..n], PlayGains(c, st.cur), st.cur) + Rest(c, Consumed(c, st, n))
    ensures Weight(c, Consumed(c, st, n)) == Weight(c, st) - n
  {
    hide PlayGains, Change, Rest;
    var s := Consumed(c, st, n);
    if st.track.TrackAt? {
      TrackRest(c, st);
      TrackRest(c, s);
      SoundsAdd(st.frames, n, Distance(c, st) - n, PlayGains(c, st.cur), st.cur);
      assert Change(c, s) == Change(c, st) by { SameChange(c, st, s); }
    } else {
      PlainRest(c, st);
      PlainRest(c, s);
      SoundsAdd(st.frames, n, |st.frames| - n, PlayGains(c, st.cur), st.cur);
      assert st.frames[n..][..|st.frames| - n] == st.frames[n..] && st.frames[..|st.frames|] == st.frames;
    }
  }

  lemma SameChange(c: Config, st: State, s: State)
    requires s.cur == st.cur && s.next == st.next && s.delayActive == st.delayActive
    ensures Change(c, s) == Change(c, st)
  {}

  /**
   * At the mark: the first half of a delay changes nothing that is still to be heard; the start itself is heard once.
   */
  lemma StartRest(c: Config, st: State, now: nat)
    requires Steady(c, st) && st.mode == Running && AtTrackStart(st)
    ensures Inv(c, StartTrack(c, st, now)) && Steady(c, StartTrack(c, st, now))
    ensures FirstHalf(c, st) ==>
      Rest(c, st) == Rest(c, StartTrack(c, st, now)) && Weight(c, StartTrack(c, st, now)) == Weight(c, st) - 1
    ensures !FirstHalf(c, st) ==>
      Rest(c, st) == [TrackStart(st.next)] + Rest(c, StartTrack(c, st, now))
          && Weight(c, StartTrack(c, st, now)) < Weight(c, st)
  {
    hide PlayGains, Sounds, HalfDelay, Rest, Change;
    StartKeepsInv(c, st, now);
    StartSteady(c, st, now);
    MarkRest(c, st);
    if FirstHalf(c, st) {
      FirstHalfRest(c, st, now);
    } else {
      SecondHalfRest(c, st, now);
    }
  }

  lemma StartSteady(c: Config, st: State, now: nat)
    requires Steady(c, st) && AtTrackStart(st)
    ensures Steady(c, StartTrack(c, st, now))
  {
    hide HalfDelay;
  }

  /** At the mark nothing of the old track is left. */
  lemma MarkRest(c: Config, st: State)
    requires Inv(c, st) && st.mode == Running && AtTrackStart(st)
    ensures Rest(c, st) == Change(c, st) + Sounds(st.frames, PlayGains(c, st.next), st.next)
  {
    hide PlayGains, Sounds, Change, Rest;
    TrackRest(c, st);
    assert st.frames[..0] == [] && st.frames[0..] == st.frames;
    NoSound(PlayGains(c, st.cur), st.cur);
  }

  lemma FirstHalfRest(c: Config, st: State, now: nat)
    requires Inv(c, st) && Inv(c, StartTrack(c, st, now)) && AtTrackStart(st) && FirstHalf(c, st)
    ensures Rest(c, StartTrack(c, st, now)) == Change(c, st) + Sounds(st.frames, PlayGains(c, st.next), st.next)
  {
    hide PlayGains, Sounds, HalfDelay;
    assert st.frames[..0] == [] && st.frames[0..] == st.frames;
    NoSound(PlayGains(c, st.cur), st.cur);
  }

  lemma SecondHalfRest(c: Config, st: State, now: nat)
    requires Inv(c, st) && Inv(c, StartTrack(c, st, now)) && st.mode == Running && AtTrackStart(st) && !FirstHalf(c, st)
    ensures [TrackStart(st.next)] + Rest(c, StartTrack(c, st, now))
         == Change(c, st) + Sounds(st.frames, PlayGains(c, st.next), st.next)
  {
    hide PlayGains, Sounds, HalfDelay;
    NoSilence(st.next);
  }

  lemma NoSound(gains: Gains, setup: Setup)
    ensures Sounds([], gains, setup) == []
  {}

  lemma FullIsHonest(cb: Callback, k: nat, n: nat)
    requires Full(cb)
    ensures Honest(cb) && cb(k, n) == n
  {}

  lemma SameGains(c: Config, st: State, s: State, gains: Gains)
    requires s.cur == st.cur && LoopGains(st, gains) == PlayGains(c, st.cur)
    ensures LoopGains(s, LoopGains(st, gains)) == PlayGains(c, s.cur)
  {}

  /** Each event of the outcome is the next of the rest. */
  ghost predicate Advances(c: Config, st: State, o: Outcome)
    requires Inv(c, st)
  {
    Steady(c, o.st) && Rest(c, st) == Trace(o) + Rest(c, o.st) && Weight(c, o.st) < Weight(c, st)
  }

  lemma {:induction false} FullSounding(c: Config, st: State, size: nat, gains: Gains, now: nat, cb: Callback, k: nat)
    requires Steady(c, st) && st.mode == Running && Full(cb) && Honest(cb) && 0 < size <= |st.frames|
    requires LoopGains(st, gains) == PlayGains(c, st.cur)
    decreases size
    ensures Advances(c, st, Written(c, st, size, false, gains, now, cb, k))
  {
    hide *;
    SteadyInv(c, st);
    if AtTrackStart(st) {
      AtStart(c, st, size, gains, now, cb, k);
      StartAdvances(c, st, size, now);
    } else {
      OfferedFits(c, st, size);
      FullIsHonest(cb, k, Offered(c, st, size, false));
      var wrote := SoundWritten(c, st, size, gains, now, cb, k);
      var s := Consumed(c, st, wrote);
      ConsumedState(c, st, wrote);
      ConsumedRest(c, st, wrote);
      if wrote == size {
        NothingToWrite(c, s, false, LoopGains(st, gains), now, cb, k + 1);
        LastAdvance(c, st, s, wrote, gains);
      } else {
        SameGains(c, st, s, gains);
        FullSounding(c, s, size - wrote, LoopGains(st, gains), now, cb, k + 1);
        AdvancesMore(c, st, s, wrote, gains, Written(c, s, size - wrote, false, LoopGains(st, gains), now, cb, k + 1));
      }
    }
  }

  lemma SteadyInv(c: Config, st: State)
    requires Steady(c, st)
    ensures Inv(c, st) && st.track.TrackAt? ==> 0 <= Distance(c, st) < |st.frames|
    ensures Inv(c, st)
  {}

  lemma ConsumedState(c: Config, st: State, n: nat)
    requires n <= |st.frames|
    ensures var s := Consumed(c, st, n); s.mode == st.mode && s.cur == st.cur && |s.frames| == |st.frames| - n
  {}

  lemma StartAdvances(c: Config, st: State, size: nat, now: nat)
    requires Steady(c, st) && Inv(c, st) && st.mode == Running && AtTrackStart(st)
    ensures Advances(c, st, Outcome(StartTrack(c, st, now), [], !FirstHalf(c, st), size))
  {
    hide Steady, Inv, Rest, Weight, StartTrack, FirstHalf;
    StartRest(c, st, now);
    StartKeepsInv2(c, st, now);
  }

  lemma StartKeepsInv2(c: Config, st: State, now: nat)
    requires Inv(c, st) && AtTrackStart(st)
    ensures !FirstHalf(c, st) ==> StartTrack(c, st, now).cur == st.next
  {}

  lemma LastAdvance(c: Config, st: State, s: State, wrote: nat, gains: Gains)
    requires Inv(c, st) && Steady(c, s) && 0 < wrote <= |st.frames| && Inv(c, s)
    requires LoopGains(st, gains) == PlayGains(c, st.cur)
    requires Rest(c, st) == Sounds(st.frames[..wrote], PlayGains(c, st.cur), st.cur) + Rest(c, s)
    requires Weight(c, s) == Weight(c, st) - wrote
    ensures Advances(c, st, Outcome(s, Sounds(st.frames[..wrote], LoopGains(st, gains), st.cur) + [], false, 0))
  {
    hide Rest, Weight, Sounds, Inv, Steady;
    var played := Sounds(st.frames[..wrote], PlayGains(c, st.cur), st.cur);
    assert played + [] == played;
  }

  lemma AdvancesMore(c: Config, st: State, s: State, wrote: nat, gains: Gains, rest: Outcome)
    requires Inv(c, st) && Inv(c, s) && 0 < wrote <= |st.frames|
    requires LoopGains(st, gains) == PlayGains(c, st.cur)
    requires Rest(c, st) == Sounds(st.frames[..wrote], PlayGains(c, st.cur), st.cur) + Rest(c, s)
    requires Weight(c, s) == Weight(c, st) - wrote
    requires Advances(c, s, rest)
    ensures Advances(c, st, rest.(out := Sounds(st.frames[..wrote], LoopGains(st, gains), st.cur) + rest.out))
  {
    hide Rest, Weight, Sounds, Inv, Steady;
  }

  // ---------------------------------------------------------------- pausing

  lemma FullSilence(c: Config, st: State, size: nat, gains: Gains, now: nat, cb: Callback, k: nat)
    requires Inv(c, st) && Full(cb) && Honest(cb)
    ensures Written(c, st, size, true, gains, now, cb, k) == Outcome(st, Silences(size, st.cur), false, 0)
  {
    hide *;
    NoSilence(st.cur);
    if size == 0 {
      NothingToWrite(c, st, true, gains, now, cb, k);
    } else {
      FullIsHonest(cb, k, size);
      SilenceWritten(c, st, size, gains, now, cb, k);
      NothingToWrite(c, st, true, LoopGains(st, gains), now, cb, k + 1);
      SilencesAdd(size, 0, st.cur);
    }
  }

  lemma PausedRest(c: Config, st: State, n: nat)
    requires Steady(c, st) && st.mode == PauseFrames && 0 < n <= st.wait
    ensures Steady(c, st.(wait := st.wait - n))
    ensures Advances(c, st, Outcome(st.(wait := st.wait - n), Silences(n, st.cur), false, 0))
  {
    hide PlayGains, Change;
    var s := st.(wait := st.wait - n);
    SilencesAdd(n, st.wait - n, st.cur);
    SameChange(c, st, s);
  }

  /** The end of a pause is not heard. */
  lemma ResumedRest(c: Config, st: State)
    requires Steady(c, st) && PauseLeft(st) == 0
    ensures Steady(c, st.(mode := Running)) && Rest(c, st.(mode := Running)) == Rest(c, st)
    ensures Weight(c, st.(mode := Running)) == Weight(c, st)
  {
    hide PlayGains, Change;
    SameChange(c, st, st.(mode := Running));
  }

  // ---------------------------------------------------------------- calls and runs

  /** From its k-th call on the callback takes n frames, in as many pieces as it likes, without refusing. */
  ghost predicate Accepts(cb: Callback, k: nat, n: nat)
    requires Honest(cb)
    decreases n
  {
    n == 0 || (cb(k, n) > 0 && Accepts(cb, k + 1, n - cb(k, n)))
  }

  lemma {:induction false} SilenceAccepted(c: Config, st: State, size: nat, gains: Gains, now: nat, cb: Callback,
      k: nat)
    requires Inv(c, st) && Honest(cb)
    decreases size
    ensures Written(c, st, size, true, gains, now, cb, k).left == 0 <==> Accepts(cb, k, size)
  {
    hide Written, Inv, Honest, Silences;
    if size == 0 {
      NothingToWrite(c, st, true, gains, now, cb, k);
    } else if cb(k, size) <= 0 {
      Refused(c, st, size, true, gains, now, cb, k);
    } else {
      SilenceWritten(c, st, size, gains, now, cb, k);
      SilenceAccepted(c, st, size - cb(k, size), LoopGains(st, gains), now, cb, k + 1);
    }
  }

  /** The silence a call of `_output_frames` sets out to write while pausing. */
  function PauseChunk(st: State, avail: nat): nat {
    Min(Min(avail, st.wait), MAX_SILENCE_FRAMES)
  }

  /**
   * A pause is counted down before the write, so silence the callback then refuses is not made up for: the pause keeps
   * its length exactly when the callback takes all that it is going to be offered.
   */
  lemma PauseKeptIff(c: Config, st: State, avail: nat, now: nat, cb: Callback)
    requires Inv(c, st) && Honest(cb) && st.mode == PauseFrames && st.wait > 0 && avail > 0
    ensures
      var o := Call(c, st, avail, now, cb);
      |o.out| + o.left + o.st.wait == st.wait
      && (|o.out| + o.st.wait == st.wait <==> Accepts(cb, 0, PauseChunk(st, avail)))
  {
    hide Call, Written, CallGains, Inv, Honest, Accepts, Silences;
    CallIs(c, st, avail, now, cb);
    var n := PauseChunk(st, avail);
    ChosenPause(c, st, avail, now);
    hide Chosen;
    var s, gains := st.(wait := st.wait - n), CallGains(c, st.cur.replayGain);
    SilentCall(c, s, n, gains, now, cb, 0);
    SilenceAccepted(c, s, n, gains, now, cb, 0);
  }

  lemma ChosenPause(c: Config, st: State, avail: nat, now: nat)
    requires st.mode == PauseFrames && st.wait > 0 && avail > 0
    ensures 0 < PauseChunk(st, avail) <= st.wait
    ensures Chosen(c, st, avail, now)
         == Choice(st.(wait := st.wait - PauseChunk(st, avail)), true, PauseChunk(st, avail))
  {}

  /** A device that takes nothing: half of a pause of 100 frames is over without a frame of silence. */
  lemma PauseCutShort(c: Config, st: State)
    requires Inv(c, st) && st.mode == PauseFrames && st.wait == 100
    ensures var o := Call(c, st, 50, 0, (k, n) => 0); o.out == [] && o.st.wait == 50
  {
    hide Call, Written, CallGains, Inv, Silences;
    var cb: Callback := (k, n) => 0;
    CallIs(c, st, 50, 0, cb);
    ChosenPause(c, st, 50, 0);
    hide Chosen;
    SilenceOffered(c, st.(wait := 50), 50);
    Refused(c, st.(wait := 50), 50, true, CallGains(c, st.cur.replayGain), 0, cb, 0);
  }

  lemma ChosenRunning(c: Config, st: State, avail: nat, now: nat)
    requires (st.mode == Running || st.mode == PauseFrames) && PauseLeft(st) == 0
    ensures
      Chosen(c, st, avail, now) ==
      if |st.frames| == 0 then Choice(st.(mode := Running), true, Min(avail, MAX_SILENCE_FRAMES))
      else Choice(st.(mode := Running), false, Min(|st.frames|, avail))
  {}

  lemma CallAdvances(c: Config, st: State, avail: nat, now: nat, cb: Callback)
    requires Steady(c, st) && avail > 0 && Full(cb) && Inv(c, st) && Honest(cb)
    requires PauseLeft(st) > 0 || |st.frames| > 0
    ensures Advances(c, st, Call(c, st, avail, now, cb))
  {
    hide Chosen, Call, Returned, Written, Steady, Inv, Honest, Full, Rest, Weight, Advances, CallGains;
    CallIs(c, st, avail, now, cb);
    var gains := CallGains(c, st.cur.replayGain);
    if PauseLeft(st) > 0 {
      var n := PauseChunk(st, avail);
      ChosenPause(c, st, avail, now);
      var s := st.(wait := st.wait - n);
      FullSilence(c, s, n, gains, now, cb, 0);
      PausedRest(c, st, n);
    } else {
      SteadyMode(c, st);
      ChosenRunning(c, st, avail, now);
      var s := st.(mode := Running);
      ResumedRest(c, st);
      GainsOfCall(c, st, s);
      FullSounding(c, s, Min(|st.frames|, avail), gains, now, cb, 0);
      AdvancesAlike(c, st, s, Written(c, s, Min(|st.frames|, avail), false, gains, now, cb, 0));
    }
  }

  lemma SteadyMode(c: Config, st: State)
    requires Steady(c, st)
    ensures st.mode == Running || st.mode == PauseFrames
  {}

  lemma AdvancesAlike(c: Config, st: State, s: State, o: Outcome)
    requires Inv(c, st) && Inv(c, s) && Rest(c, s) == Rest(c, st) && Weight(c, s) == Weight(c, st) && Advances(c, s, o)
    ensures Advances(c, st, o)
  {}

  datatype Tick = Tick(avail: nat, now: nat)

  /** The outcome of the calls one after another, nothing else happening in between. */
  ghost function Final(c: Config, st: State, ticks: seq<Tick>, cb: Callback): (s: State)
    requires Inv(c, st) && Honest(cb)
    decreases |ticks|
  {
    if ticks == [] then st
    else
      assert Inv(c, Call(c, st, ticks[0].avail, ticks[0].now, cb).st) by {
        CallHandsOverOneTrack(c, st, ticks[0].avail, ticks[0].now, cb);
      }
      Final(c, Call(c, st, ticks[0].avail, ticks[0].now, cb).st, ticks[1..], cb)
  }

  ghost function Heard(c: Config, st: State, ticks: seq<Tick>, cb: Callback): seq<Event>
    requires Inv(c, st) && Honest(cb)
    decreases |ticks|
  {
    if ticks == [] then []
    else
      var o := Call(c, st, ticks[0].avail, ticks[0].now, cb);
      assert Inv(c, o.st) by { CallHandsOverOneTrack(c, st, ticks[0].avail, ticks[0].now, cb); }
      Trace(o) + Heard(c, o.st, ticks[1..], cb)
  }

  /**
   * However many frames each call asks for, what is heard is what the buffer promised, from the front, until the
   * buffer has run dry.
   */
  lemma {:induction false} HeardInOrder(c: Config, st: State, ticks: seq<Tick>, cb: Callback)
    requires Steady(c, st) && Inv(c, st) && Full(cb) && Honest(cb)
    requires forall t | t in ticks :: t.avail > 0
    decreases |ticks|
    ensures Heard(c, st, ticks, cb) <= Rest(c, st) || Rest(c, st) <= Heard(c, st, ticks, cb)
    ensures |ticks| >= Weight(c, st) ==> Rest(c, st) <= Heard(c, st, ticks, cb)
    ensures forall i | |Rest(c, st)| <= i < |Heard(c, st, ticks, cb)| :: Heard(c, st, ticks, cb)[i].Silence?
  {
    hide Steady, Inv, Full, Honest, Call, Rest, Weight, Trace;
    if Dry(st) {
      DryRest(c, st);
      OnlySilence(c, st, ticks, cb);
    } else if ticks == [] {
      NotDry(c, st);
    } else {
      var t := ticks[0];
      assert t in ticks;
      CallHandsOverOneTrack(c, st, t.avail, t.now, cb);
      CallAdvances(c, st, t.avail, t.now, cb);
      var o := Call(c, st, t.avail, t.now, cb);
      HeardInOrder(c, o.st, ticks[1..], cb);
    }
  }

  lemma DryCall(c: Config, st: State, avail: nat, now: nat, cb: Callback)
    requires Steady(c, st) && Dry(st) && Inv(c, st) && Full(cb) && Honest(cb)
    ensures
      var o := Call(c, st, avail, now, cb);
      Steady(c, o.st) && Inv(c, o.st) && Dry(o.st) && Trace(o) == Silences(Min(avail, MAX_SILENCE_FRAMES), st.cur)
  {
    hide Chosen, Call, Written, Full, Honest, CallGains, Silences, Rest, Weight;
    CallIs(c, st, avail, now, cb);
    ChosenRunning(c, st, avail, now);
    FullSilence(c, st.(mode := Running), Min(avail, MAX_SILENCE_FRAMES), CallGains(c, st.cur.replayGain), now, cb, 0);
  }

  lemma {:induction false} OnlySilence(c: Config, st: State, ticks: seq<Tick>, cb: Callback)
    requires Steady(c, st) && Dry(st) && Inv(c, st) && Full(cb) && Honest(cb)
    decreases |ticks|
    ensures forall e | e in Heard(c, st, ticks, cb) :: e.Silence?
  {
    hide Steady, Inv, Full, Honest, Call, Trace, Dry;
    if ticks != [] {
      DryCall(c, st, ticks[0].avail, ticks[0].now, cb);
      OnlySilence(c, Call(c, st, ticks[0].avail, ticks[0].now, cb).st, ticks[1..], cb);
    }
  }

  predicate Dry(st: State) {
    PauseLeft(st) == 0 && |st.frames| == 0
  }

  lemma DryRest(c: Config, st: State)
    requires Steady(c, st) && Dry(st) && Inv(c, st)
    ensures Rest(c, st) == []
  {
    hide PlayGains;
  }

  lemma NotDry(c: Config, st: State)
    requires Inv(c, st) && !Dry(st)
    ensures Weight(c, st) > 0
  {
    hide PlayGains, Change;
  }

  /**
   * A change of rate with a delay of d milliseconds, whatever the calls ask for: the rest of the old track, cur*d/2000
   * silent frames, the track start once, next*d/2000 silent frames at the new rate, and the new track.
   */
  lemma RateChange(c: Config, st: State, ticks: seq<Tick>, cb: Callback)
    requires Steady(c, st) && Inv(c, st) && Full(cb) && Honest(cb) && (forall t | t in ticks :: t.avail > 0)
    requires st.mode == Running && st.track.TrackAt? && 0 <= Distance(c, st) <= |st.frames| && !st.delayActive
    requires st.cur.format == st.next.format && st.cur.rate != st.next.rate && c.rateDelay > 0
    requires st.cur.rate * c.rateDelay < 0x1_0000_0000 && st.next.rate * c.rateDelay < 0x1_0000_0000
    requires |ticks| > |Rest(c, st)|
    ensures
      var d, delay := Distance(c, st), c.rateDelay;
      Sounds(st.frames[..d], PlayGains(c, st.cur), st.cur)
      + (Silences(st.cur.rate * delay / 2000, st.cur) + [TrackStart(st.next)]
          + Silences(st.next.rate * delay / 2000, st.next)
         + Sounds(st.frames[d..], PlayGains(c, st.next), st.next))
      == Rest(c, st) <= Heard(c, st, ticks, cb)
  {
    hide Steady, Inv, Full, Honest, Rest, PlayGains, Sounds, Silences, Heard;
    TrackRest(c, st);
    HeardInOrder(c, st, ticks, cb);
    HalfOf(st.cur.rate, c.rateDelay);
    HalfOf(st.next.rate, c.rateDelay);
  }

  /** Between formats the delay is the one for DSD, whatever the rates. */
  lemma FormatChange(c: Config, st: State, ticks: seq<Tick>, cb: Callback)
    requires Steady(c, st) && Inv(c, st) && Full(cb) && Honest(cb) && (forall t | t in ticks :: t.avail > 0)
    requires st.mode == Running && st.track.TrackAt? && 0 <= Distance(c, st) <= |st.frames| && !st.delayActive
    requires st.cur.format != st.next.format && c.dsdDelay > 0
    requires st.cur.rate * c.dsdDelay < 0x1_0000_0000 && st.next.rate * c.dsdDelay < 0x1_0000_0000
    requires |ticks| > |Rest(c, st)|
    ensures
      var d, delay := Distance(c, st), c.dsdDelay;
      Sounds(st.frames[..d], PlayGains(c, st.cur), st.cur)
      + (Silences(st.cur.rate * delay / 2000, st.cur) + [TrackStart(st.next)]
          + Silences(st.next.rate * delay / 2000, st.next)
         + Sounds(st.frames[d..], PlayGains(c, st.next), st.next))
      == Rest(c, st) <= Heard(c, st, ticks, cb)
  {
    hide Steady, Inv, Full, Honest, Rest, PlayGains, Sounds, Silences, Heard;
    TrackRest(c, st);
    HeardInOrder(c, st, ticks, cb);
    HalfOf(st.cur.rate, c.dsdDelay);
    HalfOf(st.next.rate, c.dsdDelay);
  }

  /** Tracks of one rate and format follow one another without a frame of silence. */
  lemma Gapless(c: Config, st: State, ticks: seq<Tick>, cb: Callback)
    requires Steady(c, st) && Inv(c, st) && Full(cb) && Honest(cb) && (forall t | t in ticks :: t.avail > 0)
    requires st.mode == Running && st.track.TrackAt? && 0 <= Distance(c, st) <= |st.frames|
    requires st.cur.format == st.next.format && st.cur.rate == st.next.rate
    requires |ticks| >= |Rest(c, st)|
    ensures
      var d := Distance(c, st);
      Sounds(st.frames[..d], PlayGains(c, st.cur), st.cur)
      + ([TrackStart(st.next)] + Sounds(st.frames[d..], PlayGains(c, st.next), st.next))
      == Rest(c, st) <= Heard(c, st, ticks, cb)
  {
    hide Steady, Inv, Full, Honest, Rest, PlayGains, Sounds, Silences, Heard;
    TrackRest(c, st);
    HeardInOrder(c, st, ticks, cb);
  }

  lemma HalfOf(rate: nat, delay: nat)
    requires rate * delay < 0x1_0000_0000
    ensures HalfDelay(rate, delay) == rate * delay / 2000
  {}
}
