/** What every call of `_output_frames` keeps, for any write callback. */
module SchedulerSafety {
  import opened Machine
  import opened Pack
  import opened Samples
  import opened Scheduler

  // ---------------------------------------------------------------- the loop, one step at a time

  lemma NothingToWrite(c: Config, st: State, silence: bool, gains: Gains, now: nat, cb: Callback, k: nat)
    requires Inv(c, st) && Honest(cb)
    ensures Written(c, st, 0, silence, gains, now, cb, k) == Outcome(st, [], false, 0)
  {}

  lemma AtStart(c: Config, st: State, size: nat, gains: Gains, now: nat, cb: Callback, k: nat)
    requires Inv(c, st) && Honest(cb) && 0 < size <= |st.frames| && AtTrackStart(st)
    ensures Written(c, st, size, false, gains, now, cb, k)
        == Outcome(StartTrack(c, st, now), [], !FirstHalf(c, st), size)
  {}

  lemma StartKeepsInv(c: Config, st: State, now: nat)
    requires Inv(c, st) && st.track.TrackAt?
    ensures Inv(c, StartTrack(c, st, now)) && StartTrack(c, st, now).frames == st.frames
    ensures StartTrack(c, st, now).next == st.next
    ensures FirstHalf(c, st) ==> StartTrack(c, st, now).track == st.track && StartTrack(c, st, now).cur == st.cur
    ensures FirstHalf(c, st) ==> Distance(c, StartTrack(c, st, now)) == Distance(c, st)
    ensures !FirstHalf(c, st) ==> StartTrack(c, st, now).track == NoTrack && StartTrack(c, st, now).cur == st.next
  {}

  lemma Refused(c: Config, st: State, size: nat, silence: bool, gains: Gains, now: nat, cb: Callback, k: nat)
    requires Inv(c, st) && Honest(cb) && 0 < size && (silence || (size <= |st.frames| && !AtTrackStart(st)))
    requires cb(k, Offered(c, st, size, silence)) <= 0
    ensures Written(c, st, size, silence, gains, now, cb, k) == Outcome(st, [], false, size)
  {}

  lemma SilenceWritten(c: Config, st: State, size: nat, gains: Gains, now: nat, cb: Callback, k: nat)
    requires Inv(c, st) && Honest(cb) && 0 < size && cb(k, size) > 0
    ensures cb(k, size) <= size
    ensures Written(c, st, size, true, gains, now, cb, k) ==
      var rest := Written(c, st, size - cb(k, size), true, LoopGains(st, gains), now, cb, k + 1);
      rest.(out := Silences(cb(k, size), st.cur) + rest.out)
  {}

  lemma SoundWritten(c: Config, st: State, size: nat, gains: Gains, now: nat, cb: Callback, k: nat) returns (wrote: nat)
    requires Inv(c, st) && Honest(cb) && 0 < size <= |st.frames| && !AtTrackStart(st)
    requires cb(k, Offered(c, st, size, false)) > 0
    ensures wrote == cb(k, Offered(c, st, size, false)) && 0 < wrote <= Offered(c, st, size, false) <= size
    ensures Inv(c, Consumed(c, st, wrote))
    ensures st.track.TrackAt? ==> Distance(c, Consumed(c, st, wrote)) == Distance(c, st) - wrote
    ensures Written(c, st, size, false, gains, now, cb, k) ==
      var rest := Written(c, Consumed(c, st, wrote), size - wrote, false, LoopGains(st, gains), now, cb, k + 1);
      rest.(out := Sounds(st.frames[..wrote], LoopGains(st, gains), st.cur) + rest.out)
  {
    OfferedFits(c, st, size);
    wrote := cb(k, Offered(c, st, size, false));
    ConsumedKeepsInv(c, st, wrote);
  }

  lemma SilencesAdd(a: nat, b: nat, setup: Setup)
    ensures Silences(a, setup) + Silences(b, setup) == Silences(a + b, setup)
  {}

  lemma SoundsAdd(f: seq<Frame>, a: nat, b: nat, gains: Gains, setup: Setup)
    requires a + b <= |f|
    ensures Sounds(f[..a], gains, setup) + Sounds(f[a..][..b], gains, setup) == Sounds(f[..a + b], gains, setup)
    ensures f[a..][b..] == f[a + b..]
  {}

  // ---------------------------------------------------------------- silence

  lemma {:induction false} SilentCall(c: Config, st: State, size: nat, gains: Gains, now: nat, cb: Callback, k: nat)
    requires Inv(c, st) && Honest(cb)
    decreases size
    ensures
      var o := Written(c, st, size, true, gains, now, cb, k);
      o.left <= size && o == Outcome(st, Silences(size - o.left, st.cur), false, o.left)
  {
    hide *;
    if size == 0 {
      NothingToWrite(c, st, true, gains, now, cb, k);
      NoSilence(st.cur);
    } else if cb(k, size) <= 0 {
      SilenceOffered(c, st, size);
      Refused(c, st, size, true, gains, now, cb, k);
      NoSilence(st.cur);
    } else {
      SilenceWritten(c, st, size, gains, now, cb, k);
      var wrote := cb(k, size);
      SilentCall(c, st, size - wrote, LoopGains(st, gains), now, cb, k + 1);
      var rest := Written(c, st, size - wrote, true, LoopGains(st, gains), now, cb, k + 1);
      SilencesAdd(wrote, size - wrote - rest.left, st.cur);
    }
  }

  lemma NoSilence(setup: Setup)
    ensures Silences(0, setup) == []
  {}

  lemma SilenceOffered(c: Config, st: State, size: nat)
    ensures Offered(c, st, size, true) == size
  {}

  // ---------------------------------------------------------------- sound

  /** A call that plays hands over the next frames of the ring, stops at a track start, and mixes no two tracks. */
  ghost predicate PlayedInOrder(c: Config, st: State, size: nat, gains: Gains, o: Outcome) {
    o.left <= size <= |st.frames|
    && Inv(c, o.st) && o.st.next == st.next
    && o.out == Sounds(st.frames[..size - o.left], LoopGains(st, gains), st.cur)
    && o.st.frames == st.frames[size - o.left..]
    && (st.track.TrackAt? ==> size - o.left <= Distance(c, st))
    && (o.start ==>
          st.track.TrackAt? && size - o.left == Distance(c, st) < |st.frames|
          && o.st.track == NoTrack && o.st.cur == st.next)
    && (!o.start ==> o.st.track == st.track && o.st.cur == st.cur)
    && (!o.start && st.track.TrackAt? ==> Distance(c, o.st) == Distance(c, st) - (size - o.left))
  }

  lemma {:induction false} SoundingCall(c: Config, st: State, size: nat, gains: Gains, now: nat, cb: Callback, k: nat)
    requires Inv(c, st) && Honest(cb) && size <= |st.frames|
    decreases size
    ensures PlayedInOrder(c, st, size, gains, Written(c, st, size, false, gains, now, cb, k))
  {
    hide *;
    if size == 0 {
      NothingToWrite(c, st, false, gains, now, cb, k);
      NothingPlayed(c, st, 0, gains);
    } else if AtTrackStart(st) {
      AtStart(c, st, size, gains, now, cb, k);
      StartedInOrder(c, st, size, gains, now);
    } else if (OfferedFits(c, st, size); cb(k, Offered(c, st, size, false)) <= 0) {
      Refused(c, st, size, false, gains, now, cb, k);
      NothingPlayed(c, st, size, gains);
    } else {
      var wrote := SoundWritten(c, st, size, gains, now, cb, k);
      var s := Consumed(c, st, wrote);
      ConsumedFrames(c, st, wrote);
      SoundingCall(c, s, size - wrote, LoopGains(st, gains), now, cb, k + 1);
      PlayedMore(c, st, wrote, size, gains, Written(c, s, size - wrote, false, LoopGains(st, gains), now, cb, k + 1));
    }
  }

  lemma ConsumedFrames(c: Config, st: State, n: nat)
    requires n <= |st.frames|
    ensures Consumed(c, st, n).frames == st.frames[n..] && Consumed(c, st, n).next == st.next
  {}

  lemma NothingPlayed(c: Config, st: State, size: nat, gains: Gains)
    requires Inv(c, st) && size <= |st.frames|
    ensures PlayedInOrder(c, st, size, gains, Outcome(st, [], false, size))
  {}

  lemma StartedInOrder(c: Config, st: State, size: nat, gains: Gains, now: nat)
    requires Inv(c, st) && 0 < size <= |st.frames| && AtTrackStart(st)
    ensures PlayedInOrder(c, st, size, gains, Outcome(StartTrack(c, st, now), [], !FirstHalf(c, st), size))
  {
    hide StartTrack, FirstHalf;
    StartKeepsInv(c, st, now);
  }

  lemma PlayedMore(c: Config, st: State, wrote: nat, size: nat, gains: Gains, rest: Outcome)
    requires 0 < wrote <= size <= |st.frames| && Inv(c, st)
    requires st.track.TrackAt? ==> Distance(c, Consumed(c, st, wrote)) == Distance(c, st) - wrote
    requires PlayedInOrder(c, Consumed(c, st, wrote), size - wrote, LoopGains(st, gains), rest)
    ensures PlayedInOrder(c, st, size, gains,
      rest.(out := Sounds(st.frames[..wrote], LoopGains(st, gains), st.cur) + rest.out))
  {
    hide Inv, Distance, Sounds;
    SoundsAdd(st.frames, wrote, size - wrote - rest.left, LoopGains(st, gains), st.cur);
  }

  // ---------------------------------------------------------------- a whole call

  /** The gains a track is played with. */
  function PlayGains(c: Config, setup: Setup): Gains {
    if setup.format != PCM then Gains(FIXED_ONE, FIXED_ONE) else CallGains(c, setup.replayGain)
  }

  lemma ChosenIsSound(c: Config, st: State, avail: nat, now: nat)
    requires Inv(c, st)
    ensures
      var ch := Chosen(c, st, avail, now);
      Inv(c, ch.st) && ch.size <= avail && (ch.silence || ch.size <= |st.frames|)
      && ch.st.frames == st.frames && ch.st.track == st.track && ch.st.readp == st.readp
      && ch.st.cur == st.cur && ch.st.next == st.next && ch.st.delayActive == st.delayActive
  {
    var s, w := Started(c, st), Waited(Started(c, st), avail, now);
    assert s.frames == st.frames && (w.silence || w.size == |s.frames|) by {
      hide U32, Min;
    }
    hide Started, Waited, U32;
    assert w.st.(mode := s.mode, wait := s.wait) == s;
  }

  lemma GainsOfCall(c: Config, st: State, s: State)
    requires s.cur == st.cur
    ensures LoopGains(s, CallGains(c, st.cur.replayGain)) == PlayGains(c, st.cur)
  {}

  lemma CallIs(c: Config, st: State, avail: nat, now: nat, cb: Callback)
    requires Inv(c, st) && Honest(cb)
    ensures
      var ch := Chosen(c, st, avail, now);
      Inv(c, ch.st) && (ch.silence || ch.size <= |ch.st.frames|)
      && Call(c, st, avail, now, cb)
         == Written(c, ch.st, ch.size, ch.silence, CallGains(c, st.cur.replayGain), now, cb, 0)
      && Returned(c, st, avail, now, cb) == ch.size - Call(c, st, avail, now, cb).left
  {
    ChosenIsSound(c, st, avail, now);
  }

  ghost predicate Silenced(st: State, n: int, o: Outcome) {
    0 <= n && o.out == Silences(n, st.cur) && !o.start
    && o.st.frames == st.frames && o.st.track == st.track && o.st.readp == st.readp
    && o.st.cur == st.cur && o.st.next == st.next
  }

  ghost predicate Sounded(c: Config, st: State, n: int, o: Outcome) {
    0 <= n <= |st.frames|
    && o.out == Sounds(st.frames[..n], PlayGains(c, st.cur), st.cur)
    && o.st.frames == st.frames[n..] && o.st.next == st.next
    && (st.track.TrackAt? ==> n <= Distance(c, st))
    && (o.start ==>
          st.track.TrackAt? && n == Distance(c, st) < |st.frames| && o.st.track == NoTrack && o.st.cur == st.next)
    && (!o.start ==> o.st.track == st.track && o.st.cur == st.cur)
    && (!o.start && st.track.TrackAt? ==> Distance(c, o.st) == Distance(c, st) - n)
  }

  /**
   * For any write callback, `_output_frames` returns the number of frames the callback took, at most `avail`. They are
   * all silence and the ring is untouched, or they are the next frames of the ring, of one track only, at its gains.
   */
  lemma CallHandsOverOneTrack(c: Config, st: State, avail: nat, now: nat, cb: Callback)
    requires Inv(c, st) && Honest(cb)
    ensures
      var o, n := Call(c, st, avail, now, cb), Returned(c, st, avail, now, cb);
      Inv(c, o.st) && n == |o.out| <= avail && (Silenced(st, n, o) || Sounded(c, st, n, o))
  {
    hide Chosen, Written, Call, Returned, CallGains, LoopGains, Inv, Honest, Distance, PlayGains;
    CallIs(c, st, avail, now, cb);
    ChosenIsSound(c, st, avail, now);
    var ch, gains := Chosen(c, st, avail, now), CallGains(c, st.cur.replayGain);
    if ch.silence {
      SilentCall(c, ch.st, ch.size, gains, now, cb, 0);
    } else {
      SoundingCall(c, ch.st, ch.size, gains, now, cb, 0);
      GainsOfCall(c, st, ch.st);
      SameDistance(c, st, ch.st);
    }
  }

  lemma SameDistance(c: Config, st: State, s: State)
    requires s.track == st.track && s.readp == st.readp
    ensures st.track.TrackAt? ==> Distance(c, st) == Distance(c, s)
  {}
}
