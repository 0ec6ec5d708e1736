/** What a call of `_output_frames` decides: whether it sounds, how loud each channel is, and what it counts. */
module SchedulerChoices {
  import opened Machine
  import opened Pack
  import opened Samples
  import opened Scheduler
  import opened SchedulerRuns
  import opened SchedulerSafety

  // ---------------------------------------------------------------- when it sounds

  /** More is buffered than `threshold` tenths of a second of the next track, and than `startFrames`. */
  predicate Buffered(c: Config, st: State) {
    10 * |st.frames| > c.threshold * st.next.rate && |st.frames| > c.startFrames
  }

  /** The time to start has come, or lies so far ahead that the clock must have gone round. */
  predicate TimeToStart(st: State, now: nat) {
    now >= st.wait || st.wait > now + 10000
  }

  /** A call sounds only with frames to play, and if nothing is waited for. */
  predicate WillSound(c: Config, st: State, now: nat) {
    st.frames != [] &&
    match st.mode
    case Off => false
    case Stopped => false
    case Buffering => Buffered(c, st)
    case Running => true
    case PauseFrames => st.wait == 0
    case StartAt => TimeToStart(st, now)
  }

  lemma ChosenSoundsIff(c: Config, st: State, avail: nat, now: nat)
    requires c.threshold * st.next.rate < 0x1_0000_0000 && now + 10000 < 0x1_0000_0000
    ensures !Chosen(c, st, avail, now).silence <==> WillSound(c, st, now)
  {
    SmallU32(c.threshold * st.next.rate);
    SmallU32(now + 10000);
    StartedIff(c, st);
    hide U32;
  }

  lemma StartedIff(c: Config, st: State)
    requires U32(c.threshold * st.next.rate) == c.threshold * st.next.rate
    ensures Started(c, st) == if st.mode == Buffering && Buffered(c, st) then st.(mode := Running) else st
  {
    hide U32;
    TenthPart(|st.frames|, c.threshold * st.next.rate);
  }

  lemma TenthPart(n: nat, q: nat)
    ensures n > q / 10 <==> 10 * n > q
  {}

  /** And what a call that sounds hands over is the next frames; otherwise it is silence, and the ring is untouched. */
  lemma CallSoundsIff(c: Config, st: State, avail: nat, now: nat, cb: Callback)
    requires Inv(c, st) && Honest(cb)
    requires c.threshold * st.next.rate < 0x1_0000_0000 && now + 10000 < 0x1_0000_0000
    ensures
      var o, n := Call(c, st, avail, now, cb), Returned(c, st, avail, now, cb);
      && (WillSound(c, st, now) ==> Sounded(c, st, n, o))
      && (!WillSound(c, st, now) ==> Silenced(st, n, o))
  {
    ChosenSoundsIff(c, st, avail, now);
    hide Chosen, Written, Call, Returned, CallGains, LoopGains, Inv, Honest, Distance, PlayGains, WillSound;
    CallIs(c, st, avail, now, cb);
    ChosenIsSound(c, st, avail, now);
    var ch, gains := Chosen(c, st, avail, now), CallGains(c, st.cur.replayGain);
    if ch.silence {
      SilentCall(c, ch.st, ch.size, gains, now, cb, 0);
    } else {
      SoundingCall(c, ch.st, ch.size, gains, now, cb, 0);
      GainsOfCall(c, st, ch.st);
      SameDistance(c, st, ch.st);
    }
  }

  /**
   * The silence before a start at a given time does not reach past it just when it is not less than a frame away;
   * and unless there is no room for more, it leaves less than a frame.
   */
  lemma SilenceUntilStart(c: Config, st: State, avail: nat, now: nat)
    requires st.mode == StartAt && now < st.wait <= now + 10000 < 0x1_0000_0000 && avail > 0
    requires (st.wait - now) * st.cur.rate < 0x1_0000_0000
    ensures
      var n, due := Chosen(c, st, avail, now).size, (st.wait - now) * st.cur.rate;
      && Chosen(c, st, avail, now).silence
      && (1000 * n <= due <==> due >= 1000)
      && (n < avail && n < MAX_SILENCE_FRAMES ==> 1000 * (n + 1) > due)
  {
    var due := (st.wait - now) * st.cur.rate;
    SmallU32(due);
    SmallU32(now + 10000);
    assert Started(c, st) == st;
    hide U32, Started;
  }

  /** At 500 frames a second and one millisecond to go, a call writes a hundred frames of silence. */
  lemma StartOvershoots(c: Config, st: State)
    requires st.mode == StartAt && st.wait == 1001 && st.cur.rate == 500
    ensures Chosen(c, st, 100, 1000).silence && Chosen(c, st, 100, 1000).size == 100
  {
    SilenceUntilStart(c, st, 100, 1000);
    assert Started(c, st) == st;
  }

  /** Each turn of the loop offers all that is left, or as much as there is before the end of the ring or the mark. */
  lemma OfferedIsMost(c: Config, st: State, size: nat)
    requires Inv(c, st) && 0 < size <= |st.frames| && !AtTrackStart(st)
    ensures
      var n := Offered(c, st, size, false);
      n == size || st.readp + n == c.size || (st.track.TrackAt? && st.readp + n == st.track.at)
  {}

  // ---------------------------------------------------------------- how loud

  /** What the volume and the replay gain make of a channel's gain, in 16.16 fixed point. */
  function Level(volume: S32, replay: S32, managed: bool): int {
    if managed || replay == 0 then volume else Clamp(volume * replay / 0x1_0000, MIN_S32, MAX_S32)
  }

  /** Each channel has the gain of its own volume, negated where the output is inverted. */
  lemma ChannelLevels(c: Config, setup: Setup)
    requires setup.format == PCM
    ensures
      var g, l, r := PlayGains(c, setup), Level(c.volumeL, setup.replayGain, c.managed),
        Level(c.volumeR, setup.replayGain, c.managed);
      && (!c.invert ==> g == Gains(l, r))
      && (c.invert && l > MIN_S32 && r > MIN_S32 ==> g == Gains(-l, -r))
  {
    GainSaturates(c.volumeL, setup.replayGain);
    GainSaturates(c.volumeR, setup.replayGain);
    hide Gain;
  }

  /** A channel of volume 0 is silent whatever the other does, and at full volume its samples go out as they are. */
  lemma ChannelsApart(c: Config, setup: Setup, f: Frame)
    requires setup.format == PCM && (setup.replayGain == 0 || c.managed) && !c.invert
    ensures
      var heard := GainFrame(f, PlayGains(c, setup).left, PlayGains(c, setup).right);
      && (c.volumeL == 0 ==> heard.left == 0) && (c.volumeR == 0 ==> heard.right == 0)
      && (c.volumeL == FIXED_ONE ==> heard.left == f.left) && (c.volumeR == FIXED_ONE ==> heard.right == f.right)
  {
    UnityGain(FIXED_ONE);
  }

  /** Frames that are not PCM go out bit for bit, at any volume. */
  lemma OtherFormatsUntouched(c: Config, setup: Setup, f: Frame)
    requires setup.format != PCM
    ensures GainFrame(f, PlayGains(c, setup).left, PlayGains(c, setup).right) == f
  {
    UnityFrame(f);
  }

  // ---------------------------------------------------------------- what it counts

  /** The position in the track: the frames of it played, from 0 at its start. */
  ghost predicate Counted(st: State, o: Outcome, sounded: nat, now: nat) {
    (o.start ==> o.st.played == 0 && o.st.started && o.st.startTime == now)
    && (!o.start ==>
          o.st.played == U32(st.played + sounded) && o.st.started == st.started && o.st.startTime == st.startTime)
  }

  lemma {:induction false} SoundingCounts(
    c: Config, st: State, size: nat, gains: Gains, now: nat, cb: Callback, k: nat
  )
    requires Inv(c, st) && Honest(cb) && size <= |st.frames| && st.played == U32(st.played)
    decreases size
    ensures
      var o := Written(c, st, size, false, gains, now, cb, k);
      o.left <= size && Counted(st, o, size - o.left, now)
  {
    hide *;
    if size == 0 {
      NothingToWrite(c, st, false, gains, now, cb, k);
      NothingCounted(st, now, 0);
    } else if AtTrackStart(st) {
      AtStart(c, st, size, gains, now, cb, k);
      StartCounts(c, st, now, size);
    } else if (OfferedFits(c, st, size); cb(k, Offered(c, st, size, false)) <= 0) {
      Refused(c, st, size, false, gains, now, cb, k);
      NothingCounted(st, now, size);
    } else {
      var wrote := SoundWritten(c, st, size, gains, now, cb, k);
      var s := Consumed(c, st, wrote);
      ConsumedFrames(c, st, wrote);
      ConsumedCounts(c, st, wrote);
      SoundingCounts(c, s, size - wrote, LoopGains(st, gains), now, cb, k + 1);
      var rest := Written(c, s, size - wrote, false, LoopGains(st, gains), now, cb, k + 1);
      CountedMore(st, s, wrote, size - wrote - rest.left, rest, now);
      var first := Sounds(st.frames[..wrote], LoopGains(st, gains), st.cur);
      CountedAlike(st, rest, first + rest.out, size - rest.left, now);
    }
  }

  lemma NothingCounted(st: State, now: nat, size: nat)
    requires st.played == U32(st.played)
    ensures Counted(st, Outcome(st, [], false, size), 0, now)
  {}

  lemma StartCounts(c: Config, st: State, now: nat, size: nat)
    requires st.played == U32(st.played)
    ensures Counted(st, Outcome(StartTrack(c, st, now), [], !FirstHalf(c, st), size), 0, now)
  {
    hide U32;
  }

  lemma ConsumedCounts(c: Config, st: State, n: nat)
    requires n <= |st.frames|
    ensures var s := Consumed(c, st, n); s.played == U32(st.played + n) == U32(s.played)
    ensures Consumed(c, st, n).started == st.started && Consumed(c, st, n).startTime == st.startTime
  {}

  lemma CountedMore(st: State, s: State, wrote: nat, more: nat, rest: Outcome, now: nat)
    requires s.played == U32(st.played + wrote) && s.started == st.started && s.startTime == st.startTime
    requires Counted(s, rest, more, now)
    ensures Counted(st, rest, wrote + more, now)
  {
    AddU32(st.played + wrote, more);
    hide U32;
  }

  lemma CountedAlike(st: State, o: Outcome, out: seq<Event>, sounded: nat, now: nat)
    requires Counted(st, o, sounded, now)
    ensures Counted(st, o.(out := out), sounded, now)
  {}

  /** A call counts the frames it plays, and starts again at 0, with the time, where it processes a track start. */
  lemma CallCounts(c: Config, st: State, avail: nat, now: nat, cb: Callback)
    requires Inv(c, st) && Honest(cb) && st.played == U32(st.played)
    ensures var o := Call(c, st, avail, now, cb); Counted(st, o, |Audible(o.out)|, now)
  {
    hide Chosen, Written, Call, Returned, CallGains, LoopGains, Inv, Honest, Counted, U32, Silences, Sounds;
    CallIs(c, st, avail, now, cb);
    ChosenCounts(c, st, avail, now);
    var ch, gains := Chosen(c, st, avail, now), CallGains(c, st.cur.replayGain);
    var o := Call(c, st, avail, now, cb);
    if ch.silence {
      SilentCall(c, ch.st, ch.size, gains, now, cb, 0);
      AudibleSilences(ch.size - o.left, ch.st.cur);
      NothingCounted(ch.st, now, o.left);
      CountedAlike(ch.st, Outcome(ch.st, [], false, o.left), o.out, 0, now);
    } else {
      SoundingCall(c, ch.st, ch.size, gains, now, cb, 0);
      SoundingCounts(c, ch.st, ch.size, gains, now, cb, 0);
      AudibleSounds(ch.st.frames[..ch.size - o.left], LoopGains(ch.st, gains), ch.st.cur);
    }
    CountedSame(st, ch.st, o, |Audible(o.out)|, now);
  }

  lemma CountedSame(st: State, s: State, o: Outcome, sounded: nat, now: nat)
    requires s.played == st.played && s.started == st.started && s.startTime == st.startTime
    requires Counted(s, o, sounded, now)
    ensures Counted(st, o, sounded, now)
  {}

  lemma ChosenCounts(c: Config, st: State, avail: nat, now: nat)
    requires Inv(c, st)
    ensures
      var s := Chosen(c, st, avail, now).st;
      s.played == st.played && s.started == st.started && s.startTime == st.startTime
  {
    hide U32;
  }
}
