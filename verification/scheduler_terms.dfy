/** Whole runs: every frame is played once, and exactly when on the terms of its own track. */
module SchedulerTerms {
  import opened Samples
  import opened Pack
  import opened Scheduler
  import opened SchedulerSafety
  import opened SchedulerRuns

  /**
   * A run so far: the frames heard, every frame decoded as its own track wants it, and the terms of the newest track.
   * A track's replay gain is the one that command 's' set last before the track was marked.
   */
  datatype Run = Run(st: State, heard: seq<Event>, owed: seq<Event>, own: Setup)

  ghost function Next(c: Config, r: Run, step: Step): Run
    requires Inv(c, r.st) && Allowed(c, r.st, step)
  {
    Run(After(c, r.st, step), r.heard + Audible(Heard(c, r.st, step)), Owed(c, r, step), Own(r, step))
  }

  /** Frames that are decoded are owed on their track's terms; frames that are dropped are owed no more. */
  ghost function Owed(c: Config, r: Run, step: Step): seq<Event>
    requires Inv(c, r.st)
  {
    match step
    case Decoded(f) => r.owed + Sounds(f, PlayGains(c, r.own), r.own)
    case FlushStreaming => Without(r.owed, Waiting(c, r.st))
    case _ => r.owed
  }

  /** Once the waiting track is dropped, the newest is the one playing. */
  function Own(r: Run, step: Step): Setup {
    match step
    case NewTrack(rate, format) => Setup(rate, format, r.st.next.replayGain)
    case FlushStreaming => if r.st.track.TrackAt? then r.st.cur else r.own
    case _ => r.own
  }

  /** All but the last n. */
  function Without<T>(s: seq<T>, n: nat): seq<T> {
    if n <= |s| then s[..|s| - n] else []
  }

  /** A run that starts with what is buffered as it is. */
  ghost function Fresh(c: Config, st: State): Run
    requires Inv(c, st)
  {
    Run(st, [], Due(c, st), Newest(st))
  }

  /** Every frame decoded was played, or is going to be, on the terms of its own track. */
  ghost predicate Right(c: Config, r: Run)
    requires Inv(c, r.st)
  {
    r.heard + Due(c, r.st) == r.owed
  }

  /** Frames of a track whose start has not been reached. */
  ghost predicate Behind(c: Config, st: State) {
    st.track.TrackAt? && Distance(c, st) < |st.frames|
  }

  /** Only the replay gain set for the next track can differ from the newest track's own, and not once it has frames. */
  ghost predicate Tied(c: Config, r: Run) {
    if r.st.track.TrackAt? then
      r.st.next.(replayGain := r.own.replayGain) == r.own && (Behind(c, r.st) ==> r.st.next == r.own)
    else r.st.cur == r.own
  }

  /**
   * What leaves every frame on its own terms: while frames wait behind a mark, no 's' with another gain and no further
   * mark, unless the waiting terms are the current ones; and after an 's' with another gain, a new mark before frames.
   */
  ghost predicate Undisturbed(c: Config, r: Run, step: Step) {
    match step
    case Output(_, _, _) => true
    case FlushStreaming => true
    case StreamStart(g) => !Behind(c, r.st) || g == r.st.next.replayGain
    case NewTrack(_, _) => !Behind(c, r.st) || r.st.next == r.st.cur
    case Decoded(f) => f == [] || r.st.track == NoTrack || r.st.next.replayGain == r.own.replayGain
  }

  /** A track that is marked waits on its own terms: its rate and format, and the gain that 's' set before the mark. */
  lemma MarkedOnOwnTerms(c: Config, r: Run, g: S32, rate: nat, format: OutFormat)
    requires Inv(c, r.st)
    ensures
      var started := Next(c, r, StreamStart(g));
      && Inv(c, started.st)
      && var t := Next(c, started, NewTrack(rate, format));
         t.st.track.TrackAt? && t.st.next == t.own == Setup(rate, format, g) && t.st.cur == r.st.cur
  {}

  lemma FreshIsRight(c: Config, st: State)
    requires Inv(c, st)
    ensures Right(c, Fresh(c, st)) && Tied(c, Fresh(c, st))
  {
    assert [] + Due(c, st) == Due(c, st);
  }

  // ---------------------------------------------------------------- one step

  lemma OutputStaysRight(c: Config, r: Run, avail: nat, now: nat, cb: Callback)
    requires Inv(c, r.st) && Honest(cb) && Right(c, r) && Tied(c, r)
    ensures
      var t := Next(c, r, Output(avail, now, cb));
      Inv(c, t.st) && Right(c, t) && Tied(c, t)
  {
    hide Call, Returned, Inv, Honest, Due, Audible, PlayGains, Sounds;
    OutputKeepsDue(c, r.st, avail, now, cb);
    CallHandsOverOneTrack(c, r.st, avail, now, cb);
    var o := Call(c, r.st, avail, now, cb);
    assert (r.heard + Audible(o.out)) + Due(c, o.st) == r.heard + (Audible(o.out) + Due(c, o.st));
  }

  lemma DecodedStaysRightIff(c: Config, r: Run, f: seq<Frame>)
    requires Inv(c, r.st) && Allowed(c, r.st, Decoded(f)) && Right(c, r) && Tied(c, r)
    ensures
      var t := Next(c, r, Decoded(f));
      Inv(c, t.st) && (Right(c, t) <==> Undisturbed(c, r, Decoded(f))) && (Right(c, t) ==> Tied(c, t))
  {
    hide Inv, Due, PlayGains;
    DecodedDue(c, r.st, f);
    NothingAudible();
    var n := Newest(r.st);
    var due, played, wanted := Due(c, r.st), Sounds(f, PlayGains(c, n), n), Sounds(f, PlayGains(c, r.own), r.own);
    assert r.heard + [] == r.heard;
    assert r.heard + (due + played) == r.owed + played;
    SameTail(r.owed, played, wanted);
    if f != [] {
      assert played[0].setup == n && wanted[0].setup == r.own;
    }
  }

  lemma SameTail<T>(a: seq<T>, b: seq<T>, c: seq<T>)
    ensures a + b == a + c <==> b == c
  {
    if a + b == a + c {
      assert b == (a + b)[|a|..] && c == (a + c)[|a|..];
    }
  }

  lemma StreamStartStaysRightIff(c: Config, r: Run, g: S32)
    requires Inv(c, r.st) && Right(c, r) && Tied(c, r)
    ensures
      var t := Next(c, r, StreamStart(g));
      Inv(c, t.st) && (Right(c, t) <==> Undisturbed(c, r, StreamStart(g))) && (Right(c, t) ==> Tied(c, t))
  {
    hide PlayGains;
    NothingAudible();
    var t := Next(c, r, StreamStart(g));
    assert t.heard == r.heard;
    SameTail(r.heard, Due(c, t.st), Due(c, r.st));
    if Behind(c, r.st) {
      var d := Distance(c, r.st);
      assert Due(c, r.st)[d].setup == r.st.next && Due(c, t.st)[d].setup == t.st.next;
    }
  }

  lemma NewTrackStaysRightIff(c: Config, r: Run, rate: nat, format: OutFormat)
    requires Inv(c, r.st) && Right(c, r) && Tied(c, r)
    ensures
      var t := Next(c, r, NewTrack(rate, format));
      Inv(c, t.st) && (Right(c, t) <==> Undisturbed(c, r, NewTrack(rate, format))) && Tied(c, t)
  {
    hide PlayGains;
    NothingAudible();
    var t := Next(c, r, NewTrack(rate, format));
    MarkedKeepsInv(c, r.st, rate, format);
    MarkedDue(c, r.st, rate, format);
    assert t.heard == r.heard;
    SameTail(r.heard, Due(c, t.st), Due(c, r.st));
    if Behind(c, r.st) {
      var d := Distance(c, r.st);
      assert Due(c, r.st)[d].setup == r.st.next && Due(c, t.st)[d].setup == r.st.cur;
    }
    DueOnCurrent(c, r.st);
  }

  /**
   * With nothing behind the mark, or the same terms on both sides of it, all that is buffered is due as it is
   * current.
   */
  lemma DueOnCurrent(c: Config, st: State)
    requires Inv(c, st)
    ensures !Behind(c, st) || st.next == st.cur ==> Due(c, st) == Sounds(st.frames, PlayGains(c, st.cur), st.cur)
  {
    hide PlayGains;
    if st.track.TrackAt? {
      var d := Distance(c, st);
      assert st.frames[..d] + st.frames[d..] == st.frames;
    }
  }

  lemma FlushStaysRight(c: Config, r: Run)
    requires Inv(c, r.st) && Right(c, r) && Tied(c, r)
    ensures
      var t := Next(c, r, FlushStreaming);
      Inv(c, t.st) && Right(c, t) && Tied(c, t)
  {
    hide PlayGains;
    NothingAudible();
    var t := Next(c, r, FlushStreaming);
    assert t.heard == r.heard;
    if r.st.track.TrackAt? {
      var d := Distance(c, r.st);
      Bounded(c, r.st);
      var front, back := Sounds(r.st.frames[..d], PlayGains(c, r.st.cur), r.st.cur),
        Sounds(r.st.frames[d..], PlayGains(c, r.st.next), r.st.next);
      assert t.st.frames == r.st.frames[..d];
      assert r.heard + (front + back) == (r.heard + front) + back;
      WithoutTail(r.heard + front, back);
    } else {
      assert t.st.frames == r.st.frames && t.owed == r.owed;
    }
  }

  lemma WithoutTail<T>(a: seq<T>, b: seq<T>)
    ensures Without(a + b, |b|) == a
  {}

  /** Exactly the undisturbed steps leave every frame on its own terms. */
  lemma StaysRightIff(c: Config, r: Run, step: Step)
    requires Inv(c, r.st) && Allowed(c, r.st, step) && Right(c, r) && Tied(c, r)
    ensures Inv(c, Next(c, r, step).st)
    ensures Right(c, Next(c, r, step)) <==> Undisturbed(c, r, step)
    ensures Right(c, Next(c, r, step)) ==> Tied(c, Next(c, r, step))
  {
    hide *;
    match step {
      case Output(avail, now, cb) => AllowedOutput(c, r, avail, now, cb); OutputStaysRight(c, r, avail, now, cb);
      case Decoded(f) => DecodedStaysRightIff(c, r, f);
      case StreamStart(g) => StreamStartStaysRightIff(c, r, g);
      case NewTrack(rate, format) => NewTrackStaysRightIff(c, r, rate, format);
      case FlushStreaming => FlushIsAllowed(c, r); FlushStaysRight(c, r);
    }
  }

  lemma AllowedOutput(c: Config, r: Run, avail: nat, now: nat, cb: Callback)
    requires Allowed(c, r.st, Output(avail, now, cb))
    ensures Honest(cb) && Undisturbed(c, r, Output(avail, now, cb))
  {}

  lemma FlushIsAllowed(c: Config, r: Run)
    ensures Undisturbed(c, r, FlushStreaming)
  {}

  // ---------------------------------------------------------------- any run

  /** The steps can follow one another. */
  ghost predicate Possible(c: Config, r: Run, steps: seq<Step>)
    requires Inv(c, r.st)
    decreases |steps|
  {
    steps == [] ||
    (Allowed(c, r.st, steps[0]) && Inv(c, Next(c, r, steps[0]).st) && Possible(c, Next(c, r, steps[0]), steps[1..]))
  }

  ghost function Final(c: Config, r: Run, steps: seq<Step>): (t: Run)
    requires Inv(c, r.st) && Possible(c, r, steps)
    decreases |steps|
    ensures Inv(c, t.st)
  {
    if steps == [] then r else Final(c, Next(c, r, steps[0]), steps[1..])
  }

  ghost predicate AlwaysRight(c: Config, r: Run, steps: seq<Step>)
    requires Inv(c, r.st) && Possible(c, r, steps)
    decreases |steps|
  {
    Right(c, r) && (steps == [] || AlwaysRight(c, Next(c, r, steps[0]), steps[1..]))
  }

  ghost predicate Calm(c: Config, r: Run, steps: seq<Step>)
    requires Inv(c, r.st) && Possible(c, r, steps)
    decreases |steps|
  {
    steps == [] || (Undisturbed(c, r, steps[0]) && Calm(c, Next(c, r, steps[0]), steps[1..]))
  }

  /**
   * Over any run, with any callbacks, commands, marks and frames: at every moment every frame was played, or is going
   * to be, at the rate, in the format and with the gain of the track it was decoded for, if and only if it is calm.
   */
  lemma {:induction false} OwnTermsIffCalm(c: Config, r: Run, steps: seq<Step>)
    requires Inv(c, r.st) && Possible(c, r, steps) && Right(c, r) && Tied(c, r)
    decreases |steps|
    ensures AlwaysRight(c, r, steps) <==> Calm(c, r, steps)
  {
    hide Inv, Right, Tied, Undisturbed, Allowed, Next;
    if steps != [] {
      StaysRightIff(c, r, steps[0]);
      if Right(c, Next(c, r, steps[0])) {
        OwnTermsIffCalm(c, Next(c, r, steps[0]), steps[1..]);
      } else {
        NotRight(c, Next(c, r, steps[0]), steps[1..]);
      }
    }
  }

  lemma NotRight(c: Config, r: Run, steps: seq<Step>)
    requires Inv(c, r.st) && Possible(c, r, steps) && !Right(c, r)
    ensures !AlwaysRight(c, r, steps)
  {}

  // ---------------------------------------------------------------- each frame once

  function FramesOf(out: seq<Event>): seq<Frame> {
    if out == [] then []
    else if out[0].Sound? then [out[0].frame] + FramesOf(out[1..])
    else FramesOf(out[1..])
  }

  lemma {:induction false} FramesAdd(a: seq<Event>, b: seq<Event>)
    ensures FramesOf(a + b) == FramesOf(a) + FramesOf(b)
  {
    if a == [] {
      assert a + b == b;
    } else {
      assert (a + b)[1..] == a[1..] + b;
      FramesAdd(a[1..], b);
    }
  }

  lemma {:induction false} FramesOfSounds(f: seq<Frame>, gains: Gains, setup: Setup)
    ensures FramesOf(Sounds(f, gains, setup)) == f
  {
    if f != [] {
      var s := Sounds(f, gains, setup);
      assert s[1..] == Sounds(f[1..], gains, setup);
      FramesOfSounds(f[1..], gains, setup);
    }
  }

  predicate AllSound(out: seq<Event>) {
    forall e | e in out :: e.Sound?
  }

  lemma {:induction false} FramesOfWithout(out: seq<Event>, n: nat)
    requires AllSound(out) && n <= |out|
    ensures |FramesOf(out)| == |out|
    ensures AllSound(Without(out, n)) && FramesOf(Without(out, n)) == Without(FramesOf(out), n)
  {
    if out != [] {
      assert out[0].Sound?;
      if n < |out| {
        FramesOfWithout(out[1..], n);
        assert Without(out, n)[1..] == Without(out[1..], n);
      } else {
        FramesOfWithout(out[1..], n - 1);
      }
    }
  }

  /** The frames heard and those buffered are all the frames there were and that were not dropped, in order. */
  ghost predicate Complete(r: Run) {
    AllSound(r.owed) && FramesOf(r.heard) + r.st.frames == FramesOf(r.owed)
  }

  lemma FreshIsComplete(c: Config, st: State)
    requires Inv(c, st)
    ensures Complete(Fresh(c, st))
  {
    hide PlayGains, FramesOf;
    FramesOfSounds([], PlayGains(c, st.cur), st.cur);
    assert Sounds([], PlayGains(c, st.cur), st.cur) == [];
    FramesOfSounds(st.frames, PlayGains(c, st.cur), st.cur);
    assert [] + st.frames == st.frames;
    if st.track.TrackAt? {
      var d := Distance(c, st);
      Bounded(c, st);
      var front, back := Sounds(st.frames[..d], PlayGains(c, st.cur), st.cur),
        Sounds(st.frames[d..], PlayGains(c, st.next), st.next);
      FramesOfSounds(st.frames[..d], PlayGains(c, st.cur), st.cur);
      FramesOfSounds(st.frames[d..], PlayGains(c, st.next), st.next);
      FramesAdd(front, back);
      assert st.frames[..d] + st.frames[d..] == st.frames;
    }
  }

  lemma OutputStaysComplete(c: Config, r: Run, avail: nat, now: nat, cb: Callback)
    requires Inv(c, r.st) && Honest(cb) && Complete(r)
    ensures Complete(Next(c, r, Output(avail, now, cb)))
  {
    hide Call, Returned, Inv, Honest, Audible, PlayGains, Sounds, FramesOf, Distance;
    CallHandsOverOneTrack(c, r.st, avail, now, cb);
    var o, n := Call(c, r.st, avail, now, cb), Returned(c, r.st, avail, now, cb);
    if Silenced(r.st, n, o) {
      AudibleSilences(n, r.st.cur);
      assert r.heard + [] == r.heard;
    } else {
      AudibleSounds(r.st.frames[..n], PlayGains(c, r.st.cur), r.st.cur);
      FramesOfSounds(r.st.frames[..n], PlayGains(c, r.st.cur), r.st.cur);
      FramesAdd(r.heard, Sounds(r.st.frames[..n], PlayGains(c, r.st.cur), r.st.cur));
      assert r.st.frames[..n] + r.st.frames[n..] == r.st.frames;
    }
  }

  lemma StepStaysComplete(c: Config, r: Run, step: Step)
    requires Inv(c, r.st) && Allowed(c, r.st, step) && Complete(r)
    ensures Complete(Next(c, r, step))
  {
    hide Call, Inv, Honest, Audible, PlayGains, FramesOf, Distance, Marked, Waiting;
    NothingAudible();
    assert r.heard + [] == r.heard;
    match step {
      case Output(avail, now, cb) => OutputStaysComplete(c, r, avail, now, cb);
      case Decoded(f) =>
        FramesOfSounds(f, PlayGains(c, r.own), r.own);
        FramesAdd(r.owed, Sounds(f, PlayGains(c, r.own), r.own));
      case StreamStart(_) =>
      case NewTrack(rate, format) => MarkedFrames(c, r.st, rate, format);
      case FlushStreaming =>
        var n := Waiting(c, r.st);
        WaitingFits(c, r.st);
        FramesOfWithout(r.owed, 0);
        FramesOfWithout(r.owed, n);
        assert Without(FramesOf(r.heard) + r.st.frames, n) == FramesOf(r.heard) + r.st.frames[..|r.st.frames| - n];
    }
  }

  lemma WaitingFits(c: Config, st: State)
    requires Inv(c, st)
    ensures Waiting(c, st) <= |st.frames|
  {}

  lemma MarkedFrames(c: Config, st: State, rate: nat, format: OutFormat)
    requires Inv(c, st)
    ensures Marked(c, st, rate, format).frames == st.frames
  {}

  /** Over any run, calm or not, every frame that is not dropped is played once and in order. */
  lemma {:induction false} EveryFrameOnce(c: Config, r: Run, steps: seq<Step>)
    requires Inv(c, r.st) && Possible(c, r, steps) && Complete(r)
    decreases |steps|
    ensures Complete(Final(c, r, steps))
  {
    hide Inv, Complete, Allowed, Next;
    if steps != [] {
      StepStaysComplete(c, r, steps[0]);
      EveryFrameOnce(c, Next(c, r, steps[0]), steps[1..]);
    }
  }

  // ---------------------------------------------------------------- a lost mark

  const SLOW := Setup(44100, PCM, 0)
  const FAST := Setup(96000, PCM, 0)

  /** A ring of eight frames with x of a track at 44.1 kHz in it, which is playing. */
  function Playing(x: Frame): State {
    State(Running, 0, [x], NoTrack, SLOW, SLOW, false, 0, 0, false, 0)
  }

  /** Both frames go out in one write, the mark being behind them. */
  lemma PlaysBoth(c: Config, st: State, cb: Callback)
    requires c.size == 8 && Honest(cb) && cb(0, 2) == 2
    requires st.mode == Running && st.readp == 0 && |st.frames| == 2 && st.track == TrackAt(2) && Inv(c, st)
    ensures Call(c, st, 2, 0, cb).out == Sounds(st.frames, PlayGains(c, st.cur), st.cur)
    ensures Call(c, st, 2, 0, cb).st.frames == []
  {
    hide Written, Call, Returned, Honest, PlayGains, CallGains, LoopGains, Sounds;
    CallIs(c, st, 2, 0, cb);
    var gains := CallGains(c, st.cur.replayGain);
    var wrote := SoundWritten(c, st, 2, gains, 0, cb, 0);
    NothingToWrite(c, Consumed(c, st, wrote), false, LoopGains(st, gains), 0, cb, 1);
    GainsOfCall(c, st, st);
    assert st.frames[..2] == st.frames && st.frames[2..] == [];
    var all := Sounds(st.frames, LoopGains(st, gains), st.cur);
    assert all + [] == all;
  }

  lemma Unroll(c: Config, r: Run, step: Step, rest: seq<Step>)
    requires Inv(c, r.st) && Allowed(c, r.st, step)
    requires Inv(c, Next(c, r, step).st) && Possible(c, Next(c, r, step), rest)
    ensures Possible(c, r, [step] + rest) && Final(c, r, [step] + rest) == Final(c, Next(c, r, step), rest)
  {
    assert ([step] + rest)[1..] == rest;
  }

  /**
   * A track of one frame y at 96 kHz is decoded and the next one marked before its own start was reached: y is played
   * at 44.1 kHz.
   */
  lemma LostMark(c: Config, x: Frame, y: Frame, cb: Callback)
    requires c.size == 8 && Honest(cb) && cb(0, 2) == 2
    ensures
      var r, run := Fresh(c, Playing(x)), [NewTrack(96000, PCM), Decoded([y]), NewTrack(44100, PCM), Output(2, 0, cb)];
      var g := PlayGains(c, SLOW);
      Possible(c, r, run)
      && Final(c, r, run).heard == [Sound(x, g, SLOW), Sound(y, g, SLOW)]
      && Final(c, r, run).owed == [Sound(x, g, SLOW), Sound(y, PlayGains(c, FAST), FAST)]
  {
    hide Honest, Call, PlayGains, Possible, Final, Audible;
    NothingAudible();
    var r0 := Fresh(c, Playing(x));
    var r1 := Next(c, r0, NewTrack(96000, PCM));
    var r2 := Next(c, r1, Decoded([y]));
    var r3 := Next(c, r2, NewTrack(44100, PCM));
    var g := PlayGains(c, SLOW);
    assert [x] + [y] == [x, y] && Sounds([x, y], g, SLOW) == [Sound(x, g, SLOW), Sound(y, g, SLOW)];
    assert r3.owed == [Sound(x, g, SLOW), Sound(y, PlayGains(c, FAST), FAST)] && r3.heard == [];
    assert r3.st.frames == [x, y] && r3.st.track == TrackAt(2);
    PlaysBoth(c, r3.st, cb);
    AudibleSounds([x, y], g, SLOW);
    CallHandsOverOneTrack(c, r3.st, 2, 0, cb);
    LostAtLast(c, r3, cb);
    Unroll(c, r2, NewTrack(44100, PCM), [Output(2, 0, cb)]);
    Unroll(c, r1, Decoded([y]), [NewTrack(44100, PCM)] + [Output(2, 0, cb)]);
    Unroll(c, r0, NewTrack(96000, PCM), [Decoded([y])] + ([NewTrack(44100, PCM)] + [Output(2, 0, cb)]));
    assert [NewTrack(96000, PCM)] + ([Decoded([y])] + ([NewTrack(44100, PCM)] + [Output(2, 0, cb)]))
      == [NewTrack(96000, PCM), Decoded([y]), NewTrack(44100, PCM), Output(2, 0, cb)];
  }

  lemma LostAtLast(c: Config, r: Run, cb: Callback)
    requires Inv(c, r.st) && Honest(cb) && Inv(c, Call(c, r.st, 2, 0, cb).st)
    ensures Possible(c, r, [Output(2, 0, cb)])
    ensures Final(c, r, [Output(2, 0, cb)]) == Next(c, r, Output(2, 0, cb))
  {
    hide Call, Inv, Honest;
    Unroll(c, r, Output(2, 0, cb), []);
    assert [Output(2, 0, cb)] + [] == [Output(2, 0, cb)];
  }
}
