/** Whole runs of the output: calls with any callback, between which the decoder adds frames and tracks. */
module SchedulerRuns {
  import opened Samples
  import opened Pack
  import opened Scheduler
  import opened SchedulerSafety

  /** What reaches `output` between two calls of `_output_frames`, or such a call. */
  datatype Step =
    | Output(avail: nat, now: nat, callback: Callback)
    | Decoded(decoded: seq<Frame>)
    | StreamStart(replayGain: S32)                 // command 's' sets the gain of the track to come
    | NewTrack(rate: nat, format: OutFormat)       // a decoder sets its track's rate and format, and marks its start
    | FlushStreaming                               // command 'f' drops the track that waits for its start

  /** Callbacks take no more than they are offered, and the decoder writes only what fits. */
  ghost predicate Allowed(c: Config, st: State, step: Step) {
    match step
    case Output(_, _, cb) => Honest(cb)
    case Decoded(f) => |st.frames| + |f| < c.size
    case _ => true
  }

  /** Where the decoder writes next. */
  ghost function Writep(c: Config, st: State): nat
    requires Inv(c, st)
  {
    if st.readp + |st.frames| < c.size then st.readp + |st.frames| else st.readp + |st.frames| - c.size
  }

  /** A mark replaces the one before it, taken or not. */
  ghost function Marked(c: Config, st: State, rate: nat, format: OutFormat): State
    requires Inv(c, st)
  {
    st.(track := TrackAt(Writep(c, st)), next := st.next.(rate := rate, format := format))
  }

  /** How many frames wait behind the mark. */
  ghost function Waiting(c: Config, st: State): nat
    requires Inv(c, st)
  {
    if st.track.TrackAt? then |st.frames| - Distance(c, st) else 0
  }

  ghost function After(c: Config, st: State, step: Step): State
    requires Inv(c, st) && Allowed(c, st, step)
  {
    match step
    case Output(avail, now, cb) => Call(c, st, avail, now, cb).st
    case Decoded(f) => st.(frames := st.frames + f)
    case StreamStart(g) => st.(next := st.next.(replayGain := g))
    case NewTrack(rate, format) => Marked(c, st, rate, format)
    case FlushStreaming => st.(track := NoTrack, frames := st.frames[..|st.frames| - Waiting(c, st)])
  }

  ghost function Heard(c: Config, st: State, step: Step): seq<Event>
    requires Inv(c, st) && Allowed(c, st, step)
  {
    match step
    case Output(avail, now, cb) => Call(c, st, avail, now, cb).out
    case _ => []
  }

  /** What a frame decoded now is played with, as things stand: the setup of the newest track. */
  function Newest(st: State): Setup {
    if st.track.TrackAt? then st.next else st.cur
  }

  /**
   * Every buffered frame as it is going to be played: before the track mark with the current setup, after it the
   * next.
   */
  ghost function Due(c: Config, st: State): seq<Event>
    requires Inv(c, st)
  {
    if st.track.TrackAt? then
      var d := Distance(c, st);
      Sounds(st.frames[..d], PlayGains(c, st.cur), st.cur) + Sounds(st.frames[d..], PlayGains(c, st.next), st.next)
    else Sounds(st.frames, PlayGains(c, st.cur), st.cur)
  }

  /** The frames of a stretch of output that are not silence. */
  function Audible(out: seq<Event>): seq<Event> {
    if out == [] then []
    else if out[0].Sound? then [out[0]] + Audible(out[1..])
    else Audible(out[1..])
  }

  lemma {:induction false} AudibleAdds(a: seq<Event>, b: seq<Event>)
    ensures Audible(a + b) == Audible(a) + Audible(b)
  {
    if a == [] {
      assert a + b == b;
    } else {
      assert (a + b)[1..] == a[1..] + b;
      AudibleAdds(a[1..], b);
    }
  }

  lemma {:induction false} AudibleSilences(n: nat, setup: Setup)
    ensures Audible(Silences(n, setup)) == []
  {
    if n > 0 {
      assert Silences(n, setup)[1..] == Silences(n - 1, setup);
      AudibleSilences(n - 1, setup);
    }
  }

  lemma {:induction false} AudibleSounds(f: seq<Frame>, gains: Gains, setup: Setup)
    ensures Audible(Sounds(f, gains, setup)) == Sounds(f, gains, setup)
  {
    var s := Sounds(f, gains, setup);
    if f != [] {
      assert s[1..] == Sounds(f[1..], gains, setup);
      AudibleSounds(f[1..], gains, setup);
      assert s == [s[0]] + s[1..];
    }
  }

  lemma NothingAudible()
    ensures Audible([]) == []
  {}

  // ---------------------------------------------------------------- one step

  lemma OutputKeepsDue(c: Config, st: State, avail: nat, now: nat, cb: Callback)
    requires Inv(c, st) && Honest(cb)
    ensures
      var o := Call(c, st, avail, now, cb);
      Inv(c, o.st) && Audible(o.out) + Due(c, o.st) == Due(c, st)
  {
    hide Call, Returned, Inv, Honest, Due, Audible, Distance;
    CallHandsOverOneTrack(c, st, avail, now, cb);
    var o, n := Call(c, st, avail, now, cb), Returned(c, st, avail, now, cb);
    if Silenced(st, n, o) {
      AudibleSilences(n, st.cur);
      SameDue(c, st, o.st);
    } else {
      AudibleSounds(st.frames[..n], PlayGains(c, st.cur), st.cur);
      SoundedDue(c, st, n, o);
    }
  }

  lemma SameDue(c: Config, st: State, s: State)
    requires Inv(c, st) && Inv(c, s)
    requires s.frames == st.frames && s.track == st.track && s.cur == st.cur && s.next == st.next && s.readp == st.readp
    ensures Due(c, s) == Due(c, st)
  {}

  /** The distance to the mark shrinks by what was played. */
  lemma SoundedDue(c: Config, st: State, n: int, o: Outcome)
    requires Inv(c, st) && Inv(c, o.st) && Sounded(c, st, n, o)
    ensures Sounds(st.frames[..n], PlayGains(c, st.cur), st.cur) + Due(c, o.st) == Due(c, st)
  {
    hide Inv, PlayGains;
    if st.track.TrackAt? {
      var d := Distance(c, st);
      Bounded(c, st);
      SoundsAdd(st.frames, n, d - n, PlayGains(c, st.cur), st.cur);
    } else {
      SoundsAdd(st.frames, n, |st.frames| - n, PlayGains(c, st.cur), st.cur);
      assert st.frames[n..][..|st.frames| - n] == st.frames[n..] && st.frames[..|st.frames|] == st.frames;
    }
  }

  lemma Bounded(c: Config, st: State)
    requires Inv(c, st) && st.track.TrackAt?
    ensures 0 <= Distance(c, st) <= |st.frames|
  {}

  lemma DecodedDue(c: Config, st: State, f: seq<Frame>)
    requires Inv(c, st) && |st.frames| + |f| < c.size
    ensures Inv(c, st.(frames := st.frames + f))
    ensures Due(c, st.(frames := st.frames + f)) == Due(c, st) + Sounds(f, PlayGains(c, Newest(st)), Newest(st))
  {
    hide PlayGains;
    var s := st.(frames := st.frames + f);
    if st.track.TrackAt? {
      var d := Distance(c, st);
      assert s.frames[..d] == st.frames[..d] && s.frames[d..] == st.frames[d..] + f;
    }
  }

  lemma MarkedKeepsInv(c: Config, st: State, rate: nat, format: OutFormat)
    requires Inv(c, st)
    ensures Inv(c, Marked(c, st, rate, format)) && Distance(c, Marked(c, st, rate, format)) == |st.frames|
  {}

  /** After a new mark all that is buffered is played with the current setup. */
  lemma MarkedDue(c: Config, st: State, rate: nat, format: OutFormat)
    requires Inv(c, st) && Inv(c, Marked(c, st, rate, format))
    ensures Due(c, Marked(c, st, rate, format)) == Sounds(st.frames, PlayGains(c, st.cur), st.cur)
  {
    hide PlayGains;
    MarkedKeepsInv(c, st, rate, format);
    assert st.frames[..|st.frames|] == st.frames;
  }

  lemma StepKeepsInv(c: Config, st: State, step: Step)
    requires Inv(c, st) && Allowed(c, st, step)
    ensures Inv(c, After(c, st, step))
  {
    hide Call, Honest, Due, Marked;
    match step {
      case Output(avail, now, cb) => OutputKeepsDue(c, st, avail, now, cb);
      case Decoded(f) => DecodedDue(c, st, f);
      case StreamStart(_) =>
      case NewTrack(rate, format) => MarkedKeepsInv(c, st, rate, format);
      case FlushStreaming =>
    }
  }
}
