/** `_output_frames` (output.c) as a function of the output state, one write call at a time. */
module Scheduler {
  import opened Samples
  import opened Machine
  import opened Pack

  const MAX_SILENCE_FRAMES: nat := 2048

  function Min(a: nat, b: nat): nat {
    if a < b then a else b
  }

  /** `output.state`, without the skip-ahead state. */
  datatype Mode = Off | Stopped | Buffering | Running | PauseFrames | StartAt

  datatype OutFormat = PCM | DOP | DSD_U8 | DSD_U16_LE | DSD_U32_LE | DSD_U16_BE | DSD_U32_BE

  /** What changes with a track: sample rate, output format and replay gain. */
  datatype Setup = Setup(rate: nat, format: OutFormat, replayGain: S32)

  /** What `_output_frames` reads and does not change. Sizes are in frames. */
  datatype Config = Config(
    size: nat, rateDelay: nat, dsdDelay: nat, threshold: nat, startFrames: nat,
    volumeL: S32, volumeR: S32, invert: bool, managed: bool)

  /**
   * `frames` are the frames held by the ring, `readp` and `track` are places in it, and `wait` is the union of
   * pause_frames and start_at.
   */
  datatype State = State(
    mode: Mode, readp: nat, frames: seq<Frame>, track: Track, cur: Setup, next: Setup,
    delayActive: bool, wait: nat, played: nat, started: bool, startTime: nat)

  datatype Track = NoTrack | TrackAt(at: nat)

  datatype Gains = Gains(left: S32, right: S32)

  /** A frame handed to the write callback, with the output's rate and format at that moment. */
  datatype Event =
    | Silence(setup: Setup)
    | Sound(frame: Frame, gains: Gains, setup: Setup)
    | TrackStart(to: Setup)

  /** The k-th write call of one `_output_frames`, offered n frames, returns callback(k, n). */
  type Callback = (nat, nat) -> int

  ghost predicate Honest(cb: Callback) {
    forall k, n :: cb(k, n) <= n
  }

  // ---------------------------------------------------------------- before the loop

  function Negated(x: S32): S32 {
    if x == MIN_S32 then x else -x
  }

  function VolumeGain(c: Config, volume: S32, replayGain: S32): S32 {
    var replay: S32 := if c.managed then 0 else replayGain;
    var g := if replay != 0 then Gain(volume, replay) else volume;
    if c.invert then Negated(g) else g
  }

  function CallGains(c: Config, replayGain: S32): Gains {
    Gains(VolumeGain(c, c.volumeL, replayGain), VolumeGain(c, c.volumeR, replayGain))
  }

  /** State, silence or not, and number of frames to write. */
  datatype Choice = Choice(st: State, silence: bool, size: nat)

  function Started(c: Config, st: State): State {
    if st.mode == Buffering && |st.frames| > U32(c.threshold * st.next.rate) / 10 && |st.frames| > c.startFrames
    then st.(mode := Running) else st
  }

  function Waited(st: State, avail: nat, now: nat): Choice {
    if st.mode == PauseFrames then
      if st.wait == 0 then Choice(st.(mode := Running), false, |st.frames|)
      else
        var n := Min(Min(avail, st.wait), MAX_SILENCE_FRAMES);
        Choice(st.(wait := st.wait - n), true, n)
    else if st.mode == StartAt then
      if now >= st.wait || st.wait > U32(now + 10000) then Choice(st.(mode := Running), false, |st.frames|)
      else Choice(st, true, Min(Min(avail, U32((st.wait - now) * st.cur.rate) / 1000), MAX_SILENCE_FRAMES))
    else Choice(st, false, |st.frames|)
  }

  function Chosen(c: Config, st: State, avail: nat, now: nat): Choice {
    var w := Waited(Started(c, st), avail, now);
    if w.st.mode == Off || w.st.mode == Stopped || w.st.mode == Buffering || w.size == 0
    then Choice(w.st, true, Min(avail, MAX_SILENCE_FRAMES))
    else Choice(w.st, w.silence, Min(w.size, avail))
  }

  // ---------------------------------------------------------------- the loop

  /** What a call has done: the frames handed over, whether a track start was processed, frames left to write. */
  datatype Outcome = Outcome(st: State, out: seq<Event>, start: bool, left: nat)

  /** Events of an outcome in order; a track start ends a call. */
  function Trace(o: Outcome): seq<Event> {
    if o.start then o.out + [TrackStart(o.st.cur)] else o.out
  }

  ghost predicate Inv(c: Config, st: State) {
    st.readp < c.size && |st.frames| < c.size
    && (st.track.TrackAt? ==> st.track.at < c.size && Distance(c, st) <= |st.frames|)
  }

  /** Frames of the current track still in the ring. */
  function Distance(c: Config, st: State): int
    requires st.track.TrackAt?
  {
    if st.track.at >= st.readp then st.track.at - st.readp else st.track.at + c.size - st.readp
  }

  function ContFrames(c: Config, st: State): int {
    var n := if |st.frames| < c.size - st.readp then |st.frames| else c.size - st.readp;
    if st.track.TrackAt? && st.track.at > st.readp && st.track.at - st.readp < n then st.track.at - st.readp else n
  }

  function Delay(c: Config, st: State): nat {
    if st.cur.format != st.next.format then c.dsdDelay
    else if st.cur.rate != st.next.rate then c.rateDelay
    else 0
  }

  /** Half of a delay of so many milliseconds, in frames. */
  function HalfDelay(rate: nat, delay: nat): nat {
    U32(rate * delay) / 2000
  }

  function AtTrackStart(st: State): bool {
    st.track.TrackAt? && st.track.at == st.readp
  }

  /** The first time with a delay, only the first half of it is set up; otherwise the track start is processed. */
  function FirstHalf(c: Config, st: State): bool {
    Delay(c, st) > 0 && !st.delayActive
  }

  function StartTrack(c: Config, st: State, now: nat): State {
    var delay := Delay(c, st);
    if FirstHalf(c, st) then
      st.(mode := PauseFrames, wait := HalfDelay(st.cur.rate, delay), delayActive := true)
    else
      var s := if delay > 0 then
        st.(mode := PauseFrames, wait := HalfDelay(st.next.rate, delay), delayActive := false) else st;
      s.(played := 0, started := true, startTime := now, cur := st.next, track := NoTrack)
  }

  function Consumed(c: Config, st: State, n: nat): State
    requires n <= |st.frames|
  {
    st.(readp := if st.readp + n == c.size then 0 else st.readp + n,
        frames := st.frames[n..], played := U32(st.played + n))
  }

  /** The gains in force: those computed at the start of the call, or unity for anything but PCM. */
  function LoopGains(st: State, gains: Gains): Gains {
    if st.cur.format != PCM then Gains(FIXED_ONE, FIXED_ONE) else gains
  }

  function Silences(n: nat, setup: Setup): (s: seq<Event>)
    ensures |s| == n
  {
    seq(n, _ => Silence(setup))
  }

  function Sounds(frames: seq<Frame>, gains: Gains, setup: Setup): (s: seq<Event>)
    ensures |s| == |frames|
  {
    seq(|frames|, i requires 0 <= i < |frames| => Sound(frames[i], gains, setup))
  }

  function Offered(c: Config, st: State, size: nat, silence: bool): int {
    if silence || size <= ContFrames(c, st) then size else ContFrames(c, st)
  }

  lemma OfferedFits(c: Config, st: State, size: nat)
    requires Inv(c, st) && 0 < size <= |st.frames| && !AtTrackStart(st)
    ensures 0 < Offered(c, st, size, false) <= size && st.readp + Offered(c, st, size, false) <= c.size
    ensures st.track.TrackAt? ==> Offered(c, st, size, false) <= Distance(c, st)
  {}

  lemma ConsumedKeepsInv(c: Config, st: State, n: nat)
    requires Inv(c, st) && n <= |st.frames| && st.readp + n <= c.size
    requires st.track.TrackAt? ==> n <= Distance(c, st) && (st.track.at > st.readp ==> n <= st.track.at - st.readp)
    requires AtTrackStart(st) ==> n == 0
    ensures Inv(c, Consumed(c, st, n))
    ensures st.track.TrackAt? ==> Distance(c, Consumed(c, st, n)) == Distance(c, st) - n
  {}

  /** The write loop from `size` frames to go, its next write call being the k-th. */
  ghost function Written(c: Config, st: State, size: nat, silence: bool, gains: Gains, now: nat, cb: Callback,
      k: nat): Outcome
    requires Inv(c, st) && Honest(cb) && (silence || size <= |st.frames|)
    decreases size
  {
    if size == 0 then Outcome(st, [], false, 0)
    else if !silence && AtTrackStart(st) then
      Outcome(StartTrack(c, st, now), [], !FirstHalf(c, st), size)
    else
      assert !silence ==> 0 < Offered(c, st, size, false) <= size by {
        if !silence { OfferedFits(c, st, size); }
      }
      var wrote := cb(k, Offered(c, st, size, silence));
      if wrote <= 0 then Outcome(st, [], false, size)
      else if silence then
        var rest := Written(c, st, size - wrote, true, LoopGains(st, gains), now, cb, k + 1);
        rest.(out := Silences(wrote, st.cur) + rest.out)
      else
        assert Inv(c, Consumed(c, st, wrote)) by {
          OfferedFits(c, st, size);
          ConsumedKeepsInv(c, st, wrote);
        }
        var rest := Written(c, Consumed(c, st, wrote), size - wrote, false, LoopGains(st, gains), now, cb, k + 1);
        rest.(out := Sounds(st.frames[..wrote], LoopGains(st, gains), st.cur) + rest.out)
  }

  /** One call of `_output_frames`. */
  ghost function Call(c: Config, st: State, avail: nat, now: nat, cb: Callback): Outcome
    requires Inv(c, st) && Honest(cb)
  {
    var ch := Chosen(c, st, avail, now);
    Written(c, ch.st, ch.size, ch.silence, CallGains(c, st.cur.replayGain), now, cb, 0)
  }

  /** The number it returns. */
  ghost function Returned(c: Config, st: State, avail: nat, now: nat, cb: Callback): int
    requires Inv(c, st) && Honest(cb)
  {
    Chosen(c, st, avail, now).size - Call(c, st, avail, now, cb).left
  }
}
