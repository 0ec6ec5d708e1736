/** `_output_frames` as it runs, against the scheduler's function of the state. */
module Output {
  import opened Machine
  import opened Pack
  import opened Samples
  import opened Scheduler
  import opened SchedulerSafety

  function Prepended(events: seq<Event>, o: Outcome): Outcome {
    o.(out := events + o.out)
  }

  lemma PrependedTwice(a: seq<Event>, b: seq<Event>, o: Outcome)
    ensures Prepended(a, Prepended(b, o)) == Prepended(a + b, o)
    ensures Prepended([], o) == o
  {
    assert a + (b + o.out) == (a + b) + o.out;
  }

  lemma StoppedWith(out: seq<Event>, st: State, start: bool, left: nat)
    ensures Prepended(out, Outcome(st, [], start, left)) == Outcome(st, out, start, left)
  {
    assert out + [] == out;
  }

  class Output {
    var mode: Mode
    var readp: nat
    var frames: seq<Frame>
    var track: Track
    var cur: Setup
    var next: Setup
    var delayActive: bool
    var wait: nat
    var played: nat
    var started: bool
    var startTime: nat

    constructor (st: State)
      ensures View() == st
    {
      mode, readp, frames, track, cur, next := st.mode, st.readp, st.frames, st.track, st.cur, st.next;
      delayActive, wait, played, started, startTime := st.delayActive, st.wait, st.played, st.started, st.startTime;
    }

    function View(): State
      reads this
    {
      State(mode, readp, frames, track, cur, next, delayActive, wait, played, started, startTime)
    }

    /** The state selection at the head of `_output_frames`. */
    method Choose(c: Config, avail: nat, now: nat) returns (silence: bool, n: nat)
      modifies this
      ensures old(Chosen(c, View(), avail, now)) == Choice(View(), silence, n)
    {
      hide U32;
      n := |frames|;
      silence := false;
      if mode == Buffering && n > U32(c.threshold * next.rate) / 10 && n > c.startFrames {
        mode := Running;
      }
      if mode == PauseFrames {
        if wait == 0 {
          mode := Running;
        } else {
          silence := true;
          n := Min(avail, wait);
          n := Min(n, MAX_SILENCE_FRAMES);
          wait := wait - n;
        }
      }
      if mode == StartAt {
        if now >= wait || wait > U32(now + 10000) {
          mode := Running;
        } else {
          var delta := U32((wait - now) * cur.rate) / 1000;
          silence := true;
          n := Min(avail, delta);
          n := Min(n, MAX_SILENCE_FRAMES);
        }
      }
      if mode == Off || mode == Stopped || mode == Buffering || n == 0 {
        silence := true;
        n := Min(avail, MAX_SILENCE_FRAMES);
      }
      n := Min(n, avail);
    }

    method StartOfTrack(c: Config, now: nat) returns (start: bool)
      modifies this
      ensures View() == old(StartTrack(c, View(), now)) && start == old(!FirstHalf(c, View()))
    {
      var delay := 0;
      if cur.rate != next.rate {
        delay := c.rateDelay;
      }
      if cur.format != next.format {
        delay := c.dsdDelay;
      }
      if delay > 0 {
        mode := PauseFrames;
        if !delayActive {
          wait := U32(cur.rate * delay) / 2000;
          delayActive := true;
          return false;
        }
        wait := U32(next.rate * delay) / 2000;
        delayActive := false;
      }
      played := 0;
      started := true;
      startTime := now;
      cur := next;
      track := NoTrack;
      return true;
    }

    /** `_buf_inc_readp` and the count of frames played */
    method Consume(c: Config, n: nat)
      requires n <= |frames|
      modifies this
      ensures View() == old(Consumed(c, View(), n)) && |frames| == old(|frames|) - n
    {
      readp := if readp + n == c.size then 0 else readp + n;
      frames := frames[n..];
      played := U32(played + n);
    }

    /** One turn of the write loop: a track start, a refusal, or `wrote` frames taken by the callback. */
    method WriteOnce(c: Config, size: nat, silence: bool, gains: Gains, now: nat, cb: Callback, k: nat)
      returns (wrote: nat, start: bool, events: seq<Event>, gains': Gains)
      requires Inv(c, View()) && Honest(cb) && 0 < size && (silence || size <= |frames|)
      modifies this
      ensures wrote <= size && Inv(c, View()) && (silence || size - wrote <= |frames|)
      ensures wrote == 0 ==>
        old(Written(c, View(), size, silence, gains, now, cb, k)) == Outcome(View(), [], start, size) && events == []
      ensures wrote > 0 ==> !start
      ensures wrote > 0 ==>
        old(Written(c, View(), size, silence, gains, now, cb, k))
        == Prepended(events, Written(c, View(), size - wrote, silence, gains', now, cb, k + 1))
    {
      hide StartTrack, Inv, Honest, FirstHalf, Written, Consumed, Sounds, Silences;
      ghost var st := View();
      wrote, start, events, gains' := 0, false, [], gains;
      if track.TrackAt? && !silence && track.at == readp {
        AtStart(c, st, size, gains, now, cb, k);
        StartKeepsInv(c, st, now);
        start := StartOfTrack(c, now);
        return;
      }
      var cont := if |frames| < c.size - readp then |frames| else c.size - readp;
      if track.TrackAt? && !silence && track.at > readp {
        cont := if cont < track.at - readp then cont else track.at - readp;
      }
      if cur.format != PCM {
        gains' := Gains(FIXED_ONE, FIXED_ONE);
      }
      var offered := if !silence && cont < size then cont else size;
      if !silence {
        OfferedFits(c, st, size);
      }
      var taken := cb(k, offered);
      if taken <= 0 {
        Refused(c, st, size, silence, gains, now, cb, k);
        return;
      }
      wrote := taken;
      if silence {
        SilenceWritten(c, st, size, gains, now, cb, k);
        events := Silences(wrote, cur);
      } else {
        var _ := SoundWritten(c, st, size, gains, now, cb, k);
        events := Sounds(frames[..wrote], gains', cur);
        Consume(c, wrote);
      }
    }

    method OutputFrames(c: Config, avail: nat, now: nat, cb: Callback) returns (returned: nat, out: seq<Event>)
      requires Inv(c, View()) && Honest(cb)
      modifies this
      ensures View() == old(Call(c, View(), avail, now, cb)).st
      ensures out == Trace(old(Call(c, View(), avail, now, cb)))
      ensures returned == old(Returned(c, View(), avail, now, cb))
    {
      hide Chosen, Inv, Honest, CallGains, Written, Call, Returned, Prepended;
      CallIs(c, View(), avail, now, cb);
      ghost var o := Call(c, View(), avail, now, cb);
      var gains := CallGains(c, cur.replayGain);
      var silence, n := Choose(c, avail, now);
      var size, k := n, 0;
      out := [];
      PrependedTwice([], [], o);
      while size > 0
        invariant Inv(c, View()) && 0 <= size <= n && (silence || size <= |frames|)
        invariant
          o == Prepended(out, Written(c, View(), size, silence, gains, now, cb, k))
      {
        var wrote, start, events, gains' := WriteOnce(c, size, silence, gains, now, cb, k);
        if wrote == 0 {
          StoppedWith(out, View(), start, size);
          out := if start then out + [TrackStart(cur)] else out;
          return n - size, out;
        }
        PrependedTwice(out, events, Written(c, View(), size - wrote, silence, gains', now, cb, k + 1));
        out, gains, size, k := out + events, gains', size - wrote, k + 1;
      }
      NothingToWrite(c, View(), silence, gains, now, cb, k);
      StoppedWith(out, View(), false, 0);
      return n, out;
    }
  }
}
