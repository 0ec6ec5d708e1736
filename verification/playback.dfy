/**
 * The controller of slimproto.c and the decode thread of decode.c over the shared decode state. A step is one
 * critical section: what a thread does while it holds the stream, decode or output mutex.
 */
module Playback {

  datatype Decode = DStopped | DReady | DRunning | DComplete | DError

  datatype Stream = Stopped | Disconnect | Wait | Buffering | File | Http | SendHeaders | RecvHeaders

  datatype Output = OOff | OStopped | OBuffer | ORunning | OPauseFrames | OSkipFrames | OStartAt

  /** What is logged: the state changes the properties count, and the status messages. */
  datatype Event = Opened | Reset | Started | Completed | Failed | STMd | STMn | STMl | STMu | STMo

  /** Where the controller is: between packets, between the two halves of command 's', or inside a pass. */
  datatype Controller =
    | CIdle
    | COpened(local: bool, reachable: bool)
    | CStream(status: Stream, disconnectOk: bool)
    | CDecode(status: Stream, start: bool, decode: Decode)

  datatype State = State(
    decode: Decode,
    codec: bool,
    autostart: int,
    stream: Stream,
    output: Output,
    outputEmpty: bool,
    sentL: bool, sentU: bool, sentO: bool,
    controller: Controller,
    log: seq<Event>)

  const INITIAL := State(DStopped, false, 0, Stopped, OStopped, true, false, false, false, CIdle, [])

  datatype Action =
    // command 's' up to codec_open; a header that is too long, or an unknown codec that cannot wait, ends it there
    | StreamStart(autostart: int, tooLong: bool, known: bool, found: bool, local: bool, reachable: bool)
    | StreamConnect                          // the rest of command 's'
    | Cont
    | Codc(found: bool)
    | Flush                                  // commands 'q' and 'f'
    | PassStream(disconnectOk: bool)         // the pass holding the stream mutex
    | PassDecode                             // ... the decode mutex
    | PassOutput(idle: bool)                 // ... the output mutex
    | DecodeBlock(result: Decode)            // decode_thread holding the decode mutex
    | StreamMoves(to: Stream)                // the stream thread and server commands
    | OutputMoves(output: Output, drained: bool) // the output thread and server commands

  predicate Enabled(s: State, a: Action) {
    match a
    case StreamStart(_, _, _, _, _, _) => s.controller.CIdle?
    case StreamConnect => s.controller.COpened?
    case Cont => s.controller.CIdle?
    case Codc(_) => s.controller.CIdle?
    case Flush => s.controller.CIdle?
    case PassStream(_) => s.controller.CIdle?
    case PassDecode => s.controller.CStream?
    case PassOutput(_) => s.controller.CDecode?
    case DecodeBlock(result) => s.decode.DRunning? && s.codec
        && (result.DRunning? || result.DComplete? || result.DError?)
    case StreamMoves(_) => true
    case OutputMoves(_, _) => true
  }

  /** `codec_open` */
  function CodecOpen(s: State, found: bool): State {
    s.(decode := if found then DReady else DStopped, codec := s.codec || found, log := s.log + [Opened])
  }

  predicate Playing(status: Stream, disconnectOk: bool) {
    status.Http? || status.File? || (status.Disconnect? && disconnectOk)
  }

  predicate MayStart(s: State, status: Stream, disconnectOk: bool) {
    Playing(status, disconnectOk) && !s.sentL && s.decode.DReady?
  }

  /** A ready decoder is started, unless the server still has to send 'cont' (autostart 2 and 3). */
  function StartReady(s: State, may: bool): State {
    if may && s.autostart == 0 then s.(decode := DRunning, sentL := true, log := s.log + [Started] + [STMl])
    else if may && s.autostart == 1 then s.(decode := DRunning, log := s.log + [Started])
    else s
  }

  /** A decoder that has ended is reported. */
  function CollectEnd(s: State): State {
    if s.decode.DComplete? then s.(decode := DStopped, log := s.log + [STMd])
    else if s.decode.DError? then s.(decode := DStopped, log := s.log + [STMn])
    else s
  }

  /** What is logged of a decoded block: the end of the stream, whether good or bad. */
  function Ended(result: Decode): seq<Event> {
    match result
    case DComplete => [Completed]
    case DError => [Failed]
    case _ => []
  }

  /** The part of the pass under the decode mutex. */
  function OnDecode(s: State, status: Stream, disconnectOk: bool): State {
    var may := MayStart(s, status, disconnectOk);
    var t := CollectEnd(StartReady(s, may));
    t.(controller := CDecode(status, may && s.autostart == 1, t.decode))
  }

  /** The output has run dry with nothing more to come. */
  function ReportUnderrun(s: State, status: Stream, decode: Decode): State {
    if s.output.ORunning? && !s.sentU && s.outputEmpty && (status.Stopped? || status.Disconnect?) && decode.DStopped?
    then s.(sentU := true, output := OStopped, log := s.log + [STMu])
    else s
  }

  /** The output has run dry while the stream still comes in. */
  function ReportOutOfData(s: State, status: Stream): State {
    if s.output.ORunning? && !s.sentO && s.outputEmpty && status.Http?
    then s.(sentO := true, log := s.log + [STMo])
    else s
  }

  /** A decoder that was started with the output wakes it. */
  function Wake(s: State, start: bool): State {
    if start && (s.output.OStopped? || s.output.OOff?) then s.(output := OBuffer) else s
  }

  /** An output that has been stopped for long is switched off. */
  function Rest(s: State, idle: bool): State {
    if s.output.OStopped? && idle then s.(output := OOff) else s
  }

  /** Step under the output mutex. */
  function OnOutput(s: State, status: Stream, start: bool, decode: Decode, idle: bool): State {
    Rest(ReportOutOfData(ReportUnderrun(Wake(s, start), status, decode), status), idle).(controller := CIdle)
  }

  function Step(s: State, a: Action): State
    requires Enabled(s, a)
  {
    match a
    case StreamStart(autostart, tooLong, known, found, local, reachable) =>
      var t := s.(autostart := autostart);
      if tooLong || (!known && autostart < 2) then t
      else (if known then CodecOpen(t, found) else t).(controller := COpened(local, reachable))
    case StreamConnect =>
      var local, reachable := s.controller.local, s.controller.reachable;
      s.(stream := if !reachable then Disconnect else if local then File else SendHeaders,
         autostart := if local then s.autostart - 2 else s.autostart,
         sentL := false, sentU := false, sentO := false, controller := CIdle, log := s.log + [Reset])
    case Cont =>
      if s.autostart > 1
      then s.(autostart := s.autostart - 2, stream := if s.stream.Wait? then Buffering else s.stream)
      else s
    case Codc(found) => CodecOpen(s, found)
    case Flush => s.(decode := DStopped, stream := Stopped)
    case PassStream(disconnectOk) =>
      s.(stream := if s.stream.Disconnect? then Stopped else s.stream, controller := CStream(s.stream, disconnectOk))
    case PassDecode => OnDecode(s, s.controller.status, s.controller.disconnectOk)
    case PassOutput(idle) => OnOutput(s, s.controller.status, s.controller.start, s.controller.decode, idle)
    case DecodeBlock(result) => s.(decode := result, log := s.log + Ended(result))
    case StreamMoves(to) => s.(stream := to)
    case OutputMoves(output, drained) => s.(output := output, outputEmpty := drained)
  }

  // ---------------------------------------------------------------- properties of a log

  /** One of the events has been logged since the last marker. */
  predicate Since(log: seq<Event>, events: set<Event>, marker: Event) {
    log != [] &&
    var last := log[|log| - 1];
    last != marker && (last in events || Since(log[..|log| - 1], events, marker))
  }

  /** Between two of the events there is always a marker. */
  predicate AtMostOnce(log: seq<Event>, events: set<Event>, marker: Event) {
    forall i, j | 0 <= i < j < |log| && log[i] in events && log[j] in events :: marker in log[i..j]
  }

  /** Each of the events comes after one of the others, with no marker between. */
  ghost predicate Preceded(log: seq<Event>, events: set<Event>, before: set<Event>, marker: Event) {
    forall j | 0 <= j < |log| && log[j] in events ::
      exists i | 0 <= i < j :: log[i] in before && marker !in log[i..j]
  }

  lemma SinceSnoc(log: seq<Event>, e: Event, events: set<Event>, marker: Event)
    ensures Since(log + [e], events, marker) <==> e != marker && (e in events || Since(log, events, marker))
  {
    assert (log + [e])[..|log|] == log;
  }

  /** Since is what it says. */
  lemma {:induction false} SinceMeans(log: seq<Event>, events: set<Event>, marker: Event) returns (i: int)
    requires marker !in events
    ensures Since(log, events, marker) ==> 0 <= i < |log| && log[i] in events && marker !in log[i..]
    ensures !Since(log, events, marker) ==>
      forall k | 0 <= k < |log| && log[k] in events :: marker in log[k..]
  {
    i := -1;
    if log != [] {
      var n := |log| - 1;
      i := SinceMeans(log[..n], events, marker);
      if Since(log, events, marker) {
        if log[n] in events {
          i := n;
        } else {
          assert log[i..] == log[..n][i..] + [log[n]];
        }
      } else {
        forall k | 0 <= k < |log| && log[k] in events
          ensures marker in log[k..]
        {
          assert log[k..] == log[k..n] + [log[n]];
          if log[n] != marker {
            assert log[k..n] == log[..n][k..];
          }
        }
      }
    }
  }

  lemma OnceMore(log: seq<Event>, e: Event, events: set<Event>, marker: Event)
    requires marker !in events && AtMostOnce(log, events, marker)
    requires e in events ==> !Since(log, events, marker)
    ensures AtMostOnce(log + [e], events, marker)
  {
    var k := SinceMeans(log, events, marker);
    var t := log + [e];
    forall i, j | 0 <= i < j < |t| && t[i] in events && t[j] in events
      ensures marker in t[i..j]
    {
      if j < |log| {
        assert t[i..j] == log[i..j];
      } else {
        assert t[i..j] == log[i..];
      }
    }
  }

  lemma PrecededMore(log: seq<Event>, e: Event, events: set<Event>, before: set<Event>, marker: Event)
    requires marker !in before && Preceded(log, events, before, marker)
    requires e in events ==> Since(log, before, marker)
    ensures Preceded(log + [e], events, before, marker)
  {
    var k := SinceMeans(log, before, marker);
    var t := log + [e];
    forall j | 0 <= j < |t| && t[j] in events
      ensures exists i | 0 <= i < j :: t[i] in before && marker !in t[i..j]
    {
      if j < |log| {
        var i :| 0 <= i < j && log[i] in before && marker !in log[i..j];
        assert t[i..j] == log[i..j];
      } else {
        assert t[k..j] == log[k..];
      }
    }
  }

  // ---------------------------------------------------------------- the invariant

  const ENDS := {STMd, STMn}

  /** What the protocol promises of every log. */
  ghost predicate Promised(log: seq<Event>) {
    && AtMostOnce(log, {Started}, Opened)
    && AtMostOnce(log, ENDS, Opened)
    && Preceded(log, ENDS, {Started}, Opened)
    && Preceded(log, {STMd}, {Completed}, Opened)
    && Preceded(log, {STMn}, {Failed}, Opened)
    && AtMostOnce(log, {STMl}, Reset)
    && AtMostOnce(log, {STMu}, Reset)
    && AtMostOnce(log, {STMo}, Reset)
  }

  /** The decode state and the flags say what the log since the last marker contains. */
  ghost predicate Tied(s: State) {
    && (s.decode.DReady? ==> !Since(s.log, {Started}, Opened) && !Since(s.log, ENDS, Opened))
    && (s.decode.DRunning? || s.decode.DComplete? || s.decode.DError? ==>
          Since(s.log, {Started}, Opened) && !Since(s.log, ENDS, Opened))
    && (s.decode.DComplete? ==> Since(s.log, {Completed}, Opened))
    && (s.decode.DError? ==> Since(s.log, {Failed}, Opened))
    && (Since(s.log, {STMl}, Reset) ==> s.sentL)
    && (Since(s.log, {STMu}, Reset) ==> s.sentU)
    && (Since(s.log, {STMo}, Reset) ==> s.sentO)
  }

  ghost predicate Inv(s: State) {
    Promised(s.log) && Tied(s)
  }

  /** One more event keeps the promises if the ones it could break are not already outstanding. */
  ghost predicate May(log: seq<Event>, e: Event) {
    match e
    case Started => !Since(log, {Started}, Opened)
    case STMd =>
      Since(log, {Started}, Opened) && !Since(log, ENDS, Opened) && Since(log, {Completed}, Opened)
    case STMn =>
      Since(log, {Started}, Opened) && !Since(log, ENDS, Opened) && Since(log, {Failed}, Opened)
    case STMl => !Since(log, {STMl}, Reset)
    case STMu => !Since(log, {STMu}, Reset)
    case STMo => !Since(log, {STMo}, Reset)
    case _ => true
  }

  lemma LogMore(log: seq<Event>, e: Event)
    requires Promised(log) && May(log, e)
    ensures Promised(log + [e])
  {
    hide AtMostOnce, Preceded, Since;
    OnceMore(log, e, {Started}, Opened);
    OnceMore(log, e, ENDS, Opened);
    PrecededMore(log, e, ENDS, {Started}, Opened);
    PrecededMore(log, e, {STMd}, {Completed}, Opened);
    PrecededMore(log, e, {STMn}, {Failed}, Opened);
    OnceMore(log, e, {STMl}, Reset);
    OnceMore(log, e, {STMu}, Reset);
    OnceMore(log, e, {STMo}, Reset);
  }

  /** What is outstanding after one more event. */
  lemma SinceAfter(log: seq<Event>, e: Event)
    ensures Since(log + [e], {Started}, Opened) <==> e != Opened && (e == Started || Since(log, {Started}, Opened))
    ensures Since(log + [e], ENDS, Opened) <==> e != Opened && (e in ENDS || Since(log, ENDS, Opened))
    ensures Since(log + [e], {Completed}, Opened)
       <==> e != Opened && (e == Completed || Since(log, {Completed}, Opened))
    ensures Since(log + [e], {Failed}, Opened) <==> e != Opened && (e == Failed || Since(log, {Failed}, Opened))
    ensures Since(log + [e], {STMl}, Reset) <==> e != Reset && (e == STMl || Since(log, {STMl}, Reset))
    ensures Since(log + [e], {STMu}, Reset) <==> e != Reset && (e == STMu || Since(log, {STMu}, Reset))
    ensures Since(log + [e], {STMo}, Reset) <==> e != Reset && (e == STMo || Since(log, {STMo}, Reset))
  {
    hide Since;
    SinceSnoc(log, e, {Started}, Opened);
    SinceSnoc(log, e, ENDS, Opened);
    SinceSnoc(log, e, {Completed}, Opened);
    SinceSnoc(log, e, {Failed}, Opened);
    SinceSnoc(log, e, {STMl}, Reset);
    SinceSnoc(log, e, {STMu}, Reset);
    SinceSnoc(log, e, {STMo}, Reset);
  }

  lemma Log1(log: seq<Event>, e: Event)
    requires Promised(log) && May(log, e)
    ensures Promised(log + [e])
    ensures Since(log + [e], {Started}, Opened) <==> e != Opened && (e == Started || Since(log, {Started}, Opened))
    ensures Since(log + [e], ENDS, Opened) <==> e != Opened && (e in ENDS || Since(log, ENDS, Opened))
    ensures Since(log + [e], {Completed}, Opened)
       <==> e != Opened && (e == Completed || Since(log, {Completed}, Opened))
    ensures Since(log + [e], {Failed}, Opened) <==> e != Opened && (e == Failed || Since(log, {Failed}, Opened))
    ensures Since(log + [e], {STMl}, Reset) <==> e != Reset && (e == STMl || Since(log, {STMl}, Reset))
    ensures Since(log + [e], {STMu}, Reset) <==> e != Reset && (e == STMu || Since(log, {STMu}, Reset))
    ensures Since(log + [e], {STMo}, Reset) <==> e != Reset && (e == STMo || Since(log, {STMo}, Reset))
  {
    hide Promised, May, Since;
    LogMore(log, e);
    SinceAfter(log, e);
  }

  lemma OpenKeepsInv(s: State, found: bool)
    requires Inv(s)
    ensures Inv(CodecOpen(s, found))
  {
    hide Promised, Since;
    Log1(s.log, Opened);
  }

  lemma StartKeepsInv(s: State, may: bool)
    requires Inv(s) && (may ==> !s.sentL && s.decode.DReady?)
    ensures Inv(StartReady(s, may))
  {
    hide Promised, Since;
    if may {
      Log1(s.log, Started);
      Log1(s.log + [Started], STMl);
    }
  }

  lemma CollectKeepsInv(s: State)
    requires Inv(s)
    ensures Inv(CollectEnd(s))
  {
    hide Promised, Since;
    if s.decode.DComplete? {
      Log1(s.log, STMd);
    } else if s.decode.DError? {
      Log1(s.log, STMn);
    }
  }

  lemma DecodeKeepsInv(s: State, status: Stream, disconnectOk: bool)
    requires Inv(s)
    ensures Inv(OnDecode(s, status, disconnectOk))
  {
    hide Promised, Since, StartReady, CollectEnd;
    var may := MayStart(s, status, disconnectOk);
    StartKeepsInv(s, may);
    CollectKeepsInv(StartReady(s, may));
  }

  lemma UnderrunKeepsInv(s: State, status: Stream, decode: Decode)
    requires Inv(s)
    ensures Inv(ReportUnderrun(s, status, decode))
  {
    hide Promised, Since;
    if !s.sentU {
      Log1(s.log, STMu);
    }
  }

  lemma OutOfDataKeepsInv(s: State, status: Stream)
    requires Inv(s)
    ensures Inv(ReportOutOfData(s, status))
  {
    hide Promised, Since;
    if !s.sentO {
      Log1(s.log, STMo);
    }
  }

  lemma OutputKeepsInv(s: State, status: Stream, start: bool, decode: Decode, idle: bool)
    requires Inv(s)
    ensures Inv(OnOutput(s, status, start, decode, idle))
  {
    hide *;
    var t := Wake(s, start);
    var u := ReportUnderrun(t, status, decode);
    var v := ReportOutOfData(u, status);
    OutputSteps(s, status, start, decode, idle);
    OutputIsFree(s, t.output, s.controller);
    UnderrunKeepsInv(t, status, decode);
    OutOfDataKeepsInv(u, status);
    OutputIsFree(v, Rest(v, idle).output, CIdle);
  }

  lemma OutputSteps(s: State, status: Stream, start: bool, decode: Decode, idle: bool)
    ensures
      var t := Wake(s, start);
      var v := ReportOutOfData(ReportUnderrun(t, status, decode), status);
      && t == s.(output := t.output, controller := s.controller)
      && OnOutput(s, status, start, decode, idle) == v.(output := Rest(v, idle).output, controller := CIdle)
  {
    hide ReportUnderrun, ReportOutOfData;
  }

  /** The invariant does not depend on the output or the controller's place. */
  lemma OutputIsFree(s: State, output: Output, controller: Controller)
    requires Inv(s)
    ensures Inv(s.(output := output, controller := controller))
  {
    hide Promised, Since;
  }

  lemma BlockKeepsInv(s: State, result: Decode)
    requires Inv(s) && Enabled(s, DecodeBlock(result))
    ensures Inv(s.(decode := result, log := s.log + Ended(result)))
  {
    hide Promised, Since;
    if result.DComplete? {
      Log1(s.log, Completed);
    } else if result.DError? {
      Log1(s.log, Failed);
    } else {
      assert s.log + [] == s.log;
    }
  }

  lemma StepKeepsInv(s: State, a: Action)
    requires Inv(s) && Enabled(s, a)
    ensures Inv(Step(s, a))
  {
    hide Promised, Since, OnDecode, OnOutput, CodecOpen, Ended;
    match a
    case StreamStart(autostart, _, _, found, _, _) => OpenKeepsInv(s.(autostart := autostart), found);
    case StreamConnect => Log1(s.log, Reset);
    case Codc(found) => OpenKeepsInv(s, found);
    case PassDecode => DecodeKeepsInv(s, s.controller.status, s.controller.disconnectOk);
    case PassOutput(idle) => OutputKeepsInv(s, s.controller.status, s.controller.start, s.controller.decode, idle);
    case DecodeBlock(result) => BlockKeepsInv(s, result);
    case _ =>
  }

  // ---------------------------------------------------------------- whole runs

  ghost predicate Possible(s: State, run: seq<Action>)
    decreases run
  {
    run == [] || (Enabled(s, run[0]) && Possible(Step(s, run[0]), run[1..]))
  }

  function Final(s: State, run: seq<Action>): State
    requires Possible(s, run)
    decreases run
  {
    if run == [] then s else Final(Step(s, run[0]), run[1..])
  }

  lemma {:induction false} RunKeepsInv(s: State, run: seq<Action>)
    requires Inv(s) && Possible(s, run)
    ensures Inv(Final(s, run))
    decreases run
  {
    hide Step, Enabled, Inv;
    if run != [] {
      StepKeepsInv(s, run[0]);
      RunKeepsInv(Step(s, run[0]), run[1..]);
    }
  }

  /**
   * However the threads interleave: after each codec_open decoding is started at most once and its end reported at
   * most once, only after a start, as complete only if it was and as failed only if it did; and STMl, STMu and STMo
   * go out at most once for each stream that is started.
   */
  lemma EveryInterleaving(run: seq<Action>)
    requires Possible(INITIAL, run)
    ensures
      var log := Final(INITIAL, run).log;
      Promised(log) && AtMostOnce(log, {STMd, STMn}, Opened) && Preceded(log, {STMd, STMn}, {Started}, Opened)
  {
    assert Inv(INITIAL);
    RunKeepsInv(INITIAL, run);
  }
}
