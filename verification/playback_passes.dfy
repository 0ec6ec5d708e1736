/** What each pass of the controller reports and starts, in terms of the state it finds. */
module PlaybackPasses {
  import opened Playback

  /** What a step has logged. */
  function Logged(s: State, t: State): seq<Event> {
    if |s.log| <= |t.log| then t.log[|s.log|..] else []
  }

  /** Decoding can start: the codec is ready, the stream delivers, and the server need not send 'cont' first. */
  predicate Startable(s: State, status: Stream, disconnectOk: bool) {
    s.decode.DReady? && !s.sentL && (s.autostart == 0 || s.autostart == 1)
    && (status == Http || status == File || (status == Disconnect && disconnectOk))
  }

  /**
   * Under the decode mutex: a startable decoder is started, and only then, with STMl if the server starts the output
   * itself and with the output otherwise; STMd is sent for a decoder that has completed, STMn for one that has failed.
   */
  lemma DecodeReports(s: State)
    requires Enabled(s, PassDecode)
    ensures
      var status, t := s.controller.status, Step(s, PassDecode);
      var starts := Startable(s, status, s.controller.disconnectOk);
      && t.log == s.log + (if starts && s.autostart == 0 then [Started, STMl] else if starts then [Started]
                           else if s.decode == DComplete then [STMd] else if s.decode == DError then [STMn] else [])
      && t.sentL == (s.sentL || (starts && s.autostart == 0))
      && t.decode == (if starts then DRunning
                      else if s.decode == DComplete || s.decode == DError then DStopped else s.decode)
      && t.controller == CDecode(status, starts && s.autostart == 1, t.decode)
      && t.autostart == s.autostart
  {
    assert s.log + [] == s.log;
    assert s.log + [Started] + [STMl] == s.log + [Started, STMl];
  }

  /**
   * Under the output mutex: STMu is sent once when the output has run dry, the stream has ended and so has the decoder;
   * STMo when it has run dry while the stream still comes in; and an output that waits is woken for a started decoder.
   */
  lemma OutputReports(s: State, idle: bool)
    requires Enabled(s, PassOutput(idle))
    ensures
      var status, t := s.controller.status, Step(s, PassOutput(idle));
      var dry := s.output == ORunning && s.outputEmpty;
      var ended := !s.sentU && (status == Stopped || status == Disconnect) && s.controller.decode == DStopped;
      && t.log == s.log + (if dry && ended then [STMu] else if dry && !s.sentO && status == Http then [STMo] else [])
      && t.sentU == (s.sentU || (dry && ended)) && t.sentO == (s.sentO || (dry && !s.sentO && status == Http))
      && (s.controller.start && (s.output == OStopped || s.output == OOff) ==> t.output == OBuffer)
      && (dry && ended ==> t.output == if idle then OOff else OStopped)
      && t.decode == s.decode && t.controller == CIdle && t.autostart == s.autostart
  {
    assert Step(s, PassOutput(idle)) == OnOutput(s, s.controller.status, s.controller.start, s.controller.decode, idle);
    hide Step, OnOutput;
    Passed(s, s.controller.status, s.controller.start, s.controller.decode, idle);
  }

  /** The output has run dry, and the stream and the decoder have ended. */
  predicate RunsDry(s: State, status: Stream, decode: Decode) {
    s.output == ORunning && s.outputEmpty && !s.sentU && (status == Stopped || status == Disconnect)
    && decode == DStopped
  }

  /** The output has run dry, and the stream still comes in. */
  predicate RunsShort(s: State, status: Stream) {
    s.output == ORunning && s.outputEmpty && !s.sentO && status == Http
  }

  lemma WakeIs(s: State, start: bool, status: Stream, decode: Decode)
    ensures
      Wake(s, start)
      == s.(output := if start && (s.output == OStopped || s.output == OOff) then OBuffer else s.output)
    ensures RunsDry(Wake(s, start), status, decode) <==> RunsDry(s, status, decode)
    ensures RunsShort(Wake(s, start), status) <==> RunsShort(s, status)
  {}

  lemma UnderrunIs(s: State, status: Stream, decode: Decode)
    ensures
      ReportUnderrun(s, status, decode)
      == if RunsDry(s, status, decode) then s.(sentU := true, output := OStopped, log := s.log + [STMu]) else s
    ensures RunsShort(ReportUnderrun(s, status, decode), status) <==> RunsShort(s, status)
  {}

  lemma OutOfDataIs(s: State, status: Stream)
    ensures
      ReportOutOfData(s, status) == if RunsShort(s, status) then s.(sentO := true, log := s.log + [STMo]) else s
  {}

  lemma NotBoth(s: State, status: Stream, decode: Decode)
    ensures RunsDry(s, status, decode) ==> !RunsShort(s, status) && s.output == ORunning
    ensures RunsShort(s, status) ==> s.output == ORunning
  {}

  lemma Passed(s: State, status: Stream, start: bool, decode: Decode, idle: bool)
    ensures
      var o := OnOutput(s, status, start, decode, idle);
      && o.log == s.log + (if RunsDry(s, status, decode) then [STMu] else if RunsShort(s, status) then [STMo] else [])
      && o.sentU == (s.sentU || RunsDry(s, status, decode)) && o.sentO == (s.sentO || RunsShort(s, status))
      && (start && (s.output == OStopped || s.output == OOff) ==> o.output == OBuffer)
      && (RunsDry(s, status, decode) ==> o.output == if idle then OOff else OStopped)
      && o.decode == s.decode && o.controller == CIdle && o.autostart == s.autostart
  {
    WakeIs(s, start, status, decode);
    UnderrunIs(Wake(s, start), status, decode);
    OutOfDataIs(ReportUnderrun(Wake(s, start), status, decode), status);
    NotBoth(s, status, decode);
    hide Wake, ReportUnderrun, ReportOutOfData, RunsDry, RunsShort;
    assert s.log + [] == s.log;
  }

  // ---------------------------------------------------------------- 'cont'

  /** Neither a new stream, nor 'cont', nor a local file, which needs none. */
  predicate NotReleased(s: State, a: Action) {
    !a.StreamStart? && !a.Cont? && !(a.StreamConnect? && s.controller.COpened? && s.controller.local)
  }

  ghost predicate NeverReleased(s: State, run: seq<Action>)
    requires Possible(s, run)
    decreases run
  {
    run != [] ==> NotReleased(s, run[0]) && NeverReleased(Step(s, run[0]), run[1..])
  }

  lemma StillWaits(s: State, a: Action)
    requires Enabled(s, a) && s.autostart >= 2 && NotReleased(s, a)
    ensures Step(s, a).autostart == s.autostart
    ensures s.log <= Step(s, a).log && Started !in Logged(s, Step(s, a))
  {
    match a {
      case PassDecode => DecodeReports(s);
      case PassOutput(idle) => OutputReports(s, idle);
      case _ =>
    }
    hide OnDecode, OnOutput;
    var t := Step(s, a);
    var more := t.log[|s.log|..];
  }

  /** A stream that is to wait for 'cont' is not decoded before, whatever else happens. */
  lemma {:induction false} WaitsForCont(s: State, run: seq<Action>)
    requires Possible(s, run) && s.autostart >= 2 && NeverReleased(s, run)
    decreases run
    ensures s.log <= Final(s, run).log && Started !in Logged(s, Final(s, run))
  {
    hide Step, Enabled, NotReleased;
    if run != [] {
      var t := Step(s, run[0]);
      StillWaits(s, run[0]);
      WaitsForCont(t, run[1..]);
      var u := Final(t, run[1..]);
      assert Logged(s, u) == Logged(s, t) + Logged(t, u);
    }
  }

  /** It releases nothing else, and the stream that waits for it is buffered from then on. */
  lemma ContOnce(s: State)
    requires Enabled(s, Cont)
    ensures s.autostart <= 1 ==> Step(s, Cont) == s
    ensures s.autostart > 1 && s.stream == Wait ==> Step(s, Cont).stream == Buffering
    ensures s.stream != Wait ==> Step(s, Cont).stream == s.stream
  {}

  /** And after it the next pass starts a ready decoder. */
  lemma ContReleases(s: State, disconnectOk: bool)
    requires Enabled(s, Cont) && (s.autostart == 2 || s.autostart == 3) && s.decode.DReady? && !s.sentL
    requires s.stream == Http
    ensures
      var t := Step(s, Cont);
      && Enabled(t, PassStream(disconnectOk))
      && Step(Step(t, PassStream(disconnectOk)), PassDecode).decode == DRunning
  {}

  /**
   * Command 's' as a whole: unless its header is too long, or its codec is unknown and 'cont' is not to come, the codec
   * is opened if it is known, the stream is begun, and STMl, STMu and STMo can be sent again; otherwise nothing is.
   */
  lemma CommandS(s: State, autostart: int, tooLong: bool, known: bool, found: bool, local: bool, reachable: bool)
    requires s.controller == CIdle
    ensures
      var t := Step(s, StreamStart(autostart, tooLong, known, found, local, reachable));
      && (tooLong || (!known && autostart < 2) ==> t == s.(autostart := autostart))
      && (!tooLong && (known || autostart >= 2) ==>
            && Enabled(t, StreamConnect)
            && var u := Step(t, StreamConnect);
               && u.log == s.log + (if known then [Opened] else []) + [Reset]
               && !u.sentL && !u.sentU && !u.sentO && u.controller == CIdle
               && (u.stream == Disconnect <==> !reachable)
               && (reachable ==> u.stream == if local then File else SendHeaders)
               && u.autostart == (if local then autostart - 2 else autostart)
               && (known ==> (u.decode == DReady <==> found) && (u.decode == DStopped <==> !found))
               && (known && found ==> u.codec) && (!known ==> u.decode == s.decode && u.codec == s.codec))
  {
    assert s.log + [] == s.log;
  }

  // ---------------------------------------------------------------- 'q' and 'f'

  ghost predicate NeverOpened(s: State, run: seq<Action>)
    requires Possible(s, run)
    decreases run
  {
    run != [] ==> !run[0].StreamStart? && !run[0].Codc? && NeverOpened(Step(s, run[0]), run[1..])
  }

  lemma StaysStopped(s: State, a: Action)
    requires Enabled(s, a) && s.decode == DStopped && !a.StreamStart? && !a.Codc?
    ensures Step(s, a).decode == DStopped
    ensures s.log <= Step(s, a).log && Started !in Logged(s, Step(s, a))
  {
    match a {
      case PassDecode => DecodeReports(s);
      case PassOutput(idle) => OutputReports(s, idle);
      case _ =>
    }
    hide OnDecode, OnOutput;
    var more := Step(s, a).log[|s.log|..];
  }

  /** After a flush no decoder is started before a codec is opened. */
  lemma {:induction false} FlushedStaysStopped(s: State, run: seq<Action>)
    requires Possible(s, run) && NeverOpened(s, run) && s.decode == DStopped
    decreases run
    ensures Final(s, run).decode == DStopped
    ensures s.log <= Final(s, run).log && Started !in Logged(s, Final(s, run))
  {
    hide Step, Enabled;
    if run != [] {
      var t := Step(s, run[0]);
      StaysStopped(s, run[0]);
      FlushedStaysStopped(t, run[1..]);
      var u := Final(t, run[1..]);
      assert Logged(s, u) == Logged(s, t) + Logged(t, u);
    }
  }

  lemma FlushStops(s: State)
    requires Enabled(s, Flush)
    ensures Step(s, Flush).decode == DStopped && Step(s, Flush).stream == Stopped && Step(s, Flush).log == s.log
  {}

  // ---------------------------------------------------------------- a track from beginning to end

  lemma Unroll(s: State, a: Action, rest: seq<Action>)
    requires Enabled(s, a) && Possible(Step(s, a), rest)
    ensures Possible(s, [a] + rest) && Final(s, [a] + rest) == Final(Step(s, a), rest)
  {
    assert ([a] + rest)[1..] == rest;
  }

  lemma TwoSteps(s: State, a: Action, b: Action)
    requires Enabled(s, a) && Enabled(Step(s, a), b)
    ensures Possible(s, [a, b]) && Final(s, [a, b]) == Step(Step(s, a), b)
  {
    hide Step, Enabled;
    Unroll(Step(s, a), b, []);
    assert [b] + [] == [b];
    Unroll(s, a, [b]);
    assert [a] + [b] == [a, b];
  }

  lemma {:induction false} RunsJoin(s: State, a: seq<Action>, b: seq<Action>)
    requires Possible(s, a) && Possible(Final(s, a), b)
    decreases a
    ensures Possible(s, a + b) && Final(s, a + b) == Final(Final(s, a), b)
  {
    hide Step, Enabled;
    if a == [] {
      assert a + b == b;
    } else {
      RunsJoin(Step(s, a[0]), a[1..], b);
      assert a == [a[0]] + a[1..] && a + b == [a[0]] + (a[1..] + b);
      Unroll(s, a[0], a[1..] + b);
    }
  }

  const BEGIN: seq<Action> := [StreamStart(1, false, true, true, false, true), StreamConnect]
  const DELIVER: seq<Action> := [StreamMoves(Http), PassStream(false)]
  const PASS: seq<Action> := [PassDecode, PassOutput(false)]

  const PLAYING := State(DRunning, true, 1, Http, OBuffer, true, false, false, false, CIdle, [Opened, Reset, Started])

  /** Up to the start of decoding and of the output. */
  lemma TrackStarts()
    ensures Possible(INITIAL, BEGIN + DELIVER + PASS)
    ensures Final(INITIAL, BEGIN + DELIVER + PASS) == PLAYING
  {
    var connected := Begun();
    var delivering := Delivered(connected);
    Started1(delivering);
    hide *;
    RunsJoin(INITIAL, BEGIN, DELIVER);
    RunsJoin(INITIAL, BEGIN + DELIVER, PASS);
  }

  lemma Begun() returns (t: State)
    ensures t == State(DReady, true, 1, SendHeaders, OStopped, true, false, false, false, CIdle, [Opened, Reset])
    ensures Possible(INITIAL, BEGIN) && Final(INITIAL, BEGIN) == t
  {
    TwoSteps(INITIAL, BEGIN[0], BEGIN[1]);
    t := Step(Step(INITIAL, BEGIN[0]), BEGIN[1]);
  }

  lemma Delivered(s: State) returns (t: State)
    requires s == State(DReady, true, 1, SendHeaders, OStopped, true, false, false, false, CIdle, [Opened, Reset])
    ensures
      t == State(DReady, true, 1, Http, OStopped, true, false, false, false, CStream(Http, false), [Opened, Reset])
    ensures Possible(s, DELIVER) && Final(s, DELIVER) == t
  {
    TwoSteps(s, DELIVER[0], DELIVER[1]);
    t := Step(Step(s, DELIVER[0]), DELIVER[1]);
  }

  lemma Started1(s: State)
    requires
      s == State(DReady, true, 1, Http, OStopped, true, false, false, false, CStream(Http, false), [Opened, Reset])
    ensures Possible(s, PASS) && Final(s, PASS) == PLAYING
  {
    DecodeReports(s);
    OutputReports(Step(s, PassDecode), false);
    TwoSteps(s, PassDecode, PassOutput(false));
  }

  const COMPLETE: seq<Action> := [OutputMoves(ORunning, false), DecodeBlock(DComplete)]
  const DISCONNECT: seq<Action> := [StreamMoves(Disconnect), PassStream(true)]
  const DRAIN: seq<Action> := [PassDecode, OutputMoves(ORunning, true)]

  /** From there to the end: the decoder completes, the stream is over, the output plays what it has and runs dry. */
  lemma TrackEnds()
    ensures Possible(PLAYING, COMPLETE + DISCONNECT + DRAIN + [PassOutput(false)])
    ensures
      var t := Final(PLAYING, COMPLETE + DISCONNECT + DRAIN + [PassOutput(false)]);
      t.log == [Opened, Reset, Started, Completed, STMd, STMu] && t.output == OStopped
  {
    var completed := Completes();
    var over := Disconnects(completed);
    var drained := Drains(over);
    OutputReports(drained, false);
    Unroll(drained, PassOutput(false), []);
    assert [PassOutput(false)] + [] == [PassOutput(false)];
    hide *;
    RunsJoin(PLAYING, COMPLETE, DISCONNECT);
    RunsJoin(PLAYING, COMPLETE + DISCONNECT, DRAIN);
    RunsJoin(PLAYING, COMPLETE + DISCONNECT + DRAIN, [PassOutput(false)]);
  }

  lemma Completes() returns (t: State)
    ensures
      t == PLAYING.(decode := DComplete, output := ORunning, outputEmpty := false, log := PLAYING.log + [Completed])
    ensures Possible(PLAYING, COMPLETE) && Final(PLAYING, COMPLETE) == t
  {
    TwoSteps(PLAYING, COMPLETE[0], COMPLETE[1]);
    t := Step(Step(PLAYING, COMPLETE[0]), COMPLETE[1]);
  }

  lemma Disconnects(s: State) returns (t: State)
    requires s.controller == CIdle
    ensures t == s.(stream := Stopped, controller := CStream(Disconnect, true))
    ensures Possible(s, DISCONNECT) && Final(s, DISCONNECT) == t
  {
    TwoSteps(s, DISCONNECT[0], DISCONNECT[1]);
    t := Step(Step(s, DISCONNECT[0]), DISCONNECT[1]);
  }

  lemma Drains(s: State) returns (t: State)
    requires s.controller == CStream(Disconnect, true) && s.decode == DComplete
    ensures t.log == s.log + [STMd] && t.controller == CDecode(Disconnect, false, DStopped)
    ensures t.output == ORunning && t.outputEmpty && t.sentU == s.sentU
    ensures Possible(s, DRAIN) && Final(s, DRAIN) == t
  {
    DecodeReports(s);
    TwoSteps(s, DRAIN[0], DRAIN[1]);
    t := Step(Step(s, DRAIN[0]), DRAIN[1]);
  }
}
