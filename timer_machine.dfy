/** The state machine of a statsd `Timer`: its three fields and the effect of `start`, `stop` and
    `send` on them, as values. Clock readings are whole milliseconds supplied by the caller. */
module TimerMachine {
  import opened Wrappers

  /** The three `RuntimeError`s a timer raises when it is used out of order. */
  datatype TimerError =
    | NotStarted   // 'Timer has not started.'
    | NoData       // 'No data recorded.'
    | AlreadySent  // 'Already sent data.'

  /** The fields `ms`, `_sent` and `_start_time`. */
  datatype TimerState = TimerState(ms: Option<int>, sent: bool, startTime: Option<int>)

  /** A freshly constructed timer. */
  const Idle := TimerState(None, false, None)

  /** Elapsed time is only recorded once the timer has started, and only recorded time is ever sent. */
  predicate Consistent(s: TimerState)
  {
    (s.ms.Some? ==> s.startTime.Some?) && (s.sent ==> s.ms.Some?)
  }

  /** The result of one operation: the new fields, whether it raised, and the delta it passed to
      `client.timing`, if it did. */
  datatype Step = Step(state: TimerState, outcome: Outcome<TimerError>, emitted: Option<int>)

  /** `start()`: forget the last measurement and record the start time. */
  function StartStep(s: TimerState, now: int): (t: TimerState)
    ensures t.ms.None? && !t.sent && t.startTime == Some(now)
  {
    TimerState(None, false, Some(now))
  }

  /** `send()`: pass the recorded time to the client, once. */
  function SendStep(s: TimerState): (r: Step)
    ensures r.outcome.Pass? <==> s.ms.Some? && !s.sent
    ensures r.outcome.Pass? ==> r.state == s.(sent := true) && r.emitted == Some(s.ms.value)
    ensures r.outcome.Fail? ==> r.state == s && r.emitted.None?
    ensures r.outcome == Fail(AlreadySent) <==> s.ms.Some? && s.sent
    ensures s.ms.None? ==> r.outcome == Fail(NoData)
  {
    if s.ms.None? then Step(s, Fail(NoData), None)
    else if s.sent then Step(s, Fail(AlreadySent), None)
    else Step(s.(sent := true), Pass, Some(s.ms.value))
  }

  /** `stop(send)`: record the time elapsed since the start and, if asked, send it. */
  function StopStep(s: TimerState, now: int, send: bool): (r: Step)
    ensures s.startTime.None? ==> r == Step(s, Fail(NotStarted), None)
    ensures s.startTime.Some? ==> r.state.ms == Some(now - s.startTime.value) && r.state.startTime == s.startTime
    ensures s.startTime.Some? && !send ==> r.outcome.Pass? && r.emitted.None? && r.state.sent == s.sent
    ensures s.startTime.Some? && send ==> (r.outcome.Pass? <==> !s.sent)
    ensures r.emitted.Some? ==> send && !s.sent && r.emitted == r.state.ms && r.state.sent
    ensures s.startTime.Some? && send && !s.sent ==>
              r.outcome.Pass? && r.emitted == Some(now - s.startTime.value) && r.state.sent
    ensures s.startTime.Some? && send && s.sent ==> r.outcome == Fail(AlreadySent) && r.emitted.None?
  {
    if s.startTime.None? then Step(s, Fail(NotStarted), None)
    else
      var recorded := s.(ms := Some(now - s.startTime.value));
      if send then SendStep(recorded) else Step(recorded, Pass, None)
  }

  /** One call on a timer, with the clock reading it takes. */
  datatype Op = StartOp(now: int) | StopOp(now: int, send: bool) | SendOp

  function Apply(s: TimerState, op: Op): Step
  {
    match op
    case StartOp(now) => Step(StartStep(s, now), Pass, None)
    case StopOp(now, send) => StopStep(s, now, send)
    case SendOp => SendStep(s)
  }

  /** What a sequence of calls does, each raised error caught by the caller: the final fields,
      every delta handed to `client.timing`, and every error raised, in order. */
  datatype Trace = Trace(state: TimerState, emitted: seq<int>, errors: seq<TimerError>)

  function Run(s: TimerState, ops: seq<Op>): Trace
    decreases |ops|
  {
    if ops == [] then Trace(s, [], [])
    else
      var step := Apply(s, ops[0]);
      var rest := Run(step.state, ops[1..]);
      Trace(rest.state,
            (if step.emitted.Some? then [step.emitted.value] else []) + rest.emitted,
            (if step.outcome.Fail? then [step.outcome.error] else []) + rest.errors)
  }

  predicate NoStart(ops: seq<Op>) { forall k :: 0 <= k < |ops| ==> !ops[k].StartOp? }

  /** Every call keeps the fields consistent. */
  lemma {:induction false} RunConsistent(s: TimerState, ops: seq<Op>)
    requires Consistent(s)
    ensures Consistent(Run(s, ops).state)
    decreases |ops|
  {
    if ops != [] {
      RunConsistent(Apply(s, ops[0]).state, ops[1..]);
    }
  }

  /** Between two starts a timer reports at most once: the sent flag is set exactly when the one
      report of the cycle has gone out, and a sent timer reports nothing more. */
  lemma {:induction false} OncePerCycle(s: TimerState, ops: seq<Op>)
    requires NoStart(ops)
    ensures var t := Run(s, ops);
      s.sent ==> t.state.sent
    ensures var t := Run(s, ops);
      |t.emitted| + (if s.sent then 1 else 0) == (if t.state.sent then 1 else 0)
    decreases |ops|
  {
    if ops != [] {
      assert NoStart(ops[1..]) by {
        forall k | 0 <= k < |ops[1..]| ensures !ops[1..][k].StartOp? { assert ops[1..][k] == ops[k + 1]; }
      }
      OncePerCycle(Apply(s, ops[0]).state, ops[1..]);
    }
  }

  /** A timer never started cannot be stopped or sent, and reports nothing, whatever is called. */
  lemma {:induction false} NeverStarted(s: TimerState, ops: seq<Op>)
    requires s == Idle && NoStart(ops)
    ensures Run(s, ops).emitted == [] && Run(s, ops).state == Idle
    ensures |Run(s, ops).errors| == |ops|
    decreases |ops|
  {
    if ops != [] {
      assert NoStart(ops[1..]) by {
        forall k | 0 <= k < |ops[1..]| ensures !ops[1..][k].StartOp? { assert ops[1..][k] == ops[k + 1]; }
      }
      NeverStarted(Apply(s, ops[0]).state, ops[1..]);
    }
  }

  /** `start(); stop(send=False)` sends nothing; the `send()` after it reports the elapsed time
      once, and a second `send()` raises. */
  lemma StopThenSend(s: TimerState, t0: int, t1: int)
    ensures Run(s, [StartOp(t0), StopOp(t1, false), SendOp, SendOp])
         == Trace(TimerState(Some(t1 - t0), true, Some(t0)), [t1 - t0], [AlreadySent])
  {
    var started := StartStep(s, t0);
    var stopped := TimerState(Some(t1 - t0), false, Some(t0));
    var sent := stopped.(sent := true);
    assert Run(sent, [SendOp]) == Trace(sent, [], [AlreadySent]);
    assert [StopOp(t1, false), SendOp, SendOp][1..] == [SendOp, SendOp];
    assert [SendOp, SendOp][1..] == [SendOp];
    assert Run(stopped, [SendOp, SendOp]) == Trace(sent, [t1 - t0], [AlreadySent]);
    assert Run(started, [StopOp(t1, false), SendOp, SendOp]) == Trace(sent, [t1 - t0], [AlreadySent]);
  }

  /** `start()` followed by `send()` raises 'No data recorded.' and reports nothing. */
  lemma SendBeforeStop(s: TimerState, t0: int)
    ensures Run(s, [StartOp(t0), SendOp]) == Trace(StartStep(s, t0), [], [NoData])
  {
    assert [StartOp(t0), SendOp][1..] == [SendOp];
    assert Run(StartStep(s, t0), [SendOp]) == Trace(StartStep(s, t0), [], [NoData]);
  }

  /** `stop()` on a timer that has already sent records the new elapsed time and then raises. */
  lemma StopAfterSent(s: TimerState, now: int)
    requires s.startTime.Some? && s.sent
    ensures StopStep(s, now, true) == Step(s.(ms := Some(now - s.startTime.value)), Fail(AlreadySent), None)
  {
  }
}
