/** The timer queue of a worker run is a run of the timer queue, so what TimerRuns proves holds of
    the worker's timers too. */
module WorkerTimers {
  import opened PreciseTime
  import opened Timers
  import T = TimerRuns
  import opened Wire
  import opened WorkerState
  import opened WorkerRuns

  /** The timers a script registers. */
  function Registrations(id: int, calls: seq<Call>): seq<T.Registration> {
    if calls == [] then []
    else if calls[0].Wait? then [TimeoutTimer(id, calls[0])] + Registrations(id, calls[1..])
    else Registrations(id, calls[1..])
  }

  lemma {:induction false} CallsRegister(s: State, id: int, calls: seq<Call>)
    requires id in s.trans
    ensures DoCalls(s, id, calls).timers == T.AddAll(s.timers, Registrations(id, calls))
    decreases |calls|
  {
    if calls != [] {
      var s1 := DoCall(s, id, calls[0]);
      CallsRegister(s1, id, calls[1..]);
      if calls[0].Wait? {
        assert Registrations(id, calls)[1..] == Registrations(id, calls[1..]);
      }
    }
  }

  lemma {:induction false} TimesAreProper(q: T.Queue, id: int, calls: seq<Call>)
    requires ScriptTimes(q, id, calls)
    ensures T.AllProper(q, Registrations(id, calls))
    decreases |calls|
  {
    if calls != [] {
      if calls[0].Wait? {
        TimesAreProper(T.Add(q, TimeoutTimer(id, calls[0])), id, calls[1..]);
        assert Registrations(id, calls)[1..] == Registrations(id, calls[1..]);
      } else {
        TimesAreProper(q, id, calls[1..]);
      }
    }
  }

  function RegisterSteps(rs: seq<T.Registration>): (steps: seq<T.Step>)
    ensures |steps| == |rs|
  {
    if rs == [] then [] else [T.Register(rs[0])] + RegisterSteps(rs[1..])
  }

  lemma {:induction false} RegisterRun(q: T.Queue, rs: seq<T.Registration>)
    requires T.AllProper(q, rs)
    ensures T.Legal(q, RegisterSteps(rs)) && T.After(q, RegisterSteps(rs)) == T.AddAll(q, rs)
    decreases |rs|
  {
    if rs != [] {
      RegisterRun(T.Add(q, rs[0]), rs[1..]);
      assert RegisterSteps(rs)[1..] == RegisterSteps(rs[1..]);
    }
  }

  lemma IncomingTimers(table: map<int, Kind>, s: State, m: Message, handler: Script, error: Script) returns (r: seq<T.Step>)
    requires Enabled(s, Incoming(m, handler, error))
    ensures T.Legal(s.timers, r) && T.After(s.timers, r) == Receive(table, s, m, handler, error).timers
  {
    var bound, calls := BoundTrans(s, m.triggerId), Performed(handler, error);
    var id := Addressed(s, m);
    TimesAreProper(s.timers, id, calls);
    RegisterRun(s.timers, Registrations(id, calls));
    r := [];
    if bound.Some? {
      if Fits(s.trans[id], m) {
        var s1 := Noted(ClearWaiting(s, id), Activated(id, m, s.trans[id]));
        CallsPerformed(s1, id, handler, error);
        CallsRegister(s1, id, calls);
        r := RegisterSteps(Registrations(id, calls));
      }
    } else if m.command in table {
      if table[m.command].OnePhase? {
        PlainCallsTouch(s, m, handler.calls);
        PlainCallsTouch(PlainCalls(s, m, handler.calls), m, error.calls);
      } else {
        CallsPerformed(NewTrans(s, m), id, handler, error);
        CallsRegister(NewTrans(s, m), id, calls);
        r := RegisterSteps(Registrations(id, calls));
      }
    }
  }

  lemma ExpiryTimers(s: State, top: Timer, at: Time, error: Script, during: seq<T.Registration>, after: Time)
    returns (step: T.Step)
    requires Enabled(s, Expiry(top, at, error, during, after))
    ensures T.Enabled(s.timers, step) && T.Next(s.timers, step) == Expire(s, top, at, error, during, after).timers
  {
    var q := T.Fire(s.timers, top, at);
    match top.action
    case Application(_) =>
      step := T.Process(top, at, during, after);
    case Timeout(id) =>
      if id in s.trans {
        var s1 := Noted(ClearWaiting(s.(timers := q), id), TimedOut(id, top, at));
        CallsRegister(s1, id, error.calls);
        TimesAreProper(q, id, error.calls);
        step := T.Process(top, at, Registrations(id, error.calls), after);
      } else {
        step := T.Process(top, at, [], after);
      }
  }

  lemma StepTimers(table: map<int, Kind>, s: State, step: Step) returns (r: seq<T.Step>)
    requires Enabled(s, step)
    ensures T.Legal(s.timers, r) && T.After(s.timers, r) == Next(table, s, step).timers
  {
    match step
    case Incoming(m, handler, error) =>
      r := IncomingTimers(table, s, m, handler, error);
    case Expiry(top, at, error, during, after) =>
      var process := ExpiryTimers(s, top, at, error, during, after);
      r := [process];
      assert r[1..] == [];
    case OwnTimer(reg) =>
      r := [T.Register(reg)];
      assert r[1..] == [];
    case DropTimer(id) =>
      r := [T.Remove(id)];
      assert r[1..] == [];
    case TakeIds(_) =>
      r := [];
  }

  lemma {:induction false} RunsJoin(q: T.Queue, a: seq<T.Step>, b: seq<T.Step>)
    requires T.Legal(q, a) && T.Legal(T.After(q, a), b)
    ensures T.Legal(q, a + b) && T.After(q, a + b) == T.After(T.After(q, a), b)
    decreases |a|
  {
    if a == [] {
      assert a + b == b;
    } else {
      assert (a + b)[1..] == a[1..] + b;
      RunsJoin(T.Next(q, a[0]), a[1..], b);
    }
  }

  lemma {:induction false} TimersOfRun(table: map<int, Kind>, s: State, run: seq<Step>) returns (r: seq<T.Step>)
    requires Legal(table, s, run)
    ensures T.Legal(s.timers, r) && T.After(s.timers, r) == After(table, s, run).timers
    decreases |run|
  {
    if run == [] {
      r := [];
    } else {
      var first := StepTimers(table, s, run[0]);
      var rest := TimersOfRun(table, Next(table, s, run[0]), run[1..]);
      RunsJoin(s.timers, first, rest);
      r := first + rest;
    }
  }
}
