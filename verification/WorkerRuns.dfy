/** What the worker guarantees over whole runs, whatever the handlers do. */
module WorkerRuns {
  import opened PreciseTime
  import opened Timers
  import T = TimerRuns
  import opened Wire
  import opened WorkerState

  // ------------------------------------------------------- nothing is left over

  /** Between two steps every registered transaction waits, and a timer will end its wait. */
  ghost predicate Clean(s: State) {
    forall id | id in s.trans :: s.trans[id].waiting && Watched(s, id)
  }

  /** The one way to leave a transaction behind: its timeout calls an error handler that throws
      before it has waited again. */
  predicate Leaks(s: State, step: Step) {
    && step.Expiry? && step.top.action.Timeout? && step.top.action.transId in s.trans
    && step.error.throws && !Waits(step.error.calls)
  }

  /** Timers that a step keeps or adds go on watching. */
  lemma StillWatched(s: State, s': State, id: int)
    requires Watched(s, id)
    requires forall t | t in s.timers.timers && t.action == Timeout(id) :: t in s'.timers.timers
    ensures Watched(s', id)
  {
  }

  lemma CallsKeepClean(s: State, id: int, calls: seq<Call>)
    requires id in s.trans && forall x | x in s.trans && x != id :: s.trans[x].waiting && Watched(s, x)
    requires s.trans[id].waiting ==> Watched(s, id)
    ensures var r := DoCalls(s, id, calls);
            && (forall x | x in r.trans && x != id :: r.trans[x].waiting && Watched(r, x))
            && (r.trans[id].waiting ==> Watched(r, id))
  {
    var r := DoCalls(s, id, calls);
    DoCallsTouches(s, id, calls);
    forall x | x in s.trans && Watched(s, x)
      ensures Watched(r, x)
    {
      StillWatched(s, r, x);
    }
  }

  lemma IncomingKeepsClean(table: map<int, Kind>, s: State, m: Message, handler: Script, error: Script)
    requires Clean(s)
    ensures Clean(Receive(table, s, m, handler, error))
  {
    var bound := BoundTrans(s, m.triggerId);
    if bound.Some? {
      var id := bound.value;
      if Fits(s.trans[id], m) {
        var s1 := Noted(ClearWaiting(s, id), Activated(id, m, s.trans[id]));
        SameTimers(s, s1);
        CallsPerformed(s1, id, handler, error);
        CallsKeepClean(s1, id, Performed(handler, error));
        EndKeepsClean(CallTransaction(s1, id, handler, error), id);
      }
    } else if m.command in table {
      if table[m.command].OnePhase? {
        PlainCallsTouch(s, m, handler.calls);
        PlainCallsTouch(PlainCalls(s, m, handler.calls), m, error.calls);
      } else {
        var id, s1 := s.nextTrans, NewTrans(s, m);
        SameTimers(s, s1);
        CallsPerformed(s1, id, handler, error);
        CallsKeepClean(s1, id, Performed(handler, error));
        EndKeepsClean(CallTransaction(s1, id, handler, error), id);
      }
    }
    SameTimers(s, s);
  }

  lemma SameTimers(s: State, s': State)
    requires s'.timers == s.timers
    ensures forall id | Watched(s, id) :: Watched(s', id)
  {
  }

  lemma EndKeepsClean(s: State, id: int)
    requires id in s.trans && forall x | x in s.trans && x != id :: s.trans[x].waiting && Watched(s, x)
    requires s.trans[id].waiting ==> Watched(s, id)
    ensures Clean(EndUnlessWaiting(s, id))
  {
    SameTimers(s, EndUnlessWaiting(s, id));
  }

  lemma {:induction false} PlainCallsTouch(s: State, m: Message, calls: seq<Call>)
    ensures var r := PlainCalls(s, m, calls);
            r.trans == s.trans && r.timers == s.timers && r.log == s.log && r.nextTrans == s.nextTrans && r.binds == s.binds
            && r.nextPackage >= s.nextPackage
    decreases |calls|
  {
    if calls != [] {
      var s1 := match calls[0]
                case Send(conn, service, command, size, encodes, _) =>
                  SendProtocol(s, conn, service, command, size, encodes, 0, 0)
                case Reply(command, size, encodes) =>
                  SendProtocol(s, m.conn, 0, command, size, encodes, 0, m.selfId)
                case Wait(_, _, _, _, _, _) => s;
      PlainCallsTouch(s1, m, calls[1..]);
    }
  }

  lemma ExpiryKeepsClean(s: State, top: Timer, at: Time, error: Script, during: seq<T.Registration>, after: Time)
    requires Clean(s)
    ensures Clean(Expire(s, top, at, error, during, after)) <==> !Leaks(s, Expiry(top, at, error, during, after))
  {
    hide T.AddAll, DoCalls, T.Rearmed;
    var s0 := s.(timers := T.Fire(s.timers, top, at));
    forall x | x in s.trans && top.action != Timeout(x)
      ensures Watched(s0, x)
    {
      StillWatched(s, s0, x);
    }
    var s1 := RunAction(s0, top, at, error, during);
    var s2 := s1.(timers := T.Finish(s1.timers, top, after));
    match top.action {
      case Application(_) =>
        T.AddAllAdds(s0.timers, during);
        forall x | x in s.trans
          ensures Watched(s2, x)
        {
          StillWatched(s0, s2, x);
        }
      case Timeout(id) =>
        if id in s.trans {
          var s3 := Noted(ClearWaiting(s0, id), TimedOut(id, top, at));
          SameTimers(s0, s3);
          CallsKeepClean(s3, id, error.calls);
          DoCallsTouches(s3, id, error.calls);
          EndKeepsClean(DoCalls(s3, id, error.calls), id);
          assert error.throws && !Waits(error.calls) ==> !s2.trans[id].waiting;
        }
        assert s1.timers.timers <= s2.timers.timers;
        forall x | Watched(s1, x)
          ensures Watched(s2, x)
        {
          StillWatched(s1, s2, x);
        }
    }
  }

  lemma StepKeepsClean(table: map<int, Kind>, s: State, step: Step)
    requires Clean(s) && Enabled(s, step)
    ensures Clean(Next(table, s, step)) <==> !Leaks(s, step)
  {
    match step
    case Incoming(m, handler, error) =>
      IncomingKeepsClean(table, s, m, handler, error);
    case Expiry(top, at, error, during, after) =>
      ExpiryKeepsClean(s, top, at, error, during, after);
    case OwnTimer(r) =>
      forall id | Watched(s, id)
        ensures Watched(Next(table, s, step), id)
      {
        StillWatched(s, Next(table, s, step), id);
      }
    case DropTimer(timer) =>
      forall id | Watched(s, id)
        ensures Watched(Next(table, s, step), id)
      {
        StillWatched(s, Next(table, s, step), id);
      }
    case TakeIds(count) =>
      SameTimers(s, Next(table, s, step));
  }

  ghost predicate AlwaysClean(table: map<int, Kind>, s: State, run: seq<Step>)
    decreases |run|
  {
    Clean(s) && (run == [] || AlwaysClean(table, Next(table, s, run[0]), run[1..]))
  }

  predicate NeverLeaks(table: map<int, Kind>, s: State, run: seq<Step>)
    decreases |run|
  {
    run == [] || (!Leaks(s, run[0]) && NeverLeaks(table, Next(table, s, run[0]), run[1..]))
  }

  lemma {:induction false} CleanRun(table: map<int, Kind>, s: State, run: seq<Step>)
    requires Clean(s) && Legal(table, s, run)
    ensures AlwaysClean(table, s, run) <==> NeverLeaks(table, s, run)
    decreases |run|
  {
    if run != [] {
      StepKeepsClean(table, s, run[0]);
      if !Leaks(s, run[0]) {
        CleanRun(table, Next(table, s, run[0]), run[1..]);
      } else {
        DirtyRun(table, Next(table, s, run[0]), run[1..]);
      }
    }
  }

  lemma DirtyRun(table: map<int, Kind>, s: State, run: seq<Step>)
    requires !Clean(s)
    ensures !AlwaysClean(table, s, run)
  {
  }

  /** Every registered transaction waits for a message or its timer after every step of a run
      exactly if no timeout's error handler throws without having waited. */
  lemma NoTransactionIsLeftOver(table: map<int, Kind>, now: Time, run: seq<Step>)
    requires Legal(table, Initial(now), run)
    ensures AlwaysClean(table, Initial(now), run) <==> NeverLeaks(table, Initial(now), run)
  {
    CleanRun(table, Initial(now), run);
  }

  /** Once its timer has fired a transaction is gone or has begun another wait. */
  lemma FiredTimerEndsOrRenews(s: State, top: Timer, at: Time, error: Script, during: seq<T.Registration>, after: Time, id: int)
    requires id in s.trans && top.action == Timeout(id)
    requires !Leaks(s, Expiry(top, at, error, during, after))
    ensures var s' := Expire(s, top, at, error, during, after);
            id in s'.trans ==> s'.trans[id].waiting && s'.trans[id].phase > s.trans[id].phase
  {
    var s0 := s.(timers := T.Fire(s.timers, top, at));
    DoCallsTouches(Noted(ClearWaiting(s0, id), TimedOut(id, top, at)), id, error.calls);
  }

  // ------------------------------------------------------------------ dispatch

  /** An activation answers a package the transaction sent and bound earlier, comes from where the
      transaction waited for it and with the command it waited for; nothing has been activated for
      that package before, and the transaction had not ended. */
  predicate ActivationOk(log: seq<Event>, j: nat)
    requires j < |log| && log[j].Activated?
  {
    var a := log[j];
    && a.before.id == a.transId
    && (a.before.waitConn != 0 ==> a.message.conn == a.before.waitConn)
    && (a.before.waitConn == 0 ==> a.message.service == a.before.waitService)
    && a.message.command == a.before.waitCmd
    && Bound(a.message.triggerId, a.transId) in log[..j]
    && (forall i | 0 <= i < j && log[i].Activated? :: log[i].message.triggerId != a.message.triggerId)
    && Ended(a.transId) !in log[..j]
  }

  predicate LogOk(log: seq<Event>) {
    forall j | 0 <= j < |log| && log[j].Activated? :: ActivationOk(log, j)
  }

  ghost predicate IdsOk(s: State) {
    && s.nextTrans >= 1 && s.nextPackage >= 1
    && (forall id | id in s.trans :: 0 < id < s.nextTrans && s.trans[id].id == id)
    && (forall id | Ended(id) in s.log :: id !in s.trans && id < s.nextTrans)
  }

  /** A binding is on record, and has not been used yet; `current` is the package in use. */
  predicate BindsOk(s: State, current: int) {
    && (forall p | p in s.binds :: 0 < p < s.nextPackage && Bound(p, s.binds[p]) in s.log)
    && (forall i | 0 <= i < |s.log| && s.log[i].Activated? ::
          s.log[i].message.triggerId < s.nextPackage
          && (s.log[i].message.triggerId == current || s.log[i].message.triggerId !in s.binds))
  }

  ghost function Traced(current: int): iset<State> {
    iset s: State | LogOk(s.log) && IdsOk(s) && BindsOk(s, current)
  }

  lemma LogGrows(log: seq<Event>, e: Event)
    requires LogOk(log) && (e.Activated? ==> ActivationOk(log + [e], |log|))
    ensures LogOk(log + [e])
  {
    var log' := log + [e];
    forall j | 0 <= j < |log'| && log'[j].Activated?
      ensures ActivationOk(log', j)
    {
      if j < |log| {
        assert ActivationOk(log, j);
        assert log'[..j] == log[..j];
      }
    }
  }

  /** An event that is no activation is put on record. */
  lemma NotedKeeps(s: State, e: Event, current: int)
    requires s in Traced(current) && !e.Activated?
    requires e.Ended? ==> e.transId !in s.trans && e.transId < s.nextTrans
    ensures Noted(s, e) in Traced(current)
  {
    LogGrows(s.log, e);
    assert forall x | x in s.log :: x in Noted(s, e).log;
    assert forall id | Ended(id) in Noted(s, e).log :: Ended(id) in s.log || e == Ended(id);
  }

  lemma SendKeeps(s: State, conn: int, service: int, command: int, size: int, encodes: bool,
                  bindTrans: int, triggerId: int, current: int)
    requires s in Traced(current) && current < s.nextPackage
    ensures SendProtocol(s, conn, service, command, size, encodes, bindTrans, triggerId) in Traced(current)
  {
    if Deliverable(size, encodes) && bindTrans != 0 {
      var s1 := s.(nextPackage := s.nextPackage + 1,
                   sent := s.sent + [Sent(conn, service, s.nextPackage, command, triggerId)]);
      NotedKeeps(s1, Bound(s.nextPackage, bindTrans), current);
    }
  }

  lemma {:induction false} DoCallsKeep(s: State, id: int, calls: seq<Call>, current: int)
    requires s in Traced(current) && id in s.trans && current < s.nextPackage
    ensures DoCalls(s, id, calls) in Traced(current)
    decreases |calls|
  {
    if calls != [] {
      match calls[0] {
        case Send(conn, service, command, size, encodes, bind) =>
          SendKeeps(s, conn, service, command, size, encodes, if bind then id else 0, 0, current);
        case Reply(command, size, encodes) =>
          var t := s.trans[id];
          SendKeeps(s, t.firstConn, 0, command, size, encodes, 0, t.firstTrigger.packageId, current);
          if Deliverable(size, encodes) {
            NotedKeeps(SendProtocol(s, t.firstConn, 0, command, size, encodes, 0, t.firstTrigger.packageId), Replied(id, s.nextPackage), current);
          }
        case Wait(_, _, _, _, _, _) =>
          var w, t := calls[0], s.trans[id];
          var t' := t.(waitConn := w.conn, waitService := w.service, waitCmd := w.cmd, phase := t.phase + 1,
                       onActive := w.onActive, waiting := true);
          NotedKeeps(s.(trans := s.trans[id := t'], timers := T.Add(s.timers, TimeoutTimer(id, w))),
                     Waited(id, WaitTimer(s.timers, id, w)), current);
      }
      DoCallsKeep(DoCall(s, id, calls[0]), id, calls[1..], current);
    }
  }

  lemma EndKeeps(s: State, id: int, current: int)
    requires s in Traced(current) && id in s.trans
    ensures EndUnlessWaiting(s, id) in Traced(current)
  {
    if !s.trans[id].waiting {
      NotedKeeps(s.(trans := s.trans - {id}), Ended(id), current);
    }
  }

  lemma ActivationFits(s: State, id: int, m: Message)
    requires s in Traced(0) && BoundTrans(s, m.triggerId) == Some(id) && Fits(s.trans[id], m)
    ensures ActivationOk(s.log + [Activated(id, m, s.trans[id])], |s.log|)
  {
    var log' := s.log + [Activated(id, m, s.trans[id])];
    assert log'[..|s.log|] == s.log;
    assert m.triggerId in s.binds && Bound(m.triggerId, id) in s.log;
  }

  lemma ActivatedKeeps(s: State, id: int, m: Message)
    requires s in Traced(0) && BoundTrans(s, m.triggerId) == Some(id) && Fits(s.trans[id], m)
    ensures Noted(ClearWaiting(s, id), Activated(id, m, s.trans[id])) in Traced(m.triggerId)
  {
    hide ActivationOk, Fits;
    var s', e := Noted(ClearWaiting(s, id), Activated(id, m, s.trans[id])), Activated(id, m, s.trans[id]);
    ActivationFits(s, id, m);
    LogGrows(s.log, e);
    assert forall x | x in s.log :: x in s'.log;
    assert IdsOk(s') by {
      assert forall x | Ended(x) in s'.log :: Ended(x) in s.log;
    }
    assert BindsOk(s', m.triggerId) by {
      assert forall i | 0 <= i < |s'.log| :: s'.log[i] == if i < |s.log| then s.log[i] else e;
    }
  }

  /** The binding that was used is removed. */
  lemma Unbind(s: State, p: int)
    requires s in Traced(p) && p != 0
    ensures s.(binds := s.binds - {p}) in Traced(0)
  {
  }

  lemma ReceiveKeeps(table: map<int, Kind>, s: State, m: Message, handler: Script, error: Script)
    requires s in Traced(0)
    ensures Receive(table, s, m, handler, error) in Traced(0)
  {
    var bound := BoundTrans(s, m.triggerId);
    if bound.Some? {
      var id, p := bound.value, m.triggerId;
      assert s in Traced(p);
      if Fits(s.trans[id], m) {
        var s1 := Noted(ClearWaiting(s, id), Activated(id, m, s.trans[id]));
        ActivatedKeeps(s, id, m);
        CallsPerformed(s1, id, handler, error);
        DoCallsKeep(s1, id, Performed(handler, error), p);
        EndKeeps(CallTransaction(s1, id, handler, error), id, p);
        Unbind(Activate(s, id, m, handler, error), p);
      } else {
        Unbind(s, p);
      }
    } else if m.command in table {
      if table[m.command].OnePhase? {
        PlainCallsKeep(s, m, handler.calls);
        PlainCallsKeep(PlainCalls(s, m, handler.calls), m, error.calls);
      } else {
        var id, s1 := s.nextTrans, NewTrans(s, m);
        NotedKeeps(s.(trans := s1.trans, nextTrans := s.nextTrans + 1), Started(id, m), 0);
        CallsPerformed(s1, id, handler, error);
        DoCallsKeep(s1, id, Performed(handler, error), 0);
        EndKeeps(CallTransaction(s1, id, handler, error), id, 0);
      }
    }
  }

  lemma PlainCallsKeep(s: State, m: Message, calls: seq<Call>)
    requires s in Traced(0)
    ensures PlainCalls(s, m, calls) in Traced(0)
  {
    PlainCallsTouch(s, m, calls);
  }

  lemma ExpireKeeps(s: State, top: Timer, at: Time, error: Script, during: seq<T.Registration>, after: Time)
    requires s in Traced(0)
    ensures Expire(s, top, at, error, during, after) in Traced(0)
  {
    var s0 := s.(timers := T.Fire(s.timers, top, at));
    if top.action.Timeout? && top.action.transId in s.trans {
      var id := top.action.transId;
      NotedKeeps(ClearWaiting(s0, id), TimedOut(id, top, at), 0);
      var s1 := Noted(ClearWaiting(s0, id), TimedOut(id, top, at));
      DoCallsKeep(s1, id, error.calls, 0);
      EndKeeps(DoCalls(s1, id, error.calls), id, 0);
    }
  }

  lemma StepKeeps(table: map<int, Kind>, s: State, step: Step)
    requires s in Traced(0)
    ensures Next(table, s, step) in Traced(0)
  {
    match step
    case Incoming(m, handler, error) => ReceiveKeeps(table, s, m, handler, error);
    case Expiry(top, at, error, during, after) => ExpireKeeps(s, top, at, error, during, after);
    case OwnTimer(_) =>
    case DropTimer(_) =>
    case TakeIds(_) =>
  }

  lemma {:induction false} RunKeeps(table: map<int, Kind>, s: State, run: seq<Step>)
    requires s in Traced(0)
    ensures After(table, s, run) in Traced(0)
    decreases |run|
  {
    if run != [] {
      StepKeeps(table, s, run[0]);
      RunKeeps(table, Next(table, s, run[0]), run[1..]);
    }
  }

  /** Over every run, whatever messages arrive: a transaction is activated only by a message from
      the end and with the command it waits for, in answer to a package it has sent itself, once
      for each such package, and never after it has ended. */
  lemma DispatchIsSafe(table: map<int, Kind>, now: Time, run: seq<Step>, j: nat)
    requires var log := After(table, Initial(now), run).log; j < |log| && log[j].Activated?
    ensures ActivationOk(After(table, Initial(now), run).log, j)
  {
    RunKeeps(table, Initial(now), run);
  }

  /** The transactions activated were waiting. */
  predicate WereWaiting(log: seq<Event>) {
    forall i | 0 <= i < |log| && log[i].Activated? :: log[i].before.waiting
  }

  lemma {:induction false} CallsLogNoActivation(s: State, id: int, calls: seq<Call>)
    requires id in s.trans && WereWaiting(s.log)
    ensures WereWaiting(DoCalls(s, id, calls).log)
    decreases |calls|
  {
    if calls != [] {
      CallsLogNoActivation(DoCall(s, id, calls[0]), id, calls[1..]);
    }
  }

  lemma MessageActivatesWaiting(table: map<int, Kind>, s: State, m: Message, handler: Script, error: Script)
    requires Clean(s) && WereWaiting(s.log)
    ensures WereWaiting(Receive(table, s, m, handler, error).log)
  {
    var bound := BoundTrans(s, m.triggerId);
    if bound.Some? {
      var id := bound.value;
      var s1 := Noted(ClearWaiting(s, id), Activated(id, m, s.trans[id]));
      CallsPerformed(s1, id, handler, error);
      CallsLogNoActivation(s1, id, Performed(handler, error));
    } else if m.command in table {
      PlainCallsTouch(s, m, handler.calls);
      PlainCallsTouch(PlainCalls(s, m, handler.calls), m, error.calls);
      var s1 := NewTrans(s, m);
      CallsPerformed(s1, s.nextTrans, handler, error);
      CallsLogNoActivation(s1, s.nextTrans, Performed(handler, error));
    }
  }

  lemma StepActivatesWaiting(table: map<int, Kind>, s: State, step: Step)
    requires Clean(s) && WereWaiting(s.log)
    ensures WereWaiting(Next(table, s, step).log)
  {
    match step
    case Incoming(m, handler, error) =>
      MessageActivatesWaiting(table, s, m, handler, error);
    case Expiry(top, at, error, during, after) =>
      if top.action.Timeout? && top.action.transId in s.trans {
        var s0 := s.(timers := T.Fire(s.timers, top, at));
        var id := top.action.transId;
        CallsLogNoActivation(Noted(ClearWaiting(s0, id), TimedOut(id, top, at)), id, error.calls);
      }
    case OwnTimer(_) =>
    case DropTimer(_) =>
    case TakeIds(_) =>
  }

  /** In a run that leaves nothing over, every activated transaction was waiting. */
  lemma {:induction false} OnlyWaitingAreActivated(table: map<int, Kind>, s: State, run: seq<Step>)
    requires AlwaysClean(table, s, run) && WereWaiting(s.log)
    ensures WereWaiting(After(table, s, run).log)
    decreases |run|
  {
    if run != [] {
      StepActivatesWaiting(table, s, run[0]);
      OnlyWaitingAreActivated(table, Next(table, s, run[0]), run[1..]);
    }
  }

  /** The next message can activate a transaction that does not wait exactly if one is registered that
      has a package bound. */
  lemma LateAnswersIff(table: map<int, Kind>, s: State)
    requires WereWaiting(s.log)
    ensures (exists m :: !WereWaiting(Receive(table, s, m, Script([], false), Script([], false)).log))
            <==> exists p :: p != 0 && p in s.binds && s.binds[p] in s.trans && !s.trans[s.binds[p]].waiting
  {
    var silent := Script([], false);
    forall m | !WereWaiting(Receive(table, s, m, silent, silent).log)
      ensures m.triggerId != 0 && m.triggerId in s.binds && s.binds[m.triggerId] in s.trans && !s.trans[s.binds[m.triggerId]].waiting
    {
      SilentMessage(table, s, m);
    }
    forall p | p != 0 && p in s.binds && s.binds[p] in s.trans && !s.trans[s.binds[p]].waiting
      ensures exists m :: !WereWaiting(Receive(table, s, m, silent, silent).log)
    {
      var t := s.trans[s.binds[p]];
      var m := Message(t.waitConn, t.waitService, t.waitCmd, 0, p);
      SilentMessage(table, s, m);
      assert !WereWaiting(Receive(table, s, m, silent, silent).log);
    }
  }

  lemma SilentMessage(table: map<int, Kind>, s: State, m: Message)
    requires WereWaiting(s.log)
    ensures var bound, log := BoundTrans(s, m.triggerId), Receive(table, s, m, Script([], false), Script([], false)).log;
            WereWaiting(log) <==> !(bound.Some? && Fits(s.trans[bound.value], m) && !s.trans[bound.value].waiting)
  {
    var bound := BoundTrans(s, m.triggerId);
    var log := Receive(table, s, m, Script([], false), Script([], false)).log;
    if bound.Some? && Fits(s.trans[bound.value], m) {
      assert log[|s.log|] == Activated(bound.value, m, s.trans[bound.value]);
      assert forall i | 0 <= i < |s.log| :: log[i] == s.log[i];
    }
  }

  // ------------------------------------------------------------ what goes wrong

  const ZERO := Time(0, 0)
  const ONE := Time(1, 0)
  const SILENT := Script([], false)
  const ASK := Script([Send(0, 3, 2, 0, true, true), Wait(0, 3, 4, 9, 1, ZERO)], false)
  const LEFT_TIMER := Timer(1, ONE, ONE, Timeout(1), false)
  const REQUEST := Message(7, 0, 1, 5, 0)
  const LATE := Message(8, 3, 4, 6, 1)

  /** A transaction asks service 3 and waits a second; its timeout's error handler throws; then the
      answer arrives after all. */
  function LeakingRun(): seq<Step> {
    [Incoming(REQUEST, ASK, SILENT),
     Expiry(LEFT_TIMER, ONE, Script([], true), [], ONE),
     Incoming(LATE, SILENT, SILENT)]
  }

  function Asked(): State {
    var t := Trans(1, 1, 7, Trigger(1, 5), 0, 3, 4, 9, true);
    State(map[1 := t], 2, map[1 := 1], 2, [Sent(0, 3, 1, 2, 0)], T.Queue(multiset{LEFT_TIMER}, 2, ZERO, []),
          [Started(1, REQUEST), Bound(1, 1), Waited(1, LEFT_TIMER)])
  }

  const NEW_TRANS := Trans(1, 0, 7, Trigger(1, 5), 0, 0, 0, 0, false)

  function Fresh(): State {
    State(map[1 := NEW_TRANS], 2, map[], 1, [], T.Queue(multiset{}, 1, ZERO, []), [Started(1, REQUEST)])
  }

  function Sending(): State {
    Fresh().(binds := map[1 := 1], nextPackage := 2, sent := [Sent(0, 3, 1, 2, 0)], log := [Started(1, REQUEST), Bound(1, 1)])
  }

  lemma AskingSends()
    ensures DoCall(Fresh(), 1, ASK.calls[0]) == Sending()
  {
  }

  lemma OnlyTransWaits(s: State, w: Call, t: Trans, t': Trans)
    requires s.trans == map[1 := t] && w.Wait?
    requires t' == t.(waitConn := w.conn, waitService := w.service, waitCmd := w.cmd, phase := t.phase + 1,
                      onActive := w.onActive, waiting := true)
    ensures WaitNextPhase(s, 1, w).trans == map[1 := t']
  {
    assert map[1 := t][1 := t'] == map[1 := t'];
  }

  lemma AskingWaits(s: State, w: Call)
    requires s == Sending() && w == Wait(0, 3, 4, 9, 1, ZERO)
    ensures WaitNextPhase(s, 1, w) == Asked()
  {
    hide T.Add;
    TimerOfWait(w);
    OnlyTransWaits(s, w, NEW_TRANS, Asked().trans[1]);
  }

  lemma TimerOfWait(w: Call)
    requires w == Wait(0, 3, 4, 9, 1, ZERO)
    ensures T.Add(T.Queue(multiset{}, 1, ZERO, []), TimeoutTimer(1, w)) == T.Queue(multiset{LEFT_TIMER}, 2, ZERO, [])
  {
    assert NewTimer(1, ONE, Timeout(1), false, ZERO, ZERO) == LEFT_TIMER;
    assert multiset{} + multiset{LEFT_TIMER} == multiset{LEFT_TIMER};
  }

  lemma AskingCalls()
    ensures DoCalls(Fresh(), 1, ASK.calls) == Asked()
  {
    AskingSends();
    AskingWaits(Sending(), ASK.calls[1]);
    assert ASK.calls[1..] == [ASK.calls[1]] && [ASK.calls[1]][1..] == [];
    assert DoCalls(Asked(), 1, []) == Asked();
    assert DoCalls(Sending(), 1, [ASK.calls[1]]) == Asked();
  }

  lemma AskingTimes(q: T.Queue)
    requires q == T.Empty(ZERO)
    ensures ScriptTimes(q, 1, ASK.calls)
  {
    hide T.Add;
    var wait := ASK.calls[1];
    assert ASK.calls[1..] == [wait] && [wait][1..] == [];
    assert T.Proper(q, TimeoutTimer(1, wait));
    assert ScriptTimes(T.Add(q, TimeoutTimer(1, wait)), 1, []);
    assert ScriptTimes(q, 1, [wait]);
  }

  lemma AskedIsReached(table: map<int, Kind>)
    requires table == map[1 := MultiplyPhase]
    ensures Enabled(Initial(ZERO), LeakingRun()[0]) && Next(table, Initial(ZERO), LeakingRun()[0]) == Asked()
  {
    hide DoCalls, DoCall, ScriptTimes, T.Add;
    var s, m := Initial(ZERO), REQUEST;
    AskingTimes(s.timers);
    AskingCalls();
    assert Performed(ASK, SILENT) == ASK.calls;
    assert NewTrans(s, m) == Fresh();
    assert EndUnlessWaiting(Asked(), 1) == Asked();
    assert Begin(table, s, m, ASK, SILENT) == Asked();
  }

  function LeftOver(): State {
    Asked().(trans := map[1 := Asked().trans[1].(waiting := false)],
             timers := T.Queue(multiset{}, 2, ONE, [T.Firing(LEFT_TIMER, ONE)]),
             log := Asked().log + [TimedOut(1, LEFT_TIMER, ONE)])
  }

  lemma LeftOverIsReached(table: map<int, Kind>)
    ensures Enabled(Asked(), LeakingRun()[1]) && Next(table, Asked(), LeakingRun()[1]) == LeftOver()
    ensures Leaks(Asked(), LeakingRun()[1])
  {
    var s0 := Asked().(timers := T.Fire(Asked().timers, LEFT_TIMER, ONE));
    assert T.First(Asked().timers.timers, LEFT_TIMER);
    assert s0.timers.timers == multiset{};
    assert Next(table, Asked(), LeakingRun()[1]).timers == LeftOver().timers;
    assert Next(table, Asked(), LeakingRun()[1]).trans == LeftOver().trans;
  }

  /** So a transaction that neither waits nor is watched is still there, and the late answer
      activates it. */
  lemma LateAnswerActivatesLeftOver(table: map<int, Kind>)
    requires table == map[1 := MultiplyPhase]
    ensures Legal(table, Initial(ZERO), LeakingRun())
    ensures !Clean(After(table, Initial(ZERO), LeakingRun()[..2]))
    ensures !WereWaiting(After(table, Initial(ZERO), LeakingRun()).log)
  {
    var run, s, last := LeakingRun(), Initial(ZERO), Next(table, LeftOver(), LeakingRun()[2]);
    AskedIsReached(table);
    LeftOverIsReached(table);
    assert run[1..] == [run[1], run[2]] && run[1..][1..] == [run[2]] && run[1..][1..][1..] == [];
    assert Legal(table, LeftOver(), [run[2]]) by {
      assert [] + [] == SILENT.calls;
      assert [run[2]][1..] == [];
    }
    assert Legal(table, Asked(), run[1..]);
    assert After(table, s, run) == After(table, Asked(), run[1..]) == After(table, LeftOver(), [run[2]]) == last;
    assert last.log[4] == Activated(1, LATE, LeftOver().trans[1]);
    assert run[..2][1..] == [run[1]] && [run[1]][1..] == [];
    assert After(table, s, run[..2]) == After(table, Asked(), [run[1]]) == LeftOver();
    assert 1 in LeftOver().trans;
  }
}
