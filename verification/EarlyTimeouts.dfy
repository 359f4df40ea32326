/** When waits time out. The timer of an earlier phase is not cancelled when its transaction is
    activated, so it can end a later wait before that is due. */
module EarlyTimeouts {
  import opened PreciseTime
  import opened Timers
  import T = TimerRuns
  import opened Wire
  import opened WorkerState
  import opened WorkerRuns
  import opened WorkerTimers

  // ------------------------------------------------------- what the log records

  /** The timer of the wait a transaction began last. */
  function OwnTimer(log: seq<Event>, id: int): Option<Timer> {
    if log == [] then None
    else
      var last := log[|log| - 1];
      if last.Waited? && last.transId == id then Some(last.timer) else OwnTimer(log[..|log| - 1], id)
  }

  lemma OwnTimerNext(log: seq<Event>, e: Event, id: int)
    ensures OwnTimer(log + [e], id) == if e.Waited? && e.transId == id then Some(e.timer) else OwnTimer(log, id)
  {
    assert (log + [e])[..|log|] == log;
  }

  predicate IsTimeout(t: Timer, id: int) {
    t.action == Timeout(id) && !t.frequent
  }

  /** A timeout came from a timer that a wait of this transaction had set, not before that timer's
      expiry, and from no timer a second time. */
  predicate TimeoutOk(log: seq<Event>, j: nat)
    requires j < |log| && log[j].TimedOut?
  {
    var e := log[j];
    && IsTimeout(e.timer, e.transId) && Waited(e.transId, e.timer) in log[..j]
    && !Less(e.at, e.timer.expiry)
    && (forall i | 0 <= i < j && log[i].TimedOut? :: log[i].timer.id != e.timer.id)
  }

  predicate WaitOk(log: seq<Event>, j: nat)
    requires j < |log| && log[j].Waited?
  {
    forall i | 0 <= i < j && log[i].Waited? :: log[i].timer.id < log[j].timer.id
  }

  predicate LogOfTimers(log: seq<Event>) {
    && (forall j | 0 <= j < |log| && log[j].TimedOut? :: TimeoutOk(log, j))
    && (forall j | 0 <= j < |log| && log[j].Waited? :: WaitOk(log, j))
  }

  /** Each outstanding timeout is on record, is to come once, and has not come yet. */
  predicate Outstanding(s: State, t: Timer) {
    t.action.Timeout? ==> !t.frequent && Waited(t.action.transId, t) in s.log
                          && forall i | 0 <= i < |s.log| && s.log[i].TimedOut? :: s.log[i].timer.id != t.id
  }

  /** A transaction that waits has its own timer outstanding. */
  predicate OwnOutstanding(s: State, id: int) {
    var own := OwnTimer(s.log, id);
    own.Some? && own.value in s.timers.timers && IsTimeout(own.value, id)
  }

  predicate FiredOneShot(q: T.Queue) {
    forall i | 0 <= i < |q.fired| && q.fired[i].timer.action.Timeout? :: !q.fired[i].timer.frequent
  }

  /** Ids of timers on record have been given out. */
  predicate IdsGiven(s: State) {
    forall i | 0 <= i < |s.log| && (s.log[i].Waited? || s.log[i].TimedOut?) :: s.log[i].timer.id < s.timers.nextId
  }

  ghost function Recorded(): iset<State> {
    iset s: State |
      && s.timers in T.Good() && LogOfTimers(s.log) && IdsGiven(s) && FiredOneShot(s.timers)
      && (forall t | t in s.timers.timers :: Outstanding(s, t))
      && (forall id | id in s.trans && s.trans[id].waiting :: OwnOutstanding(s, id))
  }

  // ------------------------------------------------------------ events keep it

  lemma LogNext(log: seq<Event>, e: Event)
    requires LogOfTimers(log)
    requires e.TimedOut? ==> TimeoutOk(log + [e], |log|)
    requires e.Waited? ==> WaitOk(log + [e], |log|)
    ensures LogOfTimers(log + [e])
  {
    var log' := log + [e];
    forall j | 0 <= j < |log'| && log'[j].TimedOut?
      ensures TimeoutOk(log', j)
    {
      if j < |log| {
        assert TimeoutOk(log, j) && log'[..j] == log[..j];
      }
    }
    forall j | 0 <= j < |log'| && log'[j].Waited?
      ensures WaitOk(log', j)
    {
      assert j < |log| ==> WaitOk(log, j);
    }
  }

  /** Another event is put on record. */
  lemma OtherEvent(s: State, e: Event)
    requires s in Recorded() && !e.Waited? && !e.TimedOut?
    ensures Noted(s, e) in Recorded()
  {
    LogNext(s.log, e);
    var s' := Noted(s, e);
    forall t | t in s'.timers.timers
      ensures Outstanding(s', t)
    {
      assert Outstanding(s, t);
      assert forall x | x in s.log :: x in s'.log;
    }
    forall id | id in s'.trans && s'.trans[id].waiting
      ensures OwnOutstanding(s', id)
    {
      assert OwnOutstanding(s, id);
      OwnTimerNext(s.log, e, id);
    }
  }

  /** A new timer is in the queue and on record as the own timer of `id`. */
  lemma NewWait(s: State, s': State, id: int, t: Timer)
    requires s in Recorded() && s'.log == s.log + [Waited(id, t)] && IsTimeout(t, id) && t.id == s.timers.nextId
    requires s'.timers in T.Good() && s'.timers.fired == s.timers.fired && s'.timers.nextId == s.timers.nextId + 1
    requires s'.timers.timers == s.timers.timers + multiset{t}
    requires forall x | x in s'.trans && s'.trans[x].waiting && x != id :: x in s.trans && s.trans[x].waiting
    ensures s' in Recorded()
  {
    hide T.Good;
    assert WaitOk(s'.log, |s.log|);
    LogNext(s.log, Waited(id, t));
    hide LogOfTimers, WaitOk;
    assert forall x | x in s.log :: x in s'.log;
    assert s'.log[|s.log|] == Waited(id, t);
    forall u | u in s'.timers.timers
      ensures Outstanding(s', u)
    {
      assert u != t ==> Outstanding(s, u);
    }
    forall x | x in s'.trans && s'.trans[x].waiting
      ensures OwnOutstanding(s', x)
    {
      OwnTimerNext(s.log, Waited(id, t), x);
      assert x != id ==> OwnOutstanding(s, x);
    }
  }

  lemma WaitKeeps(s: State, id: int, w: Call)
    requires s in Recorded() && id in s.trans && w.Wait? && T.Proper(s.timers, TimeoutTimer(id, w))
    ensures WaitNextPhase(s, id, w) in Recorded()
  {
    GoodTimers(s);
    hide Recorded, T.Good;
    T.AddKeeps(s.timers, TimeoutTimer(id, w));
    NewWait(s, WaitNextPhase(s, id, w), id, WaitTimer(s.timers, id, w));
  }

  /** Changes that concern neither timers nor the record. */
  lemma SameRecord(s: State, s': State)
    requires s in Recorded() && s'.log == s.log && s'.timers == s.timers
    requires forall id | id in s'.trans && s'.trans[id].waiting :: id in s.trans && s.trans[id].waiting
    ensures s' in Recorded()
  {
    forall t | t in s'.timers.timers
      ensures Outstanding(s', t)
    {
      assert Outstanding(s, t);
    }
    forall id | id in s'.trans && s'.trans[id].waiting
      ensures OwnOutstanding(s', id)
    {
      assert OwnOutstanding(s, id);
    }
  }

  lemma SendRecorded(s: State, conn: int, service: int, command: int, size: int, encodes: bool, bindTrans: int, triggerId: int)
    requires s in Recorded()
    ensures SendProtocol(s, conn, service, command, size, encodes, bindTrans, triggerId) in Recorded()
  {
    hide Recorded;
    var s' := SendProtocol(s, conn, service, command, size, encodes, bindTrans, triggerId);
    if Deliverable(size, encodes) && bindTrans != 0 {
      OtherEvent(s, Bound(s.nextPackage, bindTrans));
      SameRecord(Noted(s, Bound(s.nextPackage, bindTrans)), s');
    } else {
      SameRecord(s, s');
    }
  }

  lemma CallRecorded(s: State, id: int, c: Call)
    requires s in Recorded() && id in s.trans && (c.Wait? ==> T.Proper(s.timers, TimeoutTimer(id, c)))
    ensures DoCall(s, id, c) in Recorded() && id in DoCall(s, id, c).trans
    ensures DoCall(s, id, c).timers == if c.Wait? then T.Add(s.timers, TimeoutTimer(id, c)) else s.timers
  {
    hide Recorded, T.Proper, T.Add;
    match c
    case Send(conn, service, command, size, encodes, bind) =>
      SendRecorded(s, conn, service, command, size, encodes, if bind then id else 0, 0);
    case Reply(command, size, encodes) =>
      var t := s.trans[id];
      SendRecorded(s, t.firstConn, 0, command, size, encodes, 0, t.firstTrigger.packageId);
      OtherEvent(SendProtocol(s, t.firstConn, 0, command, size, encodes, 0, t.firstTrigger.packageId), Replied(id, s.nextPackage));
    case Wait(_, _, _, _, _, _) => WaitKeeps(s, id, c);
  }

  lemma {:induction false} CallsRecorded(s: State, id: int, calls: seq<Call>)
    requires s in Recorded() && id in s.trans && ScriptTimes(s.timers, id, calls)
    ensures DoCalls(s, id, calls) in Recorded()
    decreases |calls|
  {
    hide Recorded, T.Proper, T.Add, DoCall, TimeoutTimer;
    if calls != [] {
      CallRecorded(s, id, calls[0]);
      CallsRecorded(DoCall(s, id, calls[0]), id, calls[1..]);
    }
  }

  lemma EndRecorded(s: State, id: int)
    requires s in Recorded() && id in s.trans
    ensures EndUnlessWaiting(s, id) in Recorded()
  {
    hide Recorded;
    if !s.trans[id].waiting {
      SameRecord(s, s.(trans := s.trans - {id}));
      OtherEvent(s.(trans := s.trans - {id}), Ended(id));
    }
  }

  lemma ActivateRecorded(s: State, id: int, m: Message, handler: Script, error: Script)
    requires s in Recorded() && id in s.trans && ScriptTimes(s.timers, id, Performed(handler, error))
    ensures Activate(s, id, m, handler, error) in Recorded()
  {
    hide Recorded, ScriptTimes, DoCalls, CallTransaction, EndUnlessWaiting, Performed;
    var s1 := Noted(ClearWaiting(s, id), Activated(id, m, s.trans[id]));
    SameRecord(s, ClearWaiting(s, id));
    OtherEvent(ClearWaiting(s, id), Activated(id, m, s.trans[id]));
    CallsPerformed(s1, id, handler, error);
    CallsRecorded(s1, id, Performed(handler, error));
    EndRecorded(CallTransaction(s1, id, handler, error), id);
  }

  lemma StartRecorded(s: State, m: Message, handler: Script, error: Script)
    requires s in Recorded() && ScriptTimes(s.timers, s.nextTrans, Performed(handler, error))
    ensures EndUnlessWaiting(CallTransaction(NewTrans(s, m), s.nextTrans, handler, error), s.nextTrans) in Recorded()
  {
    hide Recorded, ScriptTimes, DoCalls, CallTransaction, EndUnlessWaiting, Performed;
    var id, s1 := s.nextTrans, NewTrans(s, m);
    SameRecord(s, s.(trans := s1.trans, nextTrans := s.nextTrans + 1));
    OtherEvent(s.(trans := s1.trans, nextTrans := s.nextTrans + 1), Started(id, m));
    CallsPerformed(s1, id, handler, error);
    CallsRecorded(s1, id, Performed(handler, error));
    EndRecorded(CallTransaction(s1, id, handler, error), id);
  }

  lemma ReceiveRecorded(table: map<int, Kind>, s: State, m: Message, handler: Script, error: Script)
    requires s in Recorded() && Enabled(s, Incoming(m, handler, error))
    ensures Receive(table, s, m, handler, error) in Recorded()
  {
    hide Recorded, ScriptTimes, DoCalls, CallTransaction, EndUnlessWaiting, Fits, PlainCalls, Performed, Activate, NewTrans;
    var bound := BoundTrans(s, m.triggerId);
    if bound.Some? {
      var s1 := s;
      if Fits(s.trans[bound.value], m) {
        ActivateRecorded(s, bound.value, m, handler, error);
        s1 := Activate(s, bound.value, m, handler, error);
      }
      SameRecord(s1, s1.(binds := s1.binds - {m.triggerId}));
    } else if m.command in table {
      if table[m.command].OnePhase? {
        PlainCallsTouch(s, m, handler.calls);
        PlainCallsTouch(PlainCalls(s, m, handler.calls), m, error.calls);
        SameRecord(s, Begin(table, s, m, handler, error));
      } else {
        StartRecorded(s, m, handler, error);
      }
    }
  }

  // ----------------------------------------------------------- expiry keeps it

  /** Everything on record of a transaction that does not wait, and of all timers but `top`. */
  lemma FiredRecorded(s: State, top: Timer, at: Time)
    requires s in Recorded() && T.First(s.timers.timers, top) && T.Reading(s.timers.now, at) && !Less(at, top.expiry)
    requires top.action.Timeout? ==> top.action.transId !in s.trans || !s.trans[top.action.transId].waiting
    ensures s.(timers := T.Fire(s.timers, top, at)) in Recorded()
  {
    var s' := s.(timers := T.Fire(s.timers, top, at));
    T.FireKeeps(s.timers, top, at);
    forall t | t in s'.timers.timers
      ensures Outstanding(s', t)
    {
      assert Outstanding(s, t);
    }
    forall id | id in s'.trans && s'.trans[id].waiting
      ensures OwnOutstanding(s', id)
    {
      assert OwnOutstanding(s, id) && Outstanding(s, top);
    }
  }

  lemma TimedOutRecorded(s: State, id: int, top: Timer, at: Time)
    requires s in Recorded() && Outstanding(s, top) && IsTimeout(top, id) && !Less(at, top.expiry)
    requires top.id < s.timers.nextId && (forall t | t in s.timers.timers :: t.id != top.id)
    ensures Noted(s, TimedOut(id, top, at)) in Recorded()
  {
    hide LogOfTimers, T.Good, OwnTimer, Less;
    var e := TimedOut(id, top, at);
    var s' := Noted(s, e);
    assert s'.log[..|s.log|] == s.log;
    assert TimeoutOk(s'.log, |s.log|);
    LogNext(s.log, e);
    hide LogOfTimers, TimeoutOk, T.Good;
    assert forall x | x in s.log :: x in s'.log;
    forall t | t in s'.timers.timers
      ensures Outstanding(s', t)
    {
      assert Outstanding(s, t);
    }
    forall x | x in s'.trans && s'.trans[x].waiting
      ensures OwnOutstanding(s', x)
    {
      assert OwnOutstanding(s, x);
      OwnTimerNext(s.log, e, x);
    }
  }

  /** Only the application's timers come in and go out. */
  lemma OtherTimers(s: State, q: T.Queue)
    requires s in Recorded() && q in T.Good() && q.nextId >= s.timers.nextId && FiredOneShot(q)
    requires forall t | t in q.timers && t.action.Timeout? :: t in s.timers.timers
    requires forall t | t in s.timers.timers && t.action.Timeout? :: t in q.timers
    ensures s.(timers := q) in Recorded()
  {
    var s' := s.(timers := q);
    forall t | t in q.timers
      ensures Outstanding(s', t)
    {
      assert t in s.timers.timers ==> Outstanding(s, t);
    }
    forall id | id in s'.trans && s'.trans[id].waiting
      ensures OwnOutstanding(s', id)
    {
      assert OwnOutstanding(s, id);
    }
  }

  /** What of a queue the timer just processed must not clash with. */
  lemma FiredFacts(s: State, top: Timer, at: Time)
    requires s in Recorded() && T.First(s.timers.timers, top)
    ensures top.id < s.timers.nextId && Outstanding(s, top) && !(top.action.Timeout? && top.frequent)
    ensures FiredOneShot(T.Fire(s.timers, top, at))
    ensures forall t | t in T.Fire(s.timers, top, at).timers :: t.id != top.id
  {
  }

  lemma {:induction false} AddAllOther(q: T.Queue, rs: seq<T.Registration>)
    requires forall r | r in rs :: r.action.Application?
    ensures forall t | t in T.AddAll(q, rs).timers && t.action.Timeout? :: t in q.timers
    decreases |rs|
  {
    if rs != [] {
      AddAllOther(T.Add(q, rs[0]), rs[1..]);
    }
  }

  lemma ApplicationRecorded(s: State, top: Timer, at: Time, error: Script, during: seq<T.Registration>, after: Time)
    requires s in Recorded() && top.action.Application? && T.First(s.timers.timers, top)
    requires Expire(s, top, at, error, during, after).timers in T.Good()
    requires forall r | r in during :: r.action.Application?
    ensures Expire(s, top, at, error, during, after) in Recorded()
  {
    hide Recorded, T.Good, T.AddAll;
    var q := T.Fire(s.timers, top, at);
    T.AddAllAdds(q, during);
    AddAllOther(q, during);
    FiredFacts(s, top, at);
    OtherTimers(s, Expire(s, top, at, error, during, after).timers);
  }

  lemma ExpireRecorded(s: State, top: Timer, at: Time, error: Script, during: seq<T.Registration>, after: Time)
    requires s in Recorded() && Enabled(s, Expiry(top, at, error, during, after))
    ensures Expire(s, top, at, error, during, after) in Recorded()
  {
    FiredFacts(s, top, at);
    GoodTimers(s);
    hide Recorded, T.Good, T.AddAll, T.Reading;
    var step := ExpiryTimers(s, top, at, error, during, after);
    T.NextKeeps(s.timers, step);
    if top.action.Application? {
      ApplicationRecorded(s, top, at, error, during, after);
    } else {
      var id := top.action.transId;
      if id in s.trans {
        TimeoutRecorded(s, top, at, error, id);
      } else {
        FiredRecorded(s, top, at);
      }
      var s1 := RunAction(s.(timers := T.Fire(s.timers, top, at)), top, at, error, during);
      RecordedOneShot(s1);
      assert T.Finish(s1.timers, top, after).timers == s1.timers.timers;
      OtherTimers(s1, T.Finish(s1.timers, top, after));
    }
  }

  lemma RecordedOneShot(s: State)
    requires s in Recorded()
    ensures FiredOneShot(s.timers)
  {
  }

  lemma GoodTimers(s: State)
    requires s in Recorded()
    ensures s.timers in T.Good()
  {
  }

  lemma TimeoutRecorded(s: State, top: Timer, at: Time, error: Script, id: int)
    requires s in Recorded() && T.First(s.timers.timers, top) && T.Reading(s.timers.now, at) && !Less(at, top.expiry)
    requires top.action == Timeout(id) && id in s.trans && ScriptTimes(T.Fire(s.timers, top, at), id, error.calls)
    ensures TimeoutAction(s.(timers := T.Fire(s.timers, top, at)), id, top, at, error) in Recorded()
  {
    FiredFacts(s, top, at);
    hide Recorded, Outstanding, T.First;
    var c := ClearWaiting(s, id);
    SameRecord(s, c);
    FiredRecorded(c, top, at);
    var s1 := c.(timers := T.Fire(s.timers, top, at));
    StillOutstanding(s, s1, top);
    TimedOutRecorded(s1, id, top, at);
    var s2 := Noted(s1, TimedOut(id, top, at));
    CallsRecorded(s2, id, error.calls);
    EndRecorded(DoCalls(s2, id, error.calls), id);
  }

  lemma StillOutstanding(s: State, s': State, t: Timer)
    requires Outstanding(s, t) && s'.log == s.log
    ensures Outstanding(s', t)
  {
  }

  lemma StepRecorded(table: map<int, Kind>, s: State, step: Step)
    requires s in Recorded() && Enabled(s, step)
    ensures Next(table, s, step) in Recorded()
  {
    match step
    case Incoming(m, handler, error) => ReceiveRecorded(table, s, m, handler, error);
    case Expiry(top, at, error, during, after) => ExpireRecorded(s, top, at, error, during, after);
    case OwnTimer(r) =>
      T.AddKeeps(s.timers, r);
      OtherTimers(s, T.Add(s.timers, r));
    case DropTimer(id) =>
      var q := s.timers.(timers := T.Without(s.timers.timers, id));
      assert q.timers <= s.timers.timers;
      T.FewerTimers(s.timers, q.timers);
      OtherTimers(s, q);
    case TakeIds(_) => SameRecord(s, Next(table, s, step));
  }

  lemma {:induction false} RunRecorded(table: map<int, Kind>, s: State, run: seq<Step>)
    requires s in Recorded() && Legal(table, s, run)
    ensures After(table, s, run) in Recorded()
    decreases |run|
  {
    if run != [] {
      StepRecorded(table, s, run[0]);
      RunRecorded(table, Next(table, s, run[0]), run[1..]);
    }
  }

  lemma {:induction false} OwnIsNewest(log: seq<Event>, id: int, t: Timer)
    requires LogOfTimers(log) && Waited(id, t) in log
    ensures var own := OwnTimer(log, id); own.Some? && (t == own.value || t.id < own.value.id)
    decreases |log|
  {
    var front, last := log[..|log| - 1], log[|log| - 1];
    assert log == front + [last];
    if last.Waited? && last.transId == id {
      assert WaitOk(log, |log| - 1);
    } else {
      assert LogOfTimers(front) by {
        FrontOfLog(front, last);
      }
      OwnIsNewest(front, id, t);
    }
  }

  lemma FrontOfLog(log: seq<Event>, e: Event)
    requires LogOfTimers(log + [e])
    ensures LogOfTimers(log)
  {
    var log' := log + [e];
    forall j | 0 <= j < |log| && log[j].TimedOut?
      ensures TimeoutOk(log, j)
    {
      assert TimeoutOk(log', j) && log'[..j] == log[..j];
    }
    forall j | 0 <= j < |log| && log[j].Waited?
      ensures WaitOk(log, j)
    {
      assert WaitOk(log', j) && log'[j] == log[j];
      assert forall i | 0 <= i < j :: log'[i] == log[i];
    }
  }

  lemma {:induction false} PrefixOfLog(log: seq<Event>, j: nat)
    requires LogOfTimers(log) && j <= |log|
    ensures LogOfTimers(log[..j])
    decreases |log|
  {
    if j == |log| {
      assert log[..j] == log;
    } else {
      var front := log[..|log| - 1];
      assert log == front + [log[|log| - 1]] && front[..j] == log[..j];
      FrontOfLog(front, log[|log| - 1]);
      PrefixOfLog(front, j);
    }
  }

  // ------------------------------------------------------------------ theorems

  lemma InitialRecorded(now: Time)
    requires Normalised(now)
    ensures Initial(now) in Recorded()
  {
  }

  /** Over every run: a timeout comes from a timer that a wait of that transaction has set, not
      before that timer's expiry and only once; before the expiry of the wait it ends it comes only
      from the timer of an earlier phase. */
  lemma TimeoutsOfRun(table: map<int, Kind>, now: Time, run: seq<Step>, j: nat)
    requires Normalised(now) && Legal(table, Initial(now), run)
    requires var log := After(table, Initial(now), run).log; j < |log| && log[j].TimedOut?
    ensures var log := After(table, Initial(now), run).log;
            var e, own := log[j], OwnTimer(log[..j], log[j].transId);
            && Waited(e.transId, e.timer) in log[..j] && !e.timer.frequent && !Less(e.at, e.timer.expiry)
            && (forall i | 0 <= i < j && log[i].TimedOut? :: log[i].timer.id != e.timer.id)
            && own.Some? && (Less(e.at, own.value.expiry) ==> e.timer.id < own.value.id)
  {
    var log := After(table, Initial(now), run).log;
    InitialRecorded(now);
    RunRecorded(table, Initial(now), run);
    assert TimeoutOk(log, j);
    PrefixOfLog(log, j);
    OwnIsNewest(log[..j], log[j].transId, log[j].timer);
  }

  /** No timeout timer is called twice, none is early, and they come in the order of their expiry
      times. */
  lemma WaitTimersKeepTheirWord(table: map<int, Kind>, now: Time, run: seq<Step>)
    requires Normalised(now) && Legal(table, Initial(now), run)
    ensures var s := After(table, Initial(now), run);
            && (forall t | t in s.timers.timers && t.action.Timeout? :: !t.frequent)
            && (forall i, j | 0 <= i < j < |s.timers.fired| && s.timers.fired[i].timer.action.Timeout? ::
                  s.timers.fired[j].timer.id != s.timers.fired[i].timer.id)
            && (forall i | 0 <= i < |s.timers.fired| :: !Less(s.timers.fired[i].at, s.timers.fired[i].timer.expiry))
            && (forall i, j | 0 <= i < j < |s.timers.fired| :: AtMost(s.timers.fired[i].timer.expiry, s.timers.fired[j].timer.expiry))
  {
    InitialRecorded(now);
    RunRecorded(table, Initial(now), run);
    var s := After(table, Initial(now), run);
    assert forall t | t in s.timers.timers :: Outstanding(s, t);
    var r := TimersOfRun(table, Initial(now), run);
    T.TimersKeepTheirWord(now, r);
  }

  // -------------------------------------------------------- waits cut short

  /** The transaction is in the same wait in all states of the run. */
  predicate StaysWaiting(table: map<int, Kind>, s: State, run: seq<Step>, id: int, t: Trans)
    decreases |run|
  {
    id in s.trans && s.trans[id] == t && (run == [] || StaysWaiting(table, Next(table, s, run[0]), run[1..], id, t))
  }

  /** After `run`, in which the wait goes on, the step ends it by a timeout before it is due. */
  ghost predicate CutsShort(table: map<int, Kind>, s: State, run: seq<Step>, step: Step, id: int, due: Time)
    requires id in s.trans
  {
    && Legal(table, s, run) && StaysWaiting(table, s, run, id, s.trans[id])
    && Enabled(After(table, s, run), step) && step.Expiry? && step.top.action == Timeout(id) && Less(step.at, due)
  }

  /** A timer of an earlier phase is outstanding and expires before the wait's own. */
  predicate EarlierTimer(s: State, id: int, own: Timer, t: Timer) {
    t in s.timers.timers && t.action == Timeout(id) && t.id < own.id && Less(t.expiry, own.expiry)
  }

  /** The timeouts of `id` in one queue are in the other, and the clock has not gone back. */
  ghost predicate NoNewTimeout(q: T.Queue, q': T.Queue, id: int) {
    AtMost(q.now, q'.now) && forall t | t in q'.timers && t.action == Timeout(id) :: t in q.timers
  }

  lemma {:induction false} AddAllNoTimeout(q: T.Queue, rs: seq<T.Registration>, id: int)
    requires T.AllProper(q, rs) && forall i | 0 <= i < |rs| :: rs[i].action != Timeout(id)
    ensures NoNewTimeout(q, T.AddAll(q, rs), id)
    decreases |rs|
  {
    if rs != [] {
      AddAllNoTimeout(T.Add(q, rs[0]), rs[1..], id);
    }
  }

  lemma {:induction false} RegistrationsOf(x: int, calls: seq<Call>)
    ensures forall i | 0 <= i < |Registrations(x, calls)| :: Registrations(x, calls)[i].action == Timeout(x)
    decreases |calls|
  {
    if calls != [] {
      RegistrationsOf(x, calls[1..]);
    }
  }

  lemma OtherCalls(s: State, x: int, calls: seq<Call>, id: int)
    requires x in s.trans && x != id && ScriptTimes(s.timers, x, calls)
    ensures NoNewTimeout(s.timers, DoCalls(s, x, calls).timers, id)
  {
    CallsRegister(s, x, calls);
    TimesAreProper(s.timers, x, calls);
    RegistrationsOf(x, calls);
    AddAllNoTimeout(s.timers, Registrations(x, calls), id);
  }

  lemma ReceiveOther(table: map<int, Kind>, s: State, m: Message, handler: Script, error: Script, id: int)
    requires Enabled(s, Incoming(m, handler, error)) && id in s.trans && s.trans[id].waiting && id < s.nextTrans
    requires var s' := Receive(table, s, m, handler, error); id in s'.trans && s'.trans[id] == s.trans[id]
    ensures NoNewTimeout(s.timers, Receive(table, s, m, handler, error).timers, id)
  {
    var bound, calls := BoundTrans(s, m.triggerId), Performed(handler, error);
    if bound.Some? {
      var x := bound.value;
      if Fits(s.trans[x], m) {
        var s1 := Noted(ClearWaiting(s, x), Activated(x, m, s.trans[x]));
        CallsPerformed(s1, x, handler, error);
        DoCallsTouches(s1, x, calls);
        if x != id {
          OtherCalls(s1, x, calls, id);
        }
      }
    } else if m.command in table {
      if table[m.command].OnePhase? {
        PlainCallsTouch(s, m, handler.calls);
        PlainCallsTouch(PlainCalls(s, m, handler.calls), m, error.calls);
      } else {
        CallsPerformed(NewTrans(s, m), s.nextTrans, handler, error);
        OtherCalls(NewTrans(s, m), s.nextTrans, calls, id);
      }
    }
  }

  lemma TimeoutOther(s: State, top: Timer, at: Time, error: Script, x: int, id: int)
    requires id in s.trans && s.trans[id].waiting && x in s.trans && ScriptTimes(s.timers, x, error.calls)
    requires var s' := TimeoutAction(s, x, top, at, error); id in s'.trans && s'.trans[id] == s.trans[id]
    ensures NoNewTimeout(s.timers, TimeoutAction(s, x, top, at, error).timers, id)
  {
    hide DoCalls, ScriptTimes;
    var s1 := Noted(ClearWaiting(s, x), TimedOut(x, top, at));
    DoCallsTouches(s1, x, error.calls);
    if x != id {
      OtherCalls(s1, x, error.calls, id);
    }
  }

  lemma FinishedOther(q: T.Queue, top: Timer, at: Time, q1: T.Queue, after: Time, id: int)
    requires NoNewTimeout(T.Fire(q, top, at), q1, id) && AtMost(q.now, at) && AtMost(q1.now, after)
    requires !(top.action.Timeout? && top.frequent)
    ensures NoNewTimeout(q, T.Finish(q1, top, after), id)
  {
  }

  lemma ExpireOther(s: State, top: Timer, at: Time, error: Script, during: seq<T.Registration>, after: Time, id: int)
    requires s in Recorded() && Enabled(s, Expiry(top, at, error, during, after)) && id in s.trans && s.trans[id].waiting
    requires var s' := Expire(s, top, at, error, during, after); id in s'.trans && s'.trans[id] == s.trans[id]
    ensures NoNewTimeout(s.timers, Expire(s, top, at, error, during, after).timers, id)
  {
    FiredFacts(s, top, at);
    hide Recorded, T.First, Outstanding, ScriptTimes, TimeoutAction, T.AllProper, T.AddAll, T.Finish, T.Fire, NoNewTimeout;
    var s0 := s.(timers := T.Fire(s.timers, top, at));
    match top.action {
      case Application(_) => AddAllNoTimeout(s0.timers, during, id);
      case Timeout(x) =>
        if x in s.trans {
          TimeoutOther(s0, top, at, error, x, id);
        } else {
          NobodysTimeout(s0, top, at, error, x);
        }
    }
    FinishedOther(s.timers, top, at, RunAction(s0, top, at, error, during).timers, after, id);
  }

  lemma NobodysTimeout(s: State, top: Timer, at: Time, error: Script, x: int)
    requires x !in s.trans
    ensures TimeoutAction(s, x, top, at, error) == s
  {
  }

  /** A step that leaves a wait as it is sets no timeout of its transaction. */
  lemma SameWaitSameTimers(table: map<int, Kind>, s: State, step: Step, id: int)
    requires s in Recorded() && Enabled(s, step) && id in s.trans && s.trans[id].waiting && id < s.nextTrans
    requires id in Next(table, s, step).trans && Next(table, s, step).trans[id] == s.trans[id]
    ensures NoNewTimeout(s.timers, Next(table, s, step).timers, id)
  {
    hide Recorded;
    match step
    case Incoming(m, handler, error) => ReceiveOther(table, s, m, handler, error, id);
    case Expiry(top, at, error, during, after) => ExpireOther(s, top, at, error, during, after, id);
    case OwnTimer(r) =>
    case DropTimer(_) =>
    case TakeIds(_) =>
  }

  // ------------------------------------------- only by a timer that is there

  ghost predicate Reached(s: State) {
    s in Recorded() && s in Traced(0)
  }

  lemma StepReaches(table: map<int, Kind>, s: State, step: Step)
    requires Reached(s) && Enabled(s, step)
    ensures Reached(Next(table, s, step))
  {
    StepRecorded(table, s, step);
    StepKeeps(table, s, step);
  }

  lemma KnownTrans(s: State, id: int)
    requires Reached(s) && id in s.trans
    ensures id < s.nextTrans
  {
  }

  lemma {:induction false} TopWasThere(table: map<int, Kind>, s: State, run: seq<Step>, step: Step, id: int, due: Time)
    requires Reached(s) && id in s.trans && s.trans[id].waiting && CutsShort(table, s, run, step, id, due)
    ensures step.Expiry? && DueIn(s.timers, step.top, step.at)
    decreases |run|
  {
    KnownTrans(s, id);
    hide Reached, Next, Enabled, DueIn, NoNewTimeout;
    if run == [] {
      CutsShortAtOnce(table, s, step, id, due);
    } else {
      CutsShortNext(table, s, run, step, id, due);
      hide CutsShort;
      var s' := Next(table, s, run[0]);
      StepReaches(table, s, run[0]);
      ReachedRecorded(s);
      SameWaitSameTimers(table, s, run[0], id);
      TopWasThere(table, s', run[1..], step, id, due);
      DueBefore(s.timers, s'.timers, step.top, step.at, id);
    }
  }

  ghost predicate DueIn(q: T.Queue, top: Timer, at: Time) {
    top in q.timers && AtMost(q.now, at) && !Less(at, top.expiry)
  }

  lemma DueBefore(q: T.Queue, q': T.Queue, top: Timer, at: Time, id: int)
    requires DueIn(q', top, at) && NoNewTimeout(q, q', id) && top.action == Timeout(id)
    ensures DueIn(q, top, at)
  {
  }

  lemma CutsShortAtOnce(table: map<int, Kind>, s: State, step: Step, id: int, due: Time)
    requires id in s.trans && CutsShort(table, s, [], step, id, due)
    ensures step.Expiry? && step.top.action == Timeout(id) && DueIn(s.timers, step.top, step.at)
  {
  }

  lemma CutsShortNext(table: map<int, Kind>, s: State, run: seq<Step>, step: Step, id: int, due: Time)
    requires id in s.trans && run != [] && CutsShort(table, s, run, step, id, due)
    ensures Enabled(s, run[0])
    ensures var s' := Next(table, s, run[0]);
            id in s'.trans && s'.trans[id] == s.trans[id] && CutsShort(table, s', run[1..], step, id, due)
  {
    hide Enabled, Next;
    assert StaysWaiting(table, Next(table, s, run[0]), run[1..], id, s.trans[id]);
  }

  lemma CutsShortLater(table: map<int, Kind>, s: State, first: Step, run: seq<Step>, step: Step, id: int, due: Time)
    requires id in s.trans && Enabled(s, first)
    requires var s' := Next(table, s, first);
             id in s'.trans && s'.trans[id] == s.trans[id] && CutsShort(table, s', run, step, id, due)
    ensures CutsShort(table, s, [first] + run, step, id, due)
  {
    hide Enabled, Next;
    assert ([first] + run)[1..] == run;
  }

  lemma CutsShortNow(table: map<int, Kind>, s: State, step: Step, id: int, due: Time)
    requires id in s.trans && Enabled(s, step) && step.Expiry? && step.top.action == Timeout(id) && Less(step.at, due)
    ensures CutsShort(table, s, [], step, id, due)
  {
    hide Enabled;
  }

  lemma ReachedRecorded(s: State)
    requires Reached(s)
    ensures s in Recorded()
  {
  }

  lemma OnlyByEarlierTimer(table: map<int, Kind>, s: State, run: seq<Step>, step: Step, id: int)
    requires Reached(s) && id in s.trans && s.trans[id].waiting
    requires OwnTimer(s.log, id).Some? && CutsShort(table, s, run, step, id, OwnTimer(s.log, id).value.expiry)
    ensures EarlierTimer(s, id, OwnTimer(s.log, id).value, step.top)
    ensures Less(s.timers.now, OwnTimer(s.log, id).value.expiry)
  {
    TopWasThere(table, s, run, step, id, OwnTimer(s.log, id).value.expiry);
    assert Outstanding(s, step.top);
    OwnIsNewest(s.log, id, step.top);
  }

  // ------------------------------------------------ and such a timer can do it

  /** Some timer of a set expires first. */
  lemma {:induction false} SomeFirst(ts: set<Timer>) returns (first: Timer)
    requires ts != {}
    ensures first in ts && forall t | t in ts :: AtMost(first.expiry, t.expiry)
    decreases ts
  {
    first :| first in ts;
    if ts != {first} {
      var other := SomeFirst(ts - {first});
      if Less(other.expiry, first.expiry) {
        first := other;
      }
    }
  }

  function Sooner(q: T.Queue, expiry: Time): set<Timer> {
    set t | t in q.timers && Less(t.expiry, expiry)
  }

  function Silently(top: Timer, at: Time): Step {
    Expiry(top, at, Script([], false), [], at)
  }

  lemma SilentlyEnabled(s: State, top: Timer, at: Time)
    requires T.First(s.timers.timers, top) && T.Reading(s.timers.now, at) && !Less(at, top.expiry)
    ensures Enabled(s, Silently(top, at))
  {
  }

  /** One timer less expires before a time that is not later than the clock. */
  lemma SoonerShrinks(q: T.Queue, q': T.Queue, top: Timer, at: Time, expiry: Time)
    requires q in T.Good() && top in q.timers && Less(top.expiry, expiry) && T.Reading(q.now, at) && AtMost(expiry, at)
    requires q'.timers == q.timers - multiset{top} + T.Rearmed(top, at)
    ensures Sooner(q', expiry) < Sooner(q, expiry)
  {
    if top.frequent {
      PlusIsLater(at, top.interval);
    }
    assert q.timers[top] == 1;
    assert top in Sooner(q, expiry) && top !in Sooner(q', expiry);
  }

  /** A silent step for a timer that is not this transaction's leaves its wait and its timers. */
  lemma SilentTimers(table: map<int, Kind>, s: State, top: Timer, at: Time)
    ensures var q := Next(table, s, Silently(top, at)).timers;
            q.now == at && q.timers == s.timers.timers - multiset{top} + T.Rearmed(top, at)
  {
  }

  lemma SilentStep(table: map<int, Kind>, s: State, top: Timer, at: Time, id: int, t: Timer)
    requires Reached(s) && id in s.trans && top.action != Timeout(id) && t in s.timers.timers && t.action == Timeout(id)
    requires Enabled(s, Silently(top, at)) && Less(top.expiry, t.expiry) && AtMost(t.expiry, at)
    ensures var s' := Next(table, s, Silently(top, at));
            && id in s'.trans && s'.trans[id] == s.trans[id] && t in s'.timers.timers
            && s'.timers.now == at && Sooner(s'.timers, t.expiry) < Sooner(s.timers, t.expiry)
  {
    hide Sooner;
    GoodTimers(s);
    SilentTimers(table, s, top, at);
    SilentTrans(table, s, top, at, id);
    SilentFirst(s, top, at);
    hide Next, Enabled, Reached;
    var s' := Next(table, s, Silently(top, at));
    SoonerShrinks(s.timers, s'.timers, top, at, t.expiry);
  }

  lemma SilentTrans(table: map<int, Kind>, s: State, top: Timer, at: Time, id: int)
    requires id in s.trans && top.action != Timeout(id)
    ensures var s' := Next(table, s, Silently(top, at)); id in s'.trans && s'.trans[id] == s.trans[id]
  {
  }

  lemma SilentFirst(s: State, top: Timer, at: Time)
    requires Enabled(s, Silently(top, at))
    ensures top in s.timers.timers && T.Reading(s.timers.now, at)
  {
  }

  function LaterOf(a: Time, b: Time): Time {
    if Less(a, b) then b else a
  }

  /** From a state with an earlier timer outstanding there is a run that cuts the wait short. */
  lemma {:induction false} CutShort(table: map<int, Kind>, s: State, id: int, t: Timer, due: Time) returns (run: seq<Step>, step: Step)
    requires Reached(s) && id in s.trans && t in s.timers.timers && t.action == Timeout(id)
    requires Less(t.expiry, due) && Less(s.timers.now, due)
    ensures CutsShort(table, s, run, step, id, due)
    decreases Sooner(s.timers, t.expiry)
  {
    var ts := set u | u in s.timers.timers;
    assert t in ts;
    var top := SomeFirst(ts);
    TimersAreNormal(s, top);
    TimersAreNormal(s, t);
    hide Reached, CutsShort;
    var at := LaterOf(s.timers.now, t.expiry);
    assert AtMost(top.expiry, t.expiry);
    if top.action == Timeout(id) {
      SilentlyEnabled(s, top, at);
      run, step := [], Silently(top, at);
      CutsShortNow(table, s, step, id, due);
    } else if Less(top.expiry, t.expiry) {
      SilentlyEnabled(s, top, at);
      hide Enabled, Next;
      SilentStep(table, s, top, at, id, t);
      StepReaches(table, s, Silently(top, at));
      var rest;
      rest, step := CutShort(table, Next(table, s, Silently(top, at)), id, t, due);
      run := [Silently(top, at)] + rest;
      CutsShortLater(table, s, Silently(top, at), rest, step, id, due);
    } else {
      assert forall u | u in s.timers.timers :: u in ts;
      SilentlyEnabled(s, t, at);
      run, step := [], Silently(t, at);
      CutsShortNow(table, s, step, id, due);
    }
  }

  lemma TimersAreNormal(s: State, t: Timer)
    requires Reached(s) && t in s.timers.timers
    ensures Normalised(t.expiry) && Normalised(s.timers.now)
  {
  }

  /** After every run: a wait can be ended by a timeout before it is due exactly if a timer of an
      earlier phase is outstanding that expires sooner. */
  lemma WaitsCanEndEarly(table: map<int, Kind>, now: Time, run: seq<Step>, id: int)
    requires Normalised(now) && Legal(table, Initial(now), run)
    requires var s := After(table, Initial(now), run); id in s.trans && s.trans[id].waiting
    ensures var s := After(table, Initial(now), run);
            var own := OwnTimer(s.log, id);
            && own.Some? && own.value in s.timers.timers && own.value.action == Timeout(id)
            && ((exists more, step :: CutsShort(table, s, more, step, id, own.value.expiry))
                <==> Less(s.timers.now, own.value.expiry) && exists t :: EarlierTimer(s, id, own.value, t))
  {
    var s := After(table, Initial(now), run);
    InitialRecorded(now);
    RunRecorded(table, Initial(now), run);
    RunKeeps(table, Initial(now), run);
    assert OwnOutstanding(s, id);
    hide Recorded, Traced, CutsShort;
    var due := OwnTimer(s.log, id).value.expiry;
    if more, step :| CutsShort(table, s, more, step, id, due) {
      OnlyByEarlierTimer(table, s, more, step, id);
    }
    if Less(s.timers.now, due) {
      if t :| EarlierTimer(s, id, OwnTimer(s.log, id).value, t) {
        var more, step := CutShort(table, s, id, t, due);
      }
    }
  }

  // ------------------------------------------------------------------ a run

  const AGAIN := Script([Wait(0, 3, 4, 9, 100, ZERO)], false)
  const SECOND_TIMER := Timer(2, Time(100, 0), Time(100, 0), Timeout(1), false)

  /** The answer arrives within the first wait of one second, and the transaction waits a hundred
      more. */
  function EarlyRun(): seq<Step> {
    [LeakingRun()[0], Incoming(LATE, AGAIN, SILENT), Silently(LEFT_TIMER, ONE)]
  }

  function WaitingAgain(): State {
    var t := Asked().trans[1].(phase := 2);
    Asked().(trans := map[1 := t], binds := map[], timers := T.Queue(multiset{LEFT_TIMER, SECOND_TIMER}, 3, ZERO, []),
             log := Asked().log + [Activated(1, LATE, Asked().trans[1]), Waited(1, SECOND_TIMER)])
  }

  lemma SecondTimer()
    ensures WaitTimer(Asked().timers, 1, AGAIN.calls[0]) == SECOND_TIMER
    ensures T.Add(Asked().timers, TimeoutTimer(1, AGAIN.calls[0])) == WaitingAgain().timers
    ensures ScriptTimes(Asked().timers, 1, AGAIN.calls)
  {
    assert multiset{LEFT_TIMER} + multiset{SECOND_TIMER} == multiset{LEFT_TIMER, SECOND_TIMER};
    assert T.Proper(Asked().timers, TimeoutTimer(1, AGAIN.calls[0]));
    assert ScriptTimes(T.Add(Asked().timers, TimeoutTimer(1, AGAIN.calls[0])), 1, []);
  }

  lemma AnswerWaitsAgain(table: map<int, Kind>)
    ensures Enabled(Asked(), EarlyRun()[1]) && Next(table, Asked(), EarlyRun()[1]) == WaitingAgain()
  {
    SecondTimer();
    hide T.Add, T.Proper, ScriptTimes, NewTimer, TimeoutTimer;
    var s, t, w := Asked(), Asked().trans[1], AGAIN.calls[0];
    var s1 := Noted(ClearWaiting(s, 1), Activated(1, LATE, t));
    assert AGAIN.calls + [] == AGAIN.calls && AGAIN.calls[1..] == [];
    assert DoCalls(s1, 1, AGAIN.calls) == DoCalls(WaitNextPhase(s1, 1, w), 1, []) == WaitNextPhase(s1, 1, w);
    assert WaitNextPhase(s1, 1, w).trans[1] == WaitingAgain().trans[1];
    assert WaitNextPhase(s1, 1, w).log == WaitingAgain().log;
    assert s.binds - {1} == map[];
    assert WaitNextPhase(s1, 1, w).trans == WaitingAgain().trans;
    assert Activate(s, 1, LATE, AGAIN, SILENT) == WaitNextPhase(s1, 1, w);
  }

  lemma FirstTimerEnds(table: map<int, Kind>)
    ensures Enabled(WaitingAgain(), EarlyRun()[2])
    ensures Next(table, WaitingAgain(), EarlyRun()[2]).log == WaitingAgain().log + [TimedOut(1, LEFT_TIMER, ONE), Ended(1)]
  {
    assert T.First(WaitingAgain().timers.timers, LEFT_TIMER);
    SilentlyEnabled(WaitingAgain(), LEFT_TIMER, ONE);
  }

  /** The first phase's timer ends the second wait a second after it began, 99 before it is due. */
  lemma EarlyTimeoutHappens(table: map<int, Kind>)
    requires table == map[1 := MultiplyPhase]
    ensures Legal(table, Initial(ZERO), EarlyRun())
    ensures var log := After(table, Initial(ZERO), EarlyRun()).log;
            && |log| > 5 && log[5] == TimedOut(1, LEFT_TIMER, ONE)
            && OwnTimer(log[..5], 1) == Some(SECOND_TIMER) && Less(ONE, SECOND_TIMER.expiry)
  {
    var run, s, last := EarlyRun(), WaitingAgain(), Next(table, WaitingAgain(), EarlyRun()[2]);
    AskedIsReached(table);
    AnswerWaitsAgain(table);
    FirstTimerEnds(table);
    hide Enabled, Next;
    assert run[1..] == [run[1], run[2]] && run[1..][1..] == [run[2]] && [run[2]][1..] == [];
    assert Legal(table, s, [run[2]]) && Legal(table, Asked(), run[1..]);
    assert After(table, Initial(ZERO), run) == After(table, Asked(), run[1..]) == After(table, s, [run[2]]) == last;
    assert last.log[..5] == s.log;
    OwnTimerNext(s.log[..4], s.log[4], 1);
    assert s.log == s.log[..4] + [s.log[4]];
  }
}
