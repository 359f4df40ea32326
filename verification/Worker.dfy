/** The worker with its transaction manager, timer queue and out queue. Each method is proved
    against WorkerState. */
module Worker {
  import opened PreciseTime
  import opened Timers
  import T = TimerRuns
  import opened Wire
  import opened WorkerState

  class MultiplyPhaseTransactionManager {
    var nextId: int
    var transList: map<int, Trans>
    var bindList: map<int, int>

    constructor ()
      ensures nextId == 1 && transList == map[] && bindList == map[]
    {
      nextId, transList, bindList := 1, map[], map[];
    }

    method RegisterTransaction() returns (id: int)
      modifies this`nextId, this`transList
      ensures id == old(nextId) && nextId == id + 1
      ensures transList == old(transList)[id := Trans(id, 0, 0, Trigger(0, 0), 0, 0, 0, 0, false)]
    {
      id := nextId;
      nextId := nextId + 1;
      transList := transList[id := Trans(id, 0, 0, Trigger(0, 0), 0, 0, 0, 0, false)];
    }

    /** The transaction a sent package waits for, if it is still there. */
    method FindBoundTransaction(packageId: int) returns (found: Option<int>)
      ensures found.Some? <==> packageId in bindList && bindList[packageId] in transList
      ensures found.Some? ==> found.value == bindList[packageId]
    {
      found := None;
      if packageId in bindList && bindList[packageId] in transList {
        found := Some(bindList[packageId]);
      }
    }
  }

  class Worker {
    const transactions: MultiplyPhaseTransactionManager
    const timers: TimerManager
    const table: map<int, Kind>
    var nextPackage: int
    var outQueue: seq<Sent>
    ghost var now: Time                // The last reading of the clock.
    ghost var fired: seq<T.Firing>     // Timers processed so far.
    ghost var log: seq<Event>
    ghost var firing: Option<Timer>    // The timer whose action is running; it is still in the heap.
    ghost var waiting: multiset<Timer> // The other timers.

    ghost function InAction(): multiset<Timer>
      reads this`firing
    {
      if firing.Some? then multiset{firing.value} else multiset{}
    }

    ghost function Timers(): T.Queue
      reads this`waiting, this`now, this`fired, timers`nextId
    {
      T.Queue(waiting, timers.nextId, now, fired)
    }

    ghost function Snapshot(): State
      reads this, transactions, timers
    {
      State(transactions.transList, transactions.nextId, transactions.bindList, nextPackage, outQueue, Timers(), log)
    }

    ghost predicate Valid()
      reads this, timers
    {
      && timers.Valid() && timers.Contents() == waiting + InAction()
      && (firing.Some? ==> timers.queue != [] && timers.queue[0] == firing.value && AtMost(firing.value.expiry, now))
    }

    constructor (table: map<int, Kind>, ghost start: Time)
      ensures Valid() && fresh(transactions) && fresh(timers) && this.table == table && firing == None
      ensures Snapshot() == Initial(start)
    {
      this.table := table;
      transactions := new MultiplyPhaseTransactionManager();
      timers := new TimerManager();
      nextPackage, outQueue := 1, [];
      now, fired, log, firing, waiting := start, [], [], None, multiset{};
    }

    method SendProtocol(conn: int, service: int, command: int, size: int, encodes: bool, bindTrans: int, triggerId: int)
      requires Valid()
      modifies this`nextPackage, this`outQueue, this`log, transactions`bindList
      ensures Valid()
      ensures Snapshot() == WorkerState.SendProtocol(old(Snapshot()), conn, service, command, size, encodes, bindTrans, triggerId)
    {
      if size < 0 || size > MAX_CONTENT_LEN {
        return;
      }
      var id := nextPackage;
      nextPackage := nextPackage + 1;
      if !encodes {
        return;
      }
      if bindTrans != 0 {
        transactions.bindList := transactions.bindList[id := bindTrans];
        log := log + [Bound(id, bindTrans)];
      }
      outQueue := outQueue + [Sent(conn, service, id, command, triggerId)];
    }

    /** Whatever is registered while an action runs, the timer being processed stays at the front. */
    method RegisterTimer(r: T.Registration)
      requires Valid() && (firing.Some? ==> T.Proper(Timers(), r))
      modifies this`now, this`waiting, timers
      ensures Valid() && Timers() == T.Add(old(Timers()), r)
    {
      hide AtMost, NewTimer, IsHeap, T.Proper, TimerManager.Contents, TimerManager.Valid, InAction, Less;
      ghost var t := NewTimer(timers.nextId, r.interval, r.action, r.frequent, r.delay, r.at);
      if firing.Some? {
        NotOvertaken(Timers(), firing.value, r);
      }
      Swapped(waiting, InAction(), multiset{t});
      var id := timers.RegisterTimer(r.interval, r.action, r.frequent, r.delay, r.at);
      now := r.at;
      waiting := waiting + multiset{t};
    }

    /** Outside of actions; every run keeps the ids apart (TimerRuns.Identified). */
    method RemoveTimer(id: int)
      requires Valid() && firing == None && T.Identified(Timers())
      modifies this`waiting, timers`queue
      ensures Valid() && Timers() == T.Next(old(Timers()), T.Remove(id))
    {
      hide IsHeap, AtMost;
      ghost var q := Timers();
      assert timers.Contents() == q.timers;
      T.DistinctIds(q, timers.queue);
      timers.RemoveTimer(id);
      waiting := timers.Contents();
      T.WithoutIs(q, id, waiting);
    }

    method WaitNextPhase(id: int, w: Call)
      requires Valid() && id in transactions.transList && w.Wait?
      requires firing.Some? ==> T.Proper(Timers(), TimeoutTimer(id, w))
      modifies this`now, this`waiting, this`log, timers, transactions`transList
      ensures Valid() && Snapshot() == WorkerState.WaitNextPhase(old(Snapshot()), id, w)
    {
      var t := transactions.transList[id];
      transactions.transList := transactions.transList[id :=
        t.(waitConn := w.conn, waitService := w.service, waitCmd := w.cmd, phase := t.phase + 1,
           onActive := w.onActive, waiting := true)];
      log := log + [Waited(id, WaitTimer(Timers(), id, w))];
      RegisterTimer(T.Registration(Time(w.timeout, 0), Timeout(id), false, Time(0, 0), w.at));
    }

    method SendBack(id: int, command: int, size: int, encodes: bool)
      requires Valid() && id in transactions.transList
      modifies this`nextPackage, this`outQueue, this`log, transactions`bindList
      ensures Valid() && Snapshot() == WorkerState.SendBack(old(Snapshot()), id, command, size, encodes)
    {
      var t := transactions.transList[id];
      SendProtocol(t.firstConn, 0, command, size, encodes, 0, t.firstTrigger.packageId);
      if Deliverable(size, encodes) {
        log := log + [Replied(id, nextPackage - 1)];
      }
    }

    method MakeCall(id: int, c: Call)
      requires Valid() && id in transactions.transList
      requires firing.Some? && c.Wait? ==> T.Proper(Timers(), TimeoutTimer(id, c))
      modifies this`nextPackage, this`outQueue, this`log, this`now, this`waiting, timers, transactions`bindList, transactions`transList
      ensures Valid() && Snapshot() == DoCall(old(Snapshot()), id, c)
    {
      match c
      case Send(conn, service, command, size, encodes, bind) =>
        SendProtocol(conn, service, command, size, encodes, if bind then id else 0, 0);
      case Reply(command, size, encodes) =>
        SendBack(id, command, size, encodes);
      case Wait(_, _, _, _, _, _) =>
        WaitNextPhase(id, c);
    }

    /** The calls of a handler, one after the other. */
    method RunHandler(id: int, calls: seq<Call>)
      requires Valid() && id in transactions.transList
      requires firing.Some? ==> ScriptTimes(Snapshot().timers, id, calls)
      modifies this`nextPackage, this`outQueue, this`log, this`now, this`waiting, timers, transactions`bindList, transactions`transList
      ensures Valid() && Snapshot() == DoCalls(old(Snapshot()), id, calls)
    {
      hide DoCalls, DoCall, ScriptTimes, T.Proper, IsHeap, AtMost, Timers;
      var i := 0;
      assert calls[0..] == calls;
      while i < |calls|
        invariant 0 <= i <= |calls| && Valid() && id in transactions.transList
        invariant DoCalls(Snapshot(), id, calls[i..]) == DoCalls(old(Snapshot()), id, calls)
        invariant firing.Some? ==> ScriptTimes(Snapshot().timers, id, calls[i..])
      {
        ghost var s := Snapshot();
        NextCall(s, id, calls[i..]);
        if firing.Some? {
          NextTimes(s, id, calls[i..]);
        }
        assert calls[i..][0] == calls[i] && calls[i..][1..] == calls[i + 1..];
        MakeCall(id, calls[i]);
        i := i + 1;
      }
      NoCalls(Snapshot(), id);
      assert calls[i..] == [];
    }

    method CallTransaction(id: int, handler: Script, error: Script)
      requires Valid() && id in transactions.transList && firing == None
      modifies this`nextPackage, this`outQueue, this`log, this`now, this`waiting, timers, transactions`bindList, transactions`transList
      ensures Valid() && Snapshot() == WorkerState.CallTransaction(old(Snapshot()), id, handler, error)
    {
      RunHandler(id, handler.calls);
      if handler.throws {
        RunHandler(id, error.calls);
      }
    }

    method EndUnlessWaiting(id: int)
      requires Valid() && id in transactions.transList
      modifies this`log, transactions`transList
      ensures Valid() && Snapshot() == WorkerState.EndUnlessWaiting(old(Snapshot()), id)
    {
      if !transactions.transList[id].waiting {
        transactions.transList := transactions.transList - {id};
        log := log + [Ended(id)];
      }
    }

    /** A one-phase handler has no transaction; it can only send. */
    method RunPlainHandler(m: Message, calls: seq<Call>)
      requires Valid()
      modifies this`nextPackage, this`outQueue, this`log, transactions`bindList
      ensures Valid() && Snapshot() == PlainCalls(old(Snapshot()), m, calls)
    {
      var i := 0;
      assert calls[0..] == calls;
      while i < |calls|
        invariant 0 <= i <= |calls| && Valid()
        invariant PlainCalls(Snapshot(), m, calls[i..]) == PlainCalls(old(Snapshot()), m, calls)
      {
        assert calls[i..][0] == calls[i] && calls[i..][1..] == calls[i + 1..];
        match calls[i] {
          case Send(conn, service, command, size, encodes, _) =>
            SendProtocol(conn, service, command, size, encodes, 0, 0);
          case Reply(command, size, encodes) =>
            SendProtocol(m.conn, 0, command, size, encodes, 0, m.selfId);
          case Wait(_, _, _, _, _, _) =>
        }
        i := i + 1;
      }
    }

    /** Dispatch of one message. `handler` is what the handler that gets to run does: on_init, the
        waiting transaction's callback, or a one-phase handler. */
    method TriggerTransaction(m: Message, handler: Script, error: Script)
      requires Valid() && firing == None
      modifies this`nextPackage, this`outQueue, this`log, this`now, this`waiting, timers, transactions
      ensures Valid() && Snapshot() == Receive(table, old(Snapshot()), m, handler, error)
    {
      var waiting := None;
      if m.triggerId != 0 {
        waiting := transactions.FindBoundTransaction(m.triggerId);
      }
      if waiting.None? {
        StartTransaction(m, handler, error);
        return;
      }
      var id := waiting.value;
      var t := transactions.transList[id];
      var isFitNetwork := if t.waitConn != 0 then m.conn == t.waitConn else m.service == t.waitService;
      if isFitNetwork && m.command == t.waitCmd {
        transactions.transList := transactions.transList[id := t.(waiting := false)];
        log := log + [Activated(id, m, t)];
        CallTransaction(id, handler, error);
        EndUnlessWaiting(id);
      }
      transactions.bindList := transactions.bindList - {m.triggerId};
    }

    method StartTransaction(m: Message, handler: Script, error: Script)
      requires Valid() && firing == None
      modifies this`nextPackage, this`outQueue, this`log, this`now, this`waiting, timers, transactions
      ensures Valid() && Snapshot() == Begin(table, old(Snapshot()), m, handler, error)
    {
      if m.command !in table {
        return;
      }
      match table[m.command] {
        case OnePhase =>
          RunPlainHandler(m, handler.calls);
          if handler.throws {
            RunPlainHandler(m, error.calls);
          }
        case MultiplyPhase =>
          ghost var s := Snapshot();
          var id := transactions.RegisterTransaction();
          transactions.transList := transactions.transList[id :=
            transactions.transList[id].(firstConn := m.conn, firstTrigger := Trigger(m.command, m.selfId))];
          log := log + [Started(id, m)];
          assert Snapshot() == NewTrans(s, m);
          CallTransaction(id, handler, error);
          EndUnlessWaiting(id);
      }
    }

    /** What a wait_next_phase timer does. An exception of the error handler leaves it at once. */
    method RunTimeout(id: int, error: Script, ghost timer: Timer, ghost at: Time)
      requires Valid() && ScriptTimes(Snapshot().timers, id, error.calls)
      modifies this`nextPackage, this`outQueue, this`log, this`now, this`waiting, timers, transactions`bindList, transactions`transList
      ensures Valid() && Snapshot() == TimeoutAction(old(Snapshot()), id, timer, at, error)
    {
      if id !in transactions.transList {
        return;
      }
      transactions.transList := transactions.transList[id := transactions.transList[id].(waiting := false)];
      log := log + [TimedOut(id, timer, at)];
      RunHandler(id, error.calls);
      if error.throws {
        return;
      }
      EndUnlessWaiting(id);
    }

    method RegisterAll(during: seq<T.Registration>)
      requires Valid() && T.AllProper(Timers(), during)
      modifies this`now, this`waiting, timers
      ensures Valid() && Timers() == T.AddAll(old(Timers()), during)
    {
      hide IsHeap, AtMost, T.Proper;
      var i := 0;
      assert during[0..] == during;
      while i < |during|
        invariant 0 <= i <= |during| && Valid()
        invariant T.AddAll(Timers(), during[i..]) == T.AddAll(old(Timers()), during)
        invariant T.AllProper(Timers(), during[i..])
      {
        assert during[i..][0] == during[i] && during[i..][1..] == during[i + 1..];
        RegisterTimer(during[i]);
        i := i + 1;
      }
    }

    /** `at` and `after` are the readings of the clock before and after the action; `error` and
        `during` say what the action does. */
    method ProcessExpiryTimer(at: Time, error: Script, during: seq<T.Registration>, after: Time) returns (count: int)
      requires Valid() && firing == None
      requires timers.queue != [] && !Less(at, timers.queue[0].expiry) ==>
                 ExpiryTimes(Snapshot(), timers.queue[0], at, error, during, after)
      modifies this, timers, transactions`bindList, transactions`transList
      ensures Valid() && firing == None
      ensures count == 0 || count == 1
      ensures count == 1 <==> old(timers.queue) != [] && !Less(at, old(timers.queue)[0].expiry)
      ensures count == 0 ==> Snapshot() == old(Snapshot())
      ensures count == 1 ==> var top := old(timers.queue)[0];
                             T.First(old(Snapshot()).timers.timers, top)
                             && Snapshot() == Expire(old(Snapshot()), top, at, error, during, after)
    {
      hide IsHeap, AtMost, ExpiryTimes, T.First, Expire;
      if timers.queue == [] {
        return 0;
      }
      var top := timers.queue[0];
      if Less(at, top.expiry) {
        return 0;
      }
      FrontIsMinimal(timers.queue);
      Joined(waiting, multiset{});
      RunFront(top, at, error, during, after);
      count := 1;
    }

    /** The front is due: its action runs while it is still in the heap. */
    method RunFront(top: Timer, at: Time, error: Script, during: seq<T.Registration>, after: Time)
      requires Valid() && firing == None && timers.queue != [] && timers.queue[0] == top
      requires T.First(waiting, top) && ExpiryTimes(Snapshot(), top, at, error, during, after)
      modifies this, timers, transactions`bindList, transactions`transList
      ensures Valid() && firing == None
      ensures Snapshot() == Expire(old(Snapshot()), top, at, error, during, after)
    {
      hide IsHeap, AtMost, ScriptTimes, T.AllProper, T.AddAll, TimeoutAction, T.Reading, T.Rearmed;
      ghost var s := Snapshot();
      DueNow(s.timers, top, at);
      TakenOut(waiting, top);
      now, fired, firing, waiting := at, fired + [T.Firing(top, at)], Some(top), waiting - multiset{top};
      assert Snapshot() == s.(timers := T.Fire(s.timers, top, at));
      match top.action {
        case Timeout(id) => RunTimeout(id, error, top, at);
        case Application(_) => RegisterAll(during);
      }
      FinishTimer(top, after);
    }

    method FinishTimer(top: Timer, after: Time)
      requires Valid() && firing == Some(top)
      modifies this`firing, this`now, this`waiting, timers
      ensures Valid() && firing == None
      ensures Timers() == T.Finish(old(Timers()), top, after)
    {
      TakeFront();
      Rearm(top, after);
    }

    method TakeFront()
      requires Valid() && firing.Some?
      modifies this`firing, timers`queue
      ensures Valid() && firing == None
    {
      hide IsHeap, AtMost;
      Joined(waiting, multiset{firing.value});
      timers.PopHeap();
      firing := None;
    }

    method Rearm(top: Timer, after: Time)
      requires Valid() && firing == None
      modifies this`now, this`waiting, timers`queue
      ensures Valid() && Timers() == T.Finish(old(Timers()), top, after)
    {
      hide IsHeap, AtMost, Plus, TimerManager.Contents, TimerManager.Valid;
      Joined(waiting, multiset{});
      if top.frequent {
        var t := top.(expiry := Plus(after, top.interval));
        timers.Push(t);
        waiting := waiting + multiset{t};
        Joined(waiting, multiset{});
      }
      now := after;
    }
  }

  lemma NextCall(s: State, id: int, calls: seq<Call>)
    requires id in s.trans && calls != []
    ensures id in DoCall(s, id, calls[0]).trans
    ensures DoCalls(s, id, calls) == DoCalls(DoCall(s, id, calls[0]), id, calls[1..])
  {
  }

  lemma TakenOut(timers: multiset<Timer>, top: Timer)
    requires top in timers
    ensures timers - multiset{top} + multiset{top} == timers && timers + multiset{} == timers
  {
  }

  lemma DueNow(q: T.Queue, top: Timer, at: Time)
    requires !Less(at, top.expiry)
    ensures AtMost(top.expiry, at)
  {
  }

  lemma NoCalls(s: State, id: int)
    requires id in s.trans
    ensures DoCalls(s, id, []) == s
  {
  }

  lemma NextTimes(s: State, id: int, calls: seq<Call>)
    requires id in s.trans && calls != [] && ScriptTimes(s.timers, id, calls)
    ensures ScriptTimes(DoCall(s, id, calls[0]).timers, id, calls[1..])
    ensures calls[0].Wait? ==> T.Proper(s.timers, TimeoutTimer(id, calls[0]))
  {
  }

  /** A timer registered while another one is processed does not expire before it. */
  lemma NotOvertaken(q: T.Queue, front: Timer, r: T.Registration)
    requires T.Proper(q, r) && AtMost(front.expiry, q.now)
    ensures AtMost(front.expiry, r.at)
    ensures AtMost(front.expiry, NewTimer(q.nextId, r.interval, r.action, r.frequent, r.delay, r.at).expiry)
  {
    PlusIsLater(r.at, if r.delay.seconds == 0 then r.interval else r.delay);
  }

  lemma Swapped(a: multiset<Timer>, b: multiset<Timer>, c: multiset<Timer>)
    ensures a + b + c == a + c + b
  {
  }

  lemma Joined(a: multiset<Timer>, b: multiset<Timer>)
    ensures a + b - b == a
    ensures a + multiset{} == a
  {
  }

  lemma FrontIsMinimal(q: seq<Timer>)
    requires IsHeap(q) && q != []
    ensures T.First(multiset(q), q[0])
  {
    forall t | t in multiset(q)
      ensures AtMost(q[0].expiry, t.expiry)
    {
      var i :| 0 <= i < |q| && q[i] == t;
      FrontIsFirst(q, i);
    }
  }
}
