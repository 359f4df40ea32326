/** What one message or one expired timeout leads to, told by the calls of the handlers that run and
    the message that started the transaction. */
module Dispatch {
  import opened PreciseTime
  import opened Timers
  import T = TimerRuns
  import opened Wire
  import opened WorkerState
  import opened WorkerRuns
  import opened Requesters

  function Taken(size: int): nat {
    if 0 <= size <= MAX_CONTENT_LEN then 1 else 0
  }

  /** What the calls of a script put in the out queue when package `trigger` of `conn` is answered. */
  function Outgoing(calls: seq<Call>, conn: int, trigger: int, next: int): seq<Sent> {
    if calls == [] then []
    else match calls[0]
      case Send(to, service, command, size, encodes, _) =>
        (if Deliverable(size, encodes) then [Sent(to, service, next, command, 0)] else [])
        + Outgoing(calls[1..], conn, trigger, next + Taken(size))
      case Reply(command, size, encodes) =>
        (if Deliverable(size, encodes) then [Sent(conn, 0, next, command, trigger)] else [])
        + Outgoing(calls[1..], conn, trigger, next + Taken(size))
      case Wait(_, _, _, _, _, _) => Outgoing(calls[1..], conn, trigger, next)
  }

  /** The packages of which a script wants the response. */
  function Asking(calls: seq<Call>, id: int, next: int): map<int, int> {
    if calls == [] then map[]
    else match calls[0]
      case Send(_, _, _, size, encodes, bind) =>
        (if bind && Deliverable(size, encodes) then map[next := id] else map[]) + Asking(calls[1..], id, next + Taken(size))
      case Reply(_, size, _) => Asking(calls[1..], id, next + Taken(size))
      case Wait(_, _, _, _, _, _) => Asking(calls[1..], id, next)
  }

  function LastWait(calls: seq<Call>): (w: Option<Call>)
    ensures w.Some? ==> w.value.Wait?
  {
    if calls == [] then None
    else if calls[|calls| - 1].Wait? then Some(calls[|calls| - 1]) else LastWait(calls[..|calls| - 1])
  }

  lemma MapsJoin(a: map<int, int>, b: map<int, int>, c: map<int, int>)
    ensures (a + b) + c == a + (b + c) && a + map[] == a && map[] + a == a
  {
  }

  lemma {:induction false} CallsPutOut(s: State, id: int, calls: seq<Call>)
    requires id in s.trans && id != 0
    ensures var r, t := DoCalls(s, id, calls), s.trans[id];
            && r.sent == s.sent + Outgoing(calls, t.firstConn, t.firstTrigger.packageId, s.nextPackage)
            && r.binds == s.binds + Asking(calls, id, s.nextPackage)
    decreases |calls|
  {
    if calls == [] {
      assert s.sent + [] == s.sent;
      MapsJoin(s.binds, map[], map[]);
    } else {
      var s1, rest := DoCall(s, id, calls[0]), calls[1..];
      OneCallPutsOut(s, id, calls[0]);
      hide DoCall, DoCalls;
      NextCalls(s, id, calls);
      CallsPutOut(s1, id, rest);
      var t := s.trans[id];
      var conn, trigger := t.firstConn, t.firstTrigger.packageId;
      var first, asked := Outgoing([calls[0]], conn, trigger, s.nextPackage), Asking([calls[0]], id, s.nextPackage);
      MapsJoin(s.binds, asked, Asking(rest, id, s1.nextPackage));
      OutgoingFirst(calls, conn, trigger, id, s.nextPackage, s1.nextPackage);
      assert (s.sent + first) + Outgoing(rest, conn, trigger, s1.nextPackage) == s.sent + (first + Outgoing(rest, conn, trigger, s1.nextPackage));
    }
  }

  lemma NextCalls(s: State, id: int, calls: seq<Call>)
    requires id in s.trans && calls != []
    ensures id in DoCall(s, id, calls[0]).trans && DoCalls(s, id, calls) == DoCalls(DoCall(s, id, calls[0]), id, calls[1..])
  {
  }

  function NextId(c: Call, next: int): int {
    match c
    case Send(_, _, _, size, _, _) => next + Taken(size)
    case Reply(_, size, _) => next + Taken(size)
    case Wait(_, _, _, _, _, _) => next
  }

  lemma OutgoingFirst(calls: seq<Call>, conn: int, trigger: int, id: int, next: int, next': int)
    requires calls != [] && next' == NextId(calls[0], next)
    ensures Outgoing(calls, conn, trigger, next) == Outgoing([calls[0]], conn, trigger, next) + Outgoing(calls[1..], conn, trigger, next')
    ensures Asking(calls, id, next) == Asking([calls[0]], id, next) + Asking(calls[1..], id, next')
  {
    assert [calls[0]][1..] == [];
    assert Outgoing([], conn, trigger, next') == [] && Asking([], id, next') == map[];
    MapsJoin(Asking(calls[1..], id, next'), map[], map[]);
  }

  lemma OneCallPutsOut(s: State, id: int, c: Call)
    requires id in s.trans && id != 0
    ensures var r, t := DoCall(s, id, c), s.trans[id];
            && r.sent == s.sent + Outgoing([c], t.firstConn, t.firstTrigger.packageId, s.nextPackage)
            && r.binds == s.binds + Asking([c], id, s.nextPackage)
            && r.nextPackage == NextId(c, s.nextPackage)
            && r.trans.Keys == s.trans.Keys
            && r.trans[id].firstConn == t.firstConn && r.trans[id].firstTrigger == t.firstTrigger
  {
    assert [c][1..] == [];
    assert s.sent + [] == s.sent;
    MapsJoin(s.binds, map[], map[]);
  }

  lemma {:induction false} PlainCallsPutOut(s: State, m: Message, calls: seq<Call>)
    ensures PlainCalls(s, m, calls).sent == s.sent + Outgoing(calls, m.conn, m.selfId, s.nextPackage)
    decreases |calls|
  {
    if calls == [] {
      assert s.sent + [] == s.sent;
    } else {
      var s1 := PlainCalls(s, m, [calls[0]]);
      OnePlainCall(s, m, calls);
      PlainCallsPutOut(s1, m, calls[1..]);
      OutgoingFirst(calls, m.conn, m.selfId, 0, s.nextPackage, s1.nextPackage);
      var first, later := Outgoing([calls[0]], m.conn, m.selfId, s.nextPackage), Outgoing(calls[1..], m.conn, m.selfId, s1.nextPackage);
      assert (s.sent + first) + later == s.sent + (first + later);
    }
  }

  lemma OnePlainCall(s: State, m: Message, calls: seq<Call>)
    requires calls != []
    ensures var s1 := PlainCalls(s, m, [calls[0]]);
            && s1.sent == s.sent + Outgoing([calls[0]], m.conn, m.selfId, s.nextPackage)
            && s1.nextPackage == NextId(calls[0], s.nextPackage)
            && PlainCalls(s, m, calls) == PlainCalls(s1, m, calls[1..])
  {
    assert [calls[0]][1..] == [];
    assert s.sent + [] == s.sent;
  }

  lemma {:induction false} OutgoingConcat(a: seq<Call>, b: seq<Call>, s: State, m: Message)
    ensures PlainCalls(s, m, a + b) == PlainCalls(PlainCalls(s, m, a), m, b)
    decreases |a|
  {
    if a == [] {
      assert a + b == b;
    } else {
      assert (a + b)[1..] == a[1..] + b && (a + b)[0] == a[0];
      OnePlainCall(s, m, a);
      OnePlainCall(s, m, a + b);
      hide PlainCalls;
      OutgoingConcat(a[1..], b, PlainCalls(s, m, [a[0]]), m);
    }
  }

  /** After its calls a transaction waits for what the last of its waits asked for; without any it
      waits for nothing new. */
  lemma {:induction false} CallsAskFor(s: State, id: int, calls: seq<Call>)
    requires id in s.trans
    ensures var t, t' := s.trans[id], DoCalls(s, id, calls).trans[id];
            && t'.firstConn == t.firstConn && t'.firstTrigger == t.firstTrigger && t'.id == t.id
            && (LastWait(calls).None? ==> t' == t)
            && (LastWait(calls).Some? ==> t'.waiting && WaitsFor(t', LastWait(calls).value))
    decreases |calls|
  {
    if calls != [] {
      var front, last := calls[..|calls| - 1], calls[|calls| - 1];
      assert calls == front + [last] && [last][1..] == [];
      DoCallsConcat(s, id, front, [last]);
      CallsAskFor(s, id, front);
      var s1 := DoCalls(s, id, front);
      assert DoCalls(s1, id, [last]) == DoCall(s1, id, last);
    }
  }

  /** A wait sets a timer to be called once, due so many seconds after the clock reading. */
  lemma WaitIsDue(s: State, id: int, w: Call)
    requires id in s.trans && w.Wait? && Normalised(w.at)
    ensures var s' := DoCall(s, id, w);
            && s'.trans[id].waiting && s'.trans[id].phase == s.trans[id].phase + 1 && s'.timers.nextId == s.timers.nextId + 1
            && (forall t | t in s'.timers.timers :: t in s.timers.timers || t.id == s.timers.nextId)
            && exists t :: t in s'.timers.timers && t.id == s.timers.nextId && t.action == Timeout(id) && !t.frequent
                           && Nanos(t.expiry) == Nanos(w.at) + w.timeout * NANOSECONDS_OF_SECOND
  {
    PlusIsExact(w.at, Time(w.timeout, 0));
    assert WaitTimer(s.timers, id, w) in DoCall(s, id, w).timers.timers;
  }

  predicate WaitsFor(t: Trans, w: Call)
    requires w.Wait?
  {
    t.waitConn == w.conn && t.waitService == w.service && t.waitCmd == w.cmd && t.onActive == w.onActive
  }
  /** What the transaction waits for comes from there. */
  predicate Expected(t: Trans, m: Message) {
    && (t.waitConn != 0 ==> m.conn == t.waitConn)
    && (t.waitConn == 0 ==> m.service == t.waitService)
    && m.command == t.waitCmd
  }

  predicate Sends(s: State, s': State, id: int, m: Message, calls: seq<Call>) {
    && s'.sent == s.sent + Outgoing(calls, m.conn, m.selfId, s.nextPackage)
    && s'.binds == s.binds + Asking(calls, id, s.nextPackage)
  }

  /** A dispatch of transaction `id`, started by `m`, that makes these calls. */
  predicate PutsOut(s: State, s': State, id: int, m: Message, calls: seq<Call>) {
    && Sends(s, s', id, m, calls)
    && (id in s'.trans <==> LastWait(calls).Some?)
    && (id in s'.trans ==> s'.trans[id].waiting && WaitsFor(s'.trans[id], LastWait(calls).value))
    && s'.trans - {id} == s.trans - {id}
  }

  lemma DispatchPutsOut(s: State, id: int, m: Message, calls: seq<Call>)
    requires id in s.trans && id != 0 && Knows(s, id, m) && !s.trans[id].waiting
    ensures Sends(s, DoCalls(s, id, calls), id, m, calls)
    ensures PutsOut(s, EndUnlessWaiting(DoCalls(s, id, calls), id), id, m, calls)
  {
    CallsPutOut(s, id, calls);
    CallsAskFor(s, id, calls);
    DoCallsTouches(s, id, calls);
    hide DoCalls, Outgoing, Asking;
    var s' := EndUnlessWaiting(DoCalls(s, id, calls), id);
    assert s'.trans - {id} == s.trans - {id};
  }

  /** Over every run, what a message leads to: an expected answer continues the transaction that asked
      for it, a request starts one or runs a one-phase handler, and whatever is sent back goes to the
      sender of the request that started it all. The binding of the message answered is used up,
      expected or not. */
  lemma MessageLeadsTo(table: map<int, Kind>, now: Time, run: seq<Step>, m: Message, handler: Script, error: Script)
    ensures var s, calls := After(table, Initial(now), run), Performed(handler, error);
            var s', bound := Receive(table, s, m, handler, error), BoundTrans(s, m.triggerId);
            if bound.Some? then
              if Expected(s.trans[bound.value], m) then
                exists m0, s1 :: Started(bound.value, m0) in s.log && PutsOut(s, s1, bound.value, m0, calls)
                                 && s' == s1.(binds := s1.binds - {m.triggerId})
              else s' == s.(binds := s.binds - {m.triggerId})
            else if m.command !in table then s' == s
            else if table[m.command].OnePhase? then
              s'.sent == s.sent + Outgoing(calls, m.conn, m.selfId, s.nextPackage) && s'.trans == s.trans && s'.binds == s.binds
            else s.nextTrans !in s.trans && s'.nextTrans == s.nextTrans + 1 && PutsOut(s, s', s.nextTrans, m, calls)
  {
    var s, calls := After(table, Initial(now), run), Performed(handler, error);
    InitialRight(now);
    RunRight(table, Initial(now), run);
    var bound := BoundTrans(s, m.triggerId);
    if bound.Some? {
      if Expected(s.trans[bound.value], m) {
        Answered(table, s, m, handler, error);
      }
    } else if m.command in table {
      if table[m.command].OnePhase? {
        OnePhaseSends(table, s, m, handler, error);
      } else {
        Requested(table, s, m, handler, error);
      }
    }
  }

  lemma Answered(table: map<int, Kind>, s: State, m: Message, handler: Script, error: Script)
    requires s in Right() && s in Traced(0)
    requires var bound := BoundTrans(s, m.triggerId); bound.Some? && Expected(s.trans[bound.value], m)
    ensures var id, calls, s' := BoundTrans(s, m.triggerId).value, Performed(handler, error), Receive(table, s, m, handler, error);
            exists m0, s1 :: Started(id, m0) in s.log && PutsOut(s, s1, id, m0, calls) && s' == s1.(binds := s1.binds - {m.triggerId})
  {
    var id, calls := BoundTrans(s, m.triggerId).value, Performed(handler, error);
    var m0 :| Knows(s, id, m0);
    var s0 := Noted(ClearWaiting(s, id), Activated(id, m, s.trans[id]));
    assert Started(id, m0) in s0.log;
    CallsPerformed(s0, id, handler, error);
    DispatchPutsOut(s0, id, m0, calls);
    var s1 := EndUnlessWaiting(DoCalls(s0, id, calls), id);
    SameBefore(s, s0, s1, id, m0, calls);
    hide DoCalls, PutsOut, Right, Traced;
    assert Receive(table, s, m, handler, error) == s1.(binds := s1.binds - {m.triggerId});
  }

  /** What a dispatch does first is not seen from outside. */
  lemma SameBefore(s: State, s0: State, s': State, id: int, m: Message, calls: seq<Call>)
    requires PutsOut(s0, s', id, m, calls) && s0.sent == s.sent && s0.binds == s.binds && s0.nextPackage == s.nextPackage
    requires id in s0.trans && s0.trans == s.trans[id := s0.trans[id]]
    ensures PutsOut(s, s', id, m, calls)
  {
    assert s0.trans - {id} == s.trans - {id};
  }

  lemma Requested(table: map<int, Kind>, s: State, m: Message, handler: Script, error: Script)
    requires s in Right() && s in Traced(0)
    requires BoundTrans(s, m.triggerId).None? && m.command in table && table[m.command].MultiplyPhase?
    ensures var s' := Receive(table, s, m, handler, error);
            s.nextTrans !in s.trans && s'.nextTrans == s.nextTrans + 1 && PutsOut(s, s', s.nextTrans, m, Performed(handler, error))
  {
    var id, calls, s0 := s.nextTrans, Performed(handler, error), NewTrans(s, m);
    assert Knows(s0, id, m);
    CallsPerformed(s0, id, handler, error);
    DispatchPutsOut(s0, id, m, calls);
    DoCallsTouches(s0, id, calls);
    SameBefore(s, s0, EndUnlessWaiting(DoCalls(s0, id, calls), id), id, m, calls);
    hide DoCalls, PutsOut, Right, Traced;
  }

  lemma OnePhaseSends(table: map<int, Kind>, s: State, m: Message, handler: Script, error: Script)
    requires BoundTrans(s, m.triggerId).None? && m.command in table && table[m.command].OnePhase?
    ensures var s' := Receive(table, s, m, handler, error);
            s'.sent == s.sent + Outgoing(Performed(handler, error), m.conn, m.selfId, s.nextPackage)
            && s'.trans == s.trans && s'.binds == s.binds
  {
    var rest := if handler.throws then error.calls else [];
    OutgoingConcat(handler.calls, rest, s, m);
    PlainCallsPutOut(s, m, Performed(handler, error));
    PlainCallsTouch(s, m, Performed(handler, error));
    assert PlainCalls(PlainCalls(s, m, handler.calls), m, []) == PlainCalls(s, m, handler.calls);
  }

  /** Over every run, what the error handler of an expired timeout sends goes to the sender of the
      request, too, whether or not it throws. */
  lemma TimeoutLeadsTo(table: map<int, Kind>, now: Time, run: seq<Step>, top: Timer, at: Time, error: Script,
                       during: seq<T.Registration>, after: Time)
    requires top.action.Timeout? && top.action.transId in After(table, Initial(now), run).trans
    ensures var s, id := After(table, Initial(now), run), top.action.transId;
            var s' := Expire(s, top, at, error, during, after);
            exists m :: Started(id, m) in s.log && Sends(s, s', id, m, error.calls) && (!error.throws ==> PutsOut(s, s', id, m, error.calls))
  {
    var s := After(table, Initial(now), run);
    InitialRight(now);
    RunRight(table, Initial(now), run);
    ErrorSends(s, top, at, error);
    var s0 := s.(timers := T.Fire(s.timers, top, at));
    var s1 := TimeoutAction(s0, top.action.transId, top, at, error);
    var m :| Started(top.action.transId, m) in s.log && Sends(s0, s1, top.action.transId, m, error.calls)
             && (!error.throws ==> PutsOut(s0, s1, top.action.transId, m, error.calls));
    hide TimeoutAction, T.Fire, T.Finish, Outgoing, Asking;
    assert Sends(s, Expire(s, top, at, error, during, after), top.action.transId, m, error.calls);
  }

  lemma ErrorSends(s: State, top: Timer, at: Time, error: Script)
    requires s in Right() && s in Traced(0) && top.action.Timeout? && top.action.transId in s.trans
    ensures var id, s0 := top.action.transId, s.(timers := T.Fire(s.timers, top, at));
            var s1 := TimeoutAction(s0, id, top, at, error);
            exists m :: Started(id, m) in s.log && Sends(s0, s1, id, m, error.calls) && (!error.throws ==> PutsOut(s0, s1, id, m, error.calls))
  {
    var id, s0 := top.action.transId, s.(timers := T.Fire(s.timers, top, at));
    var m :| Knows(s, id, m);
    var s2 := Noted(ClearWaiting(s0, id), TimedOut(id, top, at));
    assert Started(id, m) in s2.log;
    DispatchPutsOut(s2, id, m, error.calls);
    hide DoCalls, Outgoing, Asking, T.Fire;
    assert s2.trans - {id} == s0.trans - {id};
    var s1 := TimeoutAction(s0, id, top, at, error);
    assert Sends(s0, s1, id, m, error.calls);
    assert !error.throws ==> PutsOut(s0, s1, id, m, error.calls);
  }
}
