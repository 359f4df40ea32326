/** What a client sees of its request: exactly one answer among the packages for its connection. */
module Clients {
  import opened PreciseTime
  import opened Timers
  import T = TimerRuns
  import opened Wire
  import opened WorkerState
  import opened WorkerRuns
  import opened Conservation
  import opened Requesters

  predicate Matches(e: Sent, conn: int, trigger: int) {
    e.conn == conn && e.service == 0 && e.triggerId == trigger
  }

  /** Number of packages for `conn` that answer its package `trigger`. */
  function AnswersTo(sent: seq<Sent>, conn: int, trigger: int): nat {
    if sent == [] then 0
    else AnswersTo(sent[..|sent| - 1], conn, trigger) + if Matches(sent[|sent| - 1], conn, trigger) then 1 else 0
  }

  /** Such packages are replies of transactions. */
  ghost function Sourced(conn: int, trigger: int): iset<State> {
    iset s: State | forall k | 0 <= k < |s.sent| && Matches(s.sent[k], conn, trigger) :: exists id :: Replied(id, s.sent[k].packageId) in s.log
  }

  /** No one-phase handler runs for this package. */
  predicate NotPlain(table: map<int, Kind>, s: State, step: Step, conn: int, trigger: int) {
    step.Incoming? && BoundTrans(s, step.m.triggerId).None? && step.m.command in table && table[step.m.command].OnePhase?
    ==> step.m.conn != conn || step.m.selfId != trigger
  }

  predicate NeverPlain(table: map<int, Kind>, s: State, run: seq<Step>, conn: int, trigger: int)
    decreases |run|
  {
    run == [] || (NotPlain(table, s, run[0], conn, trigger) && NeverPlain(table, Next(table, s, run[0]), run[1..], conn, trigger))
  }

  lemma SameSource(s: State, s': State, conn: int, trigger: int)
    requires s in Sourced(conn, trigger) && s'.sent == s.sent && s.log <= s'.log
    ensures s' in Sourced(conn, trigger)
  {
    forall k | 0 <= k < |s'.sent| && Matches(s'.sent[k], conn, trigger)
      ensures exists id :: Replied(id, s'.sent[k].packageId) in s'.log
    {
      var id :| Replied(id, s.sent[k].packageId) in s.log;
      assert Replied(id, s'.sent[k].packageId) in s'.log;
    }
  }

  lemma SendSourced(s: State, to: int, service: int, command: int, size: int, encodes: bool, bindTrans: int, triggerId: int,
                    conn: int, trigger: int)
    requires s in Sourced(conn, trigger) && !(to == conn && service == 0 && triggerId == trigger)
    ensures SendProtocol(s, to, service, command, size, encodes, bindTrans, triggerId) in Sourced(conn, trigger)
  {
    var s' := SendProtocol(s, to, service, command, size, encodes, bindTrans, triggerId);
    SameSource(s, s.(log := s'.log), conn, trigger);
  }

  lemma BackSourced(s: State, id: int, command: int, size: int, encodes: bool, conn: int, trigger: int)
    requires s in Sourced(conn, trigger) && id in s.trans
    ensures SendBack(s, id, command, size, encodes) in Sourced(conn, trigger)
  {
    var s' := SendBack(s, id, command, size, encodes);
    SameSource(s, s.(log := s'.log), conn, trigger);
    if Deliverable(size, encodes) {
      assert Replied(id, s.nextPackage) in s'.log;
    }
  }

  lemma {:induction false} CallsSourced(s: State, id: int, calls: seq<Call>, conn: int, trigger: int)
    requires s in Sourced(conn, trigger) && id in s.trans && trigger != 0
    ensures DoCalls(s, id, calls) in Sourced(conn, trigger)
    decreases |calls|
  {
    hide Sourced;
    if calls != [] {
      match calls[0] {
        case Send(to, service, command, size, encodes, bind) =>
          SendSourced(s, to, service, command, size, encodes, if bind then id else 0, 0, conn, trigger);
        case Reply(command, size, encodes) => BackSourced(s, id, command, size, encodes, conn, trigger);
        case Wait(_, _, _, _, _, _) => SameSource(s, DoCall(s, id, calls[0]), conn, trigger);
      }
      CallsSourced(DoCall(s, id, calls[0]), id, calls[1..], conn, trigger);
    }
  }

  lemma {:induction false} PlainSourced(s: State, m: Message, calls: seq<Call>, conn: int, trigger: int)
    requires s in Sourced(conn, trigger) && trigger != 0 && (m.conn != conn || m.selfId != trigger)
    ensures PlainCalls(s, m, calls) in Sourced(conn, trigger)
    decreases |calls|
  {
    hide Sourced;
    if calls != [] {
      match calls[0] {
        case Send(to, service, command, size, encodes, _) =>
          SendSourced(s, to, service, command, size, encodes, 0, 0, conn, trigger);
          PlainSourced(SendProtocol(s, to, service, command, size, encodes, 0, 0), m, calls[1..], conn, trigger);
        case Reply(command, size, encodes) =>
          SendSourced(s, m.conn, 0, command, size, encodes, 0, m.selfId, conn, trigger);
          PlainSourced(SendProtocol(s, m.conn, 0, command, size, encodes, 0, m.selfId), m, calls[1..], conn, trigger);
        case Wait(_, _, _, _, _, _) => PlainSourced(s, m, calls[1..], conn, trigger);
      }
    }
  }

  lemma StepSourced(table: map<int, Kind>, s: State, step: Step, conn: int, trigger: int)
    requires s in Sourced(conn, trigger) && trigger != 0 && NotPlain(table, s, step, conn, trigger)
    ensures Next(table, s, step) in Sourced(conn, trigger)
  {
    hide Sourced, DoCalls, PlainCalls;
    match step
    case Incoming(m, handler, error) =>
      var bound, calls := BoundTrans(s, m.triggerId), Performed(handler, error);
      if bound.Some? {
        if Fits(s.trans[bound.value], m) {
          var s1 := Noted(ClearWaiting(s, bound.value), Activated(bound.value, m, s.trans[bound.value]));
          SameSource(s, s1, conn, trigger);
          CallsPerformed(s1, bound.value, handler, error);
          CallsSourced(s1, bound.value, calls, conn, trigger);
          SameSource(DoCalls(s1, bound.value, calls), Next(table, s, step), conn, trigger);
        } else {
          SameSource(s, Next(table, s, step), conn, trigger);
        }
      } else if m.command in table {
        if table[m.command].OnePhase? {
          PlainSourced(s, m, handler.calls, conn, trigger);
          PlainSourced(PlainCalls(s, m, handler.calls), m, error.calls, conn, trigger);
        } else {
          var s1 := NewTrans(s, m);
          SameSource(s, s1, conn, trigger);
          CallsPerformed(s1, s.nextTrans, handler, error);
          CallsSourced(s1, s.nextTrans, calls, conn, trigger);
          SameSource(DoCalls(s1, s.nextTrans, calls), Next(table, s, step), conn, trigger);
        }
      }
    case Expiry(top, at, error, during, after) => ExpirySourced(s, top, at, error, during, after, conn, trigger);
    case OwnTimer(_) => SameSource(s, Next(table, s, step), conn, trigger);
    case DropTimer(_) => SameSource(s, Next(table, s, step), conn, trigger);
    case TakeIds(_) => SameSource(s, Next(table, s, step), conn, trigger);
  }

  lemma ExpirySourced(s: State, top: Timer, at: Time, error: Script, during: seq<T.Registration>, after: Time, conn: int, trigger: int)
    requires s in Sourced(conn, trigger) && trigger != 0
    ensures Expire(s, top, at, error, during, after) in Sourced(conn, trigger)
  {
    hide Sourced, DoCalls, T.Fire, T.Finish, T.AddAll;
    var s0, s' := s.(timers := T.Fire(s.timers, top, at)), Expire(s, top, at, error, during, after);
    if top.action.Timeout? && top.action.transId in s.trans {
      var s1 := Noted(ClearWaiting(s0, top.action.transId), TimedOut(top.action.transId, top, at));
      SameSource(s, s1, conn, trigger);
      CallsSourced(s1, top.action.transId, error.calls, conn, trigger);
      SameSource(DoCalls(s1, top.action.transId, error.calls), s', conn, trigger);
    } else {
      SameSource(s, s', conn, trigger);
    }
  }

  lemma {:induction false} RunSourced(table: map<int, Kind>, s: State, run: seq<Step>, conn: int, trigger: int)
    requires s in Sourced(conn, trigger) && trigger != 0 && NeverPlain(table, s, run, conn, trigger)
    ensures After(table, s, run) in Sourced(conn, trigger)
    decreases |run|
  {
    hide Sourced, Next, NotPlain;
    if run != [] {
      StepSourced(table, s, run[0], conn, trigger);
      RunSourced(table, Next(table, s, run[0]), run[1..], conn, trigger);
    }
  }

  lemma {:induction false} SameCount(sent: seq<Sent>, log: seq<Event>, id: int, conn: int, trigger: int)
    requires forall k | 0 <= k < |sent| :: Replied(id, sent[k].packageId) in log <==> Matches(sent[k], conn, trigger)
    ensures RepliesIn(sent, log, id) == AnswersTo(sent, conn, trigger)
  {
    if sent != [] {
      SameCount(sent[..|sent| - 1], log, id, conn, trigger);
    }
  }

  /** What the client sees: over every run, a request that no other shares its connection and package id
      with has exactly one answer in the out queue when its transaction is gone, and none before. */
  lemma ClientIsAnsweredOnce(table: map<int, Kind>, now: Time, run: seq<Step>, id: int, m: Message)
    requires DisciplinedRun(table, Initial(now), run, id) && id > 0 && m.selfId != 0
    requires NeverPlain(table, Initial(now), run, m.conn, m.selfId)
    requires var s := After(table, Initial(now), run);
             && Started(id, m) in s.log
             && (forall x, other | Started(x, other) in s.log && other.conn == m.conn && other.selfId == m.selfId :: x == id)
    ensures var s := After(table, Initial(now), run); AnswersTo(s.sent, m.conn, m.selfId) == if id in s.trans then 0 else 1
  {
    var s := After(table, Initial(now), run);
    InitialRight(now);
    RunRight(table, Initial(now), run);
    RunSourced(table, Initial(now), run, m.conn, m.selfId);
    forall k | 0 <= k < |s.sent|
      ensures IsReply(s, k, id) <==> Matches(s.sent[k], m.conn, m.selfId)
    {
      OnlyItsReplies(s, k, id, m);
    }
    SameCount(s.sent, s.log, id, m.conn, m.selfId);
    assert s in Right() && s.nextTrans > id;
    AnsweredOnceOrWaiting(table, now, run, id);
  }

  lemma OnlyItsReplies(s: State, k: nat, id: int, m: Message)
    requires s in Right() && s in Sourced(m.conn, m.selfId) && Started(id, m) in s.log && k < |s.sent|
    requires forall x, other | Started(x, other) in s.log && other.conn == m.conn && other.selfId == m.selfId :: x == id
    ensures IsReply(s, k, id) <==> Matches(s.sent[k], m.conn, m.selfId)
  {
    hide Right;
    if Matches(s.sent[k], m.conn, m.selfId) {
      var x :| Replied(x, s.sent[k].packageId) in s.log;
      var other := ReplyEntry(s, k, x);
    }
    if IsReply(s, k, id) {
      var m' := ReplyEntry(s, k, id);
      OneStarter(s, id, m, m');
    }
  }
}
