/** Requests and replies: when handlers keep the discipline of the file transactions, a dispatched
    request has been answered exactly once or its transaction is still waiting. */
module Conservation {
  import opened PreciseTime
  import opened Timers
  import T = TimerRuns
  import opened Wire
  import opened WorkerState
  import opened WorkerRuns

  /** Number of replies in a script that reach the out queue. */
  function Answers(calls: seq<Call>): nat {
    if calls == [] then 0
    else (if calls[0].Reply? && Deliverable(calls[0].size, calls[0].encodes) then 1 else 0) + Answers(calls[1..])
  }

  /** An error handler answers, does not wait, and does not throw. */
  predicate ErrorOk(error: Script) {
    !error.throws && Answers(error.calls) == 1 && !Waits(error.calls)
  }

  /** Any other handler waits or answers; when it throws it has done neither. */
  predicate HandlerOk(handler: Script, error: Script) {
    if handler.throws then Answers(handler.calls) == 0 && !Waits(handler.calls) && ErrorOk(error)
    else Answers(handler.calls) == if Waits(handler.calls) then 0 else 1
  }

  /** The discipline for one transaction: the steps that run its handlers keep it. */
  predicate Disciplined(table: map<int, Kind>, s: State, step: Step, id: int) {
    match step
    case Incoming(m, handler, error) => Addressed(s, m) == id && Runs(table, s, m) ==> HandlerOk(handler, error)
    case Expiry(top, _, error, _, _) => top.action == Timeout(id) && id in s.trans ==> ErrorOk(error)
    case OwnTimer(_) => true
    case DropTimer(_) => true
    case TakeIds(_) => true
  }

  /** The message starts or activates a multi-phase transaction. */
  predicate Runs(table: map<int, Kind>, s: State, m: Message) {
    var bound := BoundTrans(s, m.triggerId);
    if bound.Some? then Fits(s.trans[bound.value], m)
    else m.command in table && table[m.command].MultiplyPhase?
  }

  predicate DisciplinedRun(table: map<int, Kind>, s: State, run: seq<Step>, id: int)
    decreases |run|
  {
    run == [] || (Disciplined(table, s, run[0], id) && DisciplinedRun(table, Next(table, s, run[0]), run[1..], id))
  }

  /** Number of entries of the out queue that are replies of `id`. */
  function Replies(s: State, id: int): nat {
    RepliesIn(s.sent, s.log, id)
  }

  function RepliesIn(sent: seq<Sent>, log: seq<Event>, id: int): nat {
    if sent == [] then 0
    else RepliesIn(sent[..|sent| - 1], log, id) + if Replied(id, sent[|sent| - 1].packageId) in log then 1 else 0
  }

  /** Package ids on record have been given out. */
  predicate Numbered(s: State) {
    && (forall k | 0 <= k < |s.sent| :: s.sent[k].packageId < s.nextPackage)
    && (forall i | 0 <= i < |s.log| && s.log[i].Replied? :: s.log[i].packageId < s.nextPackage)
  }

  /** One reply, or still registered and waiting. */
  predicate Accounted(s: State, id: int) {
    && (id >= s.nextTrans ==> id !in s.trans && Replies(s, id) == 0)
    && (0 < id < s.nextTrans ==> Replies(s, id) == if id in s.trans then 0 else 1)
    && (id in s.trans ==> s.trans[id].waiting)
  }

  lemma {:induction false} AnswersConcat(a: seq<Call>, b: seq<Call>)
    ensures Answers(a + b) == Answers(a) + Answers(b)
  {
    if a == [] {
      assert a + b == b;
    } else {
      assert (a + b)[1..] == a[1..] + b;
      AnswersConcat(a[1..], b);
    }
  }

  lemma WaitsConcat(a: seq<Call>, b: seq<Call>)
    ensures Waits(a + b) <==> Waits(a) || Waits(b)
  {
    forall i | 0 <= i < |a| + |b|
      ensures (a + b)[i] == if i < |a| then a[i] else b[i - |a|]
    {
    }
    forall i | 0 <= i < |b| && b[i].Wait?
      ensures Waits(a + b)
    {
      assert (a + b)[|a| + i].Wait?;
    }
    forall i | 0 <= i < |a| && a[i].Wait?
      ensures Waits(a + b)
    {
      assert (a + b)[i].Wait?;
    }
  }

  /** In the end a disciplined dispatch has answered or waits. */
  lemma PerformedOk(handler: Script, error: Script)
    requires HandlerOk(handler, error)
    ensures Answers(Performed(handler, error)) == if Waits(Performed(handler, error)) then 0 else 1
  {
    var rest := if handler.throws then error.calls else [];
    AnswersConcat(handler.calls, rest);
    WaitsConcat(handler.calls, rest);
  }

  /** Only the ids of the entries matter. */
  lemma {:induction false} SameReplies(sent: seq<Sent>, log: seq<Event>, log': seq<Event>, x: int)
    requires forall k | 0 <= k < |sent| :: Replied(x, sent[k].packageId) in log <==> Replied(x, sent[k].packageId) in log'
    ensures RepliesIn(sent, log', x) == RepliesIn(sent, log, x)
  {
    if sent != [] {
      SameReplies(sent[..|sent| - 1], log, log', x);
    }
  }

  lemma NotedReplies(s: State, e: Event, x: int)
    requires !e.Replied?
    ensures Replies(Noted(s, e), x) == Replies(s, x)
    ensures Numbered(s) ==> Numbered(Noted(s, e))
  {
    SameReplies(s.sent, s.log, s.log + [e], x);
  }

  /** An entry with a new package id joins the queue. */
  lemma SentReplies(s: State, s': State, e: Sent, x: int)
    requires Numbered(s) && e.packageId == s.nextPackage < s'.nextPackage && s'.sent == s.sent + [e] && s'.log == s.log
    ensures Numbered(s') && Replies(s', x) == Replies(s, x) && Replied(x, e.packageId) !in s'.log
  {
    assert s'.sent[..|s.sent|] == s.sent;
  }

  lemma SendReplies(s: State, conn: int, service: int, command: int, size: int, encodes: bool, bindTrans: int, triggerId: int, x: int)
    requires Numbered(s)
    ensures var r := SendProtocol(s, conn, service, command, size, encodes, bindTrans, triggerId);
            Numbered(r) && Replies(r, x) == Replies(s, x)
  {
    if Deliverable(size, encodes) {
      var e := Sent(conn, service, s.nextPackage, command, triggerId);
      var s1 := s.(nextPackage := s.nextPackage + 1, sent := s.sent + [e]);
      SentReplies(s, s1, e, x);
      if bindTrans != 0 {
        NotedReplies(s1.(binds := s1.binds[s.nextPackage := bindTrans]), Bound(s.nextPackage, bindTrans), x);
      }
    }
  }

  /** A reply that reaches the queue is one entry more for its transaction and none for others. */
  lemma BackReplies(s: State, id: int, command: int, size: int, encodes: bool, x: int)
    requires Numbered(s) && id in s.trans
    ensures var r := SendBack(s, id, command, size, encodes);
            Numbered(r) && Replies(r, x) == Replies(s, x) + if x == id && Deliverable(size, encodes) then 1 else 0
  {
    var t, p := s.trans[id], s.nextPackage;
    SendReplies(s, t.firstConn, 0, command, size, encodes, 0, t.firstTrigger.packageId, x);
    if Deliverable(size, encodes) {
      var s1 := SendProtocol(s, t.firstConn, 0, command, size, encodes, 0, t.firstTrigger.packageId);
      assert s1.sent[..|s.sent|] == s.sent && s1.sent[|s.sent|].packageId == p;
      SameReplies(s.sent, s1.log, s1.log + [Replied(id, p)], x);
      assert Replied(x, p) !in s.log;
    }
  }

  lemma {:induction false} CallsReply(s: State, id: int, calls: seq<Call>, x: int)
    requires id in s.trans && Numbered(s)
    ensures Numbered(DoCalls(s, id, calls))
    ensures Replies(DoCalls(s, id, calls), x) == Replies(s, x) + if x == id then Answers(calls) else 0
    decreases |calls|
  {
    hide Replies, Numbered;
    if calls != [] {
      match calls[0] {
        case Send(conn, service, command, size, encodes, bind) =>
          SendReplies(s, conn, service, command, size, encodes, if bind then id else 0, 0, x);
        case Reply(command, size, encodes) =>
          BackReplies(s, id, command, size, encodes, x);
        case Wait(_, _, _, _, _, _) =>
          WaitReplies(s, id, calls[0], x);
      }
      CallsReply(DoCall(s, id, calls[0]), id, calls[1..], x);
    }
  }

  lemma WaitReplies(s: State, id: int, w: Call, x: int)
    requires Numbered(s) && id in s.trans && w.Wait?
    ensures Numbered(WaitNextPhase(s, id, w)) && Replies(WaitNextPhase(s, id, w), x) == Replies(s, x)
  {
    SameReplies(s.sent, s.log, WaitNextPhase(s, id, w).log, x);
  }

  lemma {:induction false} PlainReplies(s: State, m: Message, calls: seq<Call>, x: int)
    requires Numbered(s)
    ensures Numbered(PlainCalls(s, m, calls)) && Replies(PlainCalls(s, m, calls), x) == Replies(s, x)
    decreases |calls|
  {
    hide Replies, Numbered;
    if calls != [] {
      match calls[0] {
        case Send(conn, service, command, size, encodes, _) =>
          SendReplies(s, conn, service, command, size, encodes, 0, 0, x);
          PlainReplies(SendProtocol(s, conn, service, command, size, encodes, 0, 0), m, calls[1..], x);
        case Reply(command, size, encodes) =>
          SendReplies(s, m.conn, 0, command, size, encodes, 0, m.selfId, x);
          PlainReplies(SendProtocol(s, m.conn, 0, command, size, encodes, 0, m.selfId), m, calls[1..], x);
        case Wait(_, _, _, _, _, _) =>
          PlainReplies(s, m, calls[1..], x);
      }
    }
  }

  /** The common end of every dispatch to `id`: the calls are made, then the transaction ends unless
      it waits. `x` is the transaction being accounted for. */
  lemma DispatchAccounts(s: State, id: int, calls: seq<Call>, x: int)
    requires id in s.trans && !s.trans[id].waiting && 0 < id < s.nextTrans
    requires x != id ==> Accounted(s, x)
    requires x == id ==> Replies(s, x) == 0 && Answers(calls) == if Waits(calls) then 0 else 1
    requires Numbered(s)
    ensures var r := EndUnlessWaiting(DoCalls(s, id, calls), id); Numbered(r) && Accounted(r, x)
  {
    hide RepliesIn;
    CallsReply(s, id, calls, x);
    DoCallsTouches(s, id, calls);
    NotedReplies(DoCalls(s, id, calls), Ended(id), x);
  }

  lemma IncomingAccounts(table: map<int, Kind>, s: State, m: Message, handler: Script, error: Script, x: int)
    requires s in Traced(0) && Accounted(s, x) && Disciplined(table, s, Incoming(m, handler, error), x) && Numbered(s)
    ensures Accounted(Receive(table, s, m, handler, error), x) && Numbered(Receive(table, s, m, handler, error))
  {
    hide RepliesIn;
    var bound, calls := BoundTrans(s, m.triggerId), Performed(handler, error);
    var id := Addressed(s, m);
    if x == id && Runs(table, s, m) {
      PerformedOk(handler, error);
    }
    if bound.Some? {
      if Fits(s.trans[id], m) {
        var s1 := Noted(ClearWaiting(s, id), Activated(id, m, s.trans[id]));
        NotedReplies(ClearWaiting(s, id), Activated(id, m, s.trans[id]), x);
        CallsPerformed(s1, id, handler, error);
        DispatchAccounts(s1, id, calls, x);
      }
    } else if m.command in table {
      if table[m.command].OnePhase? {
        PlainCallsTouch(s, m, handler.calls);
        PlainCallsTouch(PlainCalls(s, m, handler.calls), m, error.calls);
        PlainReplies(s, m, handler.calls, x);
        PlainReplies(PlainCalls(s, m, handler.calls), m, error.calls, x);
      } else {
        var s1 := NewTrans(s, m);
        NotedReplies(s, Started(id, m), x);
        CallsPerformed(s1, id, handler, error);
        DispatchAccounts(s1, id, calls, x);
      }
    }
  }

  lemma ExpiryAccounts(s: State, top: Timer, at: Time, error: Script, during: seq<T.Registration>, after: Time, x: int)
    requires s in Traced(0) && Accounted(s, x) && Numbered(s)
    requires top.action == Timeout(x) && x in s.trans ==> ErrorOk(error)
    ensures Accounted(Expire(s, top, at, error, during, after), x) && Numbered(Expire(s, top, at, error, during, after))
  {
    hide RepliesIn, T.Fire, T.Finish, T.AddAll, DoCalls;
    var s0 := s.(timers := T.Fire(s.timers, top, at));
    if top.action.Timeout? && top.action.transId in s.trans {
      var id := top.action.transId;
      var s1 := Noted(ClearWaiting(s0, id), TimedOut(id, top, at));
      NotedReplies(ClearWaiting(s0, id), TimedOut(id, top, at), x);
      DispatchAccounts(s1, id, error.calls, x);
      CallsReply(s1, id, error.calls, x);
      DoCallsTouches(s1, id, error.calls);
    }
  }

  lemma StepAccounts(table: map<int, Kind>, s: State, step: Step, x: int)
    requires s in Traced(0) && Accounted(s, x) && Disciplined(table, s, step, x) && Numbered(s)
    ensures Accounted(Next(table, s, step), x) && Numbered(Next(table, s, step))
  {
    match step
    case Incoming(m, handler, error) => IncomingAccounts(table, s, m, handler, error, x);
    case Expiry(top, at, error, during, after) => ExpiryAccounts(s, top, at, error, during, after, x);
    case OwnTimer(_) =>
    case DropTimer(_) =>
    case TakeIds(_) =>
  }

  lemma {:induction false} RunAccounts(table: map<int, Kind>, s: State, run: seq<Step>, x: int)
    requires s in Traced(0) && Accounted(s, x) && DisciplinedRun(table, s, run, x) && Numbered(s)
    ensures Accounted(After(table, s, run), x)
    decreases |run|
  {
    if run != [] {
      StepAccounts(table, s, run[0], x);
      StepKeeps(table, s, run[0]);
      RunAccounts(table, Next(table, s, run[0]), run[1..], x);
    }
  }

  /** Whatever else goes on, a disciplined transaction that was dispatched has sent exactly one
      reply if it is gone, and none as long as it is registered; and then it waits. */
  lemma AnsweredOnceOrWaiting(table: map<int, Kind>, now: Time, run: seq<Step>, id: int)
    requires DisciplinedRun(table, Initial(now), run, id) && id > 0
    ensures var s := After(table, Initial(now), run);
            id < s.nextTrans ==>
              (id in s.trans <==> Replies(s, id) == 0) && Replies(s, id) <= 1 && (id in s.trans ==> s.trans[id].waiting)
  {
    RunAccounts(table, Initial(now), run, id);
  }

  // ------------------------------------------------------------------- totals

  function TotalReplies(s: State, upTo: int): nat
    decreases upTo
  {
    if upTo <= 1 then 0 else TotalReplies(s, upTo - 1) + Replies(s, upTo - 1)
  }

  function StillWaiting(s: State, upTo: int): nat
    decreases upTo
  {
    if upTo <= 1 then 0 else StillWaiting(s, upTo - 1) + if upTo - 1 in s.trans then 1 else 0
  }

  lemma {:induction false} CountUp(s: State, upTo: int)
    requires 1 <= upTo <= s.nextTrans && forall id | 0 < id < upTo :: Accounted(s, id)
    ensures TotalReplies(s, upTo) + StillWaiting(s, upTo) == upTo - 1
    decreases upTo
  {
    if upTo > 1 {
      assert Accounted(s, upTo - 1);
      CountUp(s, upTo - 1);
    }
  }

  /** Dispatched requests are replies plus transactions that still wait. */
  lemma RequestsAreConserved(table: map<int, Kind>, now: Time, run: seq<Step>)
    requires forall id | id > 0 :: DisciplinedRun(table, Initial(now), run, id)
    ensures var s := After(table, Initial(now), run);
            s.nextTrans - 1 == TotalReplies(s, s.nextTrans) + StillWaiting(s, s.nextTrans)
  {
    var s := After(table, Initial(now), run);
    RunKeeps(table, Initial(now), run);
    forall id | 0 < id < s.nextTrans
      ensures Accounted(s, id)
    {
      assert DisciplinedRun(table, Initial(now), run, id);
      RunAccounts(table, Initial(now), run, id);
    }
    CountUp(s, s.nextTrans);
  }
}
