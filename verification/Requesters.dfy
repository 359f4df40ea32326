/** Where replies go. Over every run each reply is one entry of the out queue, addressed to the
    connection and the package id of the message that started its transaction. */
module Requesters {
  import opened PreciseTime
  import opened Timers
  import T = TimerRuns
  import opened Wire
  import opened WorkerState
  import opened WorkerRuns
  import opened Conservation

  /** The transaction was started by `m`, whose sender it still knows. */
  predicate Knows(s: State, id: int, m: Message)
    requires id in s.trans
  {
    Started(id, m) in s.log && s.trans[id].firstConn == m.conn && s.trans[id].firstTrigger == Trigger(m.command, m.selfId)
  }

  /** The entry answers `m`. */
  predicate ReplyTo(e: Sent, m: Message) {
    e.conn == m.conn && e.service == 0 && e.triggerId == m.selfId
  }

  ghost predicate ReplyOk(sent: seq<Sent>, log: seq<Event>, id: int, p: int) {
    exists m, k :: Started(id, m) in log && 0 <= k < |sent| && sent[k].packageId == p && ReplyTo(sent[k], m)
  }

  predicate Ascending(sent: seq<Sent>) {
    forall i, j | 0 <= i < j < |sent| :: sent[i].packageId < sent[j].packageId
  }

  predicate RepliedOnce(log: seq<Event>) {
    forall i, j | 0 <= i < j < |log| && log[i].Replied? && log[j].Replied? :: log[i].packageId != log[j].packageId
  }

  predicate StartedOnce(s: State) {
    && (forall i | 0 <= i < |s.log| && s.log[i].Started? :: s.log[i].transId < s.nextTrans)
    && (forall i, j | 0 <= i < j < |s.log| && s.log[i].Started? && s.log[j].Started? :: s.log[i].transId != s.log[j].transId)
  }

  ghost function Right(): iset<State> {
    iset s: State |
      && Numbered(s) && Ascending(s.sent) && RepliedOnce(s.log) && StartedOnce(s)
      && (forall id | id in s.trans :: exists m :: Knows(s, id, m))
      && (forall i | 0 <= i < |s.log| && s.log[i].Replied? :: ReplyOk(s.sent, s.log, s.log[i].transId, s.log[i].packageId))
  }

  // ----------------------------------------------------------- changes keep it

  lemma ReplyCarries(sent: seq<Sent>, log: seq<Event>, sent': seq<Sent>, log': seq<Event>, id: int, p: int)
    requires ReplyOk(sent, log, id, p) && sent <= sent' && log <= log'
    ensures ReplyOk(sent', log', id, p)
  {
    var m, k :| Started(id, m) in log && 0 <= k < |sent| && sent[k].packageId == p && ReplyTo(sent[k], m);
    assert sent'[k] == sent[k];
    assert Started(id, m) in log';
  }

  /** Any change that starts and answers nothing, and keeps to the senders known. */
  lemma OtherChange(s: State, s': State)
    requires s in Right() && s.log <= s'.log && s.sent <= s'.sent && s.nextTrans <= s'.nextTrans && Numbered(s') && Ascending(s'.sent)
    requires forall i | |s.log| <= i < |s'.log| :: !s'.log[i].Replied? && !s'.log[i].Started?
    requires forall id | id in s'.trans :: id in s.trans && s'.trans[id].firstConn == s.trans[id].firstConn
                                           && s'.trans[id].firstTrigger == s.trans[id].firstTrigger
    ensures s' in Right()
  {
    forall id | id in s'.trans
      ensures exists m :: Knows(s', id, m)
    {
      var m :| Knows(s, id, m);
      assert Started(id, m) in s'.log;
      assert Knows(s', id, m);
    }
    forall i | 0 <= i < |s'.log| && s'.log[i].Replied?
      ensures ReplyOk(s'.sent, s'.log, s'.log[i].transId, s'.log[i].packageId)
    {
      assert s'.log[i] == s.log[i];
      ReplyCarries(s.sent, s.log, s'.sent, s'.log, s.log[i].transId, s.log[i].packageId);
    }
  }

  lemma SendRight(s: State, conn: int, service: int, command: int, size: int, encodes: bool, bindTrans: int, triggerId: int)
    requires s in Right()
    ensures SendProtocol(s, conn, service, command, size, encodes, bindTrans, triggerId) in Right()
  {
    OtherChange(s, SendProtocol(s, conn, service, command, size, encodes, bindTrans, triggerId));
  }

  /** The reply of a transaction that knows its requester. */
  lemma BackRight(s: State, id: int, command: int, size: int, encodes: bool)
    requires s in Right() && id in s.trans
    ensures SendBack(s, id, command, size, encodes) in Right()
  {
    var t, p := s.trans[id], s.nextPackage;
    var s1 := SendProtocol(s, t.firstConn, 0, command, size, encodes, 0, t.firstTrigger.packageId);
    SendRight(s, t.firstConn, 0, command, size, encodes, 0, t.firstTrigger.packageId);
    if Deliverable(size, encodes) {
      var m :| Knows(s, id, m);
      ReplyNoted(s, s1, id, m);
    }
  }

  lemma ReplyNoted(s: State, s1: State, id: int, m: Message)
    requires s in Right() && s1 in Right() && s1.log == s.log && id in s.trans && s1.trans == s.trans && Knows(s, id, m)
    requires |s1.sent| == |s.sent| + 1 && s1.sent[|s.sent|].packageId == s.nextPackage < s1.nextPackage
    requires ReplyTo(s1.sent[|s.sent|], m)
    ensures Noted(s1, Replied(id, s.nextPackage)) in Right()
  {
    var s', p := Noted(s1, Replied(id, s.nextPackage)), s.nextPackage;
    assert Started(id, m) in s'.log && s'.sent[|s.sent|].packageId == p;
    assert ReplyOk(s'.sent, s'.log, id, p);
    OnceMore(s, id);
    SendersKnown(s1, s');
    RepliesCarry(s1, s');
    NumbersStay(s1, Replied(id, p));
    assert Ascending(s'.sent);
    hide ReplyOk, Knows, RepliedOnce, ReplyTo, Numbered, StartedOnce, Ascending;
  }

  lemma NumbersStay(s: State, e: Event)
    requires Numbered(s) && StartedOnce(s) && !e.Started? && (e.Replied? ==> e.packageId < s.nextPackage)
    ensures Numbered(Noted(s, e)) && StartedOnce(Noted(s, e))
  {
  }

  lemma OnceMore(s: State, id: int)
    requires Numbered(s) && RepliedOnce(s.log)
    ensures RepliedOnce(s.log + [Replied(id, s.nextPackage)])
  {
  }

  lemma SendersKnown(s: State, s': State)
    requires s in Right() && s.log <= s'.log && s'.trans == s.trans
    ensures forall x | x in s'.trans :: exists m :: Knows(s', x, m)
  {
    forall x | x in s'.trans
      ensures exists m :: Knows(s', x, m)
    {
      var m :| Knows(s, x, m);
      assert Started(x, m) in s'.log;
      assert Knows(s', x, m);
    }
  }

  lemma RepliesCarry(s: State, s': State)
    requires s in Right() && s.log <= s'.log && s.sent <= s'.sent
    ensures forall i | 0 <= i < |s.log| && s'.log[i].Replied? :: ReplyOk(s'.sent, s'.log, s'.log[i].transId, s'.log[i].packageId)
  {
    forall i | 0 <= i < |s.log| && s'.log[i].Replied?
      ensures ReplyOk(s'.sent, s'.log, s'.log[i].transId, s'.log[i].packageId)
    {
      assert s'.log[i] == s.log[i];
      ReplyCarries(s.sent, s.log, s'.sent, s'.log, s.log[i].transId, s.log[i].packageId);
    }
  }

  lemma {:induction false} CallsRight(s: State, id: int, calls: seq<Call>)
    requires s in Right() && id in s.trans
    ensures DoCalls(s, id, calls) in Right()
    decreases |calls|
  {
    hide Right;
    if calls != [] {
      match calls[0] {
        case Send(conn, service, command, size, encodes, bind) =>
          SendRight(s, conn, service, command, size, encodes, if bind then id else 0, 0);
        case Reply(command, size, encodes) => BackRight(s, id, command, size, encodes);
        case Wait(_, _, _, _, _, _) => OtherChangeOfWait(s, id, calls[0]);
      }
      CallsRight(DoCall(s, id, calls[0]), id, calls[1..]);
    }
  }

  lemma OtherChangeOfWait(s: State, id: int, w: Call)
    requires s in Right() && id in s.trans && w.Wait?
    ensures WaitNextPhase(s, id, w) in Right()
  {
    OtherChange(s, WaitNextPhase(s, id, w));
  }

  lemma {:induction false} PlainRight(s: State, m: Message, calls: seq<Call>)
    requires s in Right()
    ensures PlainCalls(s, m, calls) in Right()
    decreases |calls|
  {
    hide Right;
    if calls != [] {
      match calls[0] {
        case Send(conn, service, command, size, encodes, _) =>
          SendRight(s, conn, service, command, size, encodes, 0, 0);
          PlainRight(SendProtocol(s, conn, service, command, size, encodes, 0, 0), m, calls[1..]);
        case Reply(command, size, encodes) =>
          SendRight(s, m.conn, 0, command, size, encodes, 0, m.selfId);
          PlainRight(SendProtocol(s, m.conn, 0, command, size, encodes, 0, m.selfId), m, calls[1..]);
        case Wait(_, _, _, _, _, _) => PlainRight(s, m, calls[1..]);
      }
    }
  }

  lemma NewRight(s: State, m: Message)
    requires s in Right() && s in Traced(0)
    ensures NewTrans(s, m) in Right()
  {
    var s', id := NewTrans(s, m), s.nextTrans;
    var s1 := s'.(trans := s.trans);
    assert Knows(s', id, m);
    SendersKnown(s, s1);
    forall x | x in s'.trans
      ensures exists m' :: Knows(s', x, m')
    {
      if x != id {
        var m' :| Knows(s1, x, m');
        assert Knows(s', x, m');
      }
    }
    RepliesCarry(s, s');
    OneMoreStarted(s, m);
    hide ReplyOk, Knows, StartedOnce, Numbered;
  }

  lemma OneMoreStarted(s: State, m: Message)
    requires StartedOnce(s) && Numbered(s) && RepliedOnce(s.log)
    ensures StartedOnce(NewTrans(s, m)) && Numbered(NewTrans(s, m)) && RepliedOnce(NewTrans(s, m).log)
  {
  }

  /** The common end of every dispatch. */
  lemma DispatchRight(s: State, s1: State, id: int, calls: seq<Call>)
    requires s in Right() && id in s.trans && s1 == s.(trans := s.trans[id := s.trans[id].(waiting := false)], log := s1.log)
    requires |s1.log| == |s.log| + 1 && s.log <= s1.log && !s1.log[|s.log|].Replied? && !s1.log[|s.log|].Started?
    ensures DoCalls(s1, id, calls) in Right() && EndUnlessWaiting(DoCalls(s1, id, calls), id) in Right()
  {
    OtherChange(s, s1);
    hide Right, DoCalls;
    CallsRight(s1, id, calls);
    EndRight(DoCalls(s1, id, calls), id);
  }

  lemma EndRight(s: State, id: int)
    requires s in Right() && id in s.trans
    ensures EndUnlessWaiting(s, id) in Right()
  {
    OtherChange(s, EndUnlessWaiting(s, id));
  }

  lemma ReceiveRight(table: map<int, Kind>, s: State, m: Message, handler: Script, error: Script)
    requires s in Right() && s in Traced(0)
    ensures Receive(table, s, m, handler, error) in Right()
  {
    hide Right, Traced, DoCalls, PlainCalls;
    var bound, calls := BoundTrans(s, m.triggerId), Performed(handler, error);
    if bound.Some? {
      var id := bound.value;
      if Fits(s.trans[id], m) {
        var s1 := Noted(ClearWaiting(s, id), Activated(id, m, s.trans[id]));
        CallsPerformed(s1, id, handler, error);
        DispatchRight(s, s1, id, calls);
        Unbound(Activate(s, id, m, handler, error), m.triggerId);
      } else {
        Unbound(s, m.triggerId);
      }
    } else if m.command in table {
      if table[m.command].OnePhase? {
        PlainRight(s, m, handler.calls);
        PlainRight(PlainCalls(s, m, handler.calls), m, error.calls);
      } else {
        var id, s1 := s.nextTrans, NewTrans(s, m);
        NewRight(s, m);
        CallsPerformed(s1, id, handler, error);
        CallsRight(s1, id, calls);
        EndRight(DoCalls(s1, id, calls), id);
      }
    }
  }

  lemma Unbound(s: State, p: int)
    requires s in Right()
    ensures s.(binds := s.binds - {p}) in Right()
  {
    OtherChange(s, s.(binds := s.binds - {p}));
  }

  lemma TimersChange(s: State, q: T.Queue)
    requires s in Right()
    ensures s.(timers := q) in Right()
  {
    OtherChange(s, s.(timers := q));
  }

  lemma ExpireRight(s: State, top: Timer, at: Time, error: Script, during: seq<T.Registration>, after: Time)
    requires s in Right()
    ensures Expire(s, top, at, error, during, after) in Right()
  {
    hide Right, DoCalls, T.Fire, T.Finish, T.AddAll;
    var s0 := s.(timers := T.Fire(s.timers, top, at));
    TimersChange(s, s0.timers);
    var s1 := RunAction(s0, top, at, error, during);
    match top.action {
      case Application(_) => TimersChange(s0, s1.timers);
      case Timeout(id) =>
        if id in s.trans {
          DispatchRight(s0, Noted(ClearWaiting(s0, id), TimedOut(id, top, at)), id, error.calls);
        }
    }
    TimersChange(s1, T.Finish(s1.timers, top, after));
  }

  lemma StepRight(table: map<int, Kind>, s: State, step: Step)
    requires s in Right() && s in Traced(0)
    ensures Next(table, s, step) in Right()
  {
    match step
    case Incoming(m, handler, error) => ReceiveRight(table, s, m, handler, error);
    case Expiry(top, at, error, during, after) => ExpireRight(s, top, at, error, during, after);
    case OwnTimer(r) => TimersChange(s, T.Add(s.timers, r));
    case DropTimer(id) => TimersChange(s, s.timers.(timers := T.Without(s.timers.timers, id)));
    case TakeIds(count) => OtherChange(s, s.(nextPackage := s.nextPackage + count));
  }

  lemma {:induction false} RunRight(table: map<int, Kind>, s: State, run: seq<Step>)
    requires s in Right() && s in Traced(0)
    ensures After(table, s, run) in Right() && After(table, s, run) in Traced(0)
    decreases |run|
  {
    hide Right, Traced, Next;
    if run != [] {
      StepRight(table, s, run[0]);
      StepKeeps(table, s, run[0]);
      RunRight(table, Next(table, s, run[0]), run[1..]);
    }
  }

  lemma InitialRight(now: Time)
    ensures Initial(now) in Right() && Initial(now) in Traced(0)
  {
  }

  // -------------------------------------------------------------------- replies

  predicate IsReply(s: State, k: nat, id: int)
    requires k < |s.sent|
  {
    Replied(id, s.sent[k].packageId) in s.log
  }

  lemma ReplyEntry(s: State, k: nat, x: int) returns (m: Message)
    requires s in Right() && k < |s.sent| && IsReply(s, k, x)
    ensures Started(x, m) in s.log && ReplyTo(s.sent[k], m)
  {
    assert ReplyOk(s.sent, s.log, x, s.sent[k].packageId);
    var j;
    m, j :| Started(x, m) in s.log && 0 <= j < |s.sent| && s.sent[j].packageId == s.sent[k].packageId && ReplyTo(s.sent[j], m);
  }

  lemma OneStarter(s: State, id: int, m: Message, m': Message)
    requires s in Right() && Started(id, m) in s.log && Started(id, m') in s.log
    ensures m' == m
  {
  }

  /** Over every run: each reply is on record with one entry of the out queue, and the entries of one
      transaction go to the connection of the message that started it, and name that message. */
  lemma RepliesGoBack(table: map<int, Kind>, now: Time, run: seq<Step>, id: int)
    ensures var s := After(table, Initial(now), run);
            && (forall p | Replied(id, p) in s.log :: exists k :: 0 <= k < |s.sent| && s.sent[k].packageId == p && IsReply(s, k, id))
            && (forall i, k | 0 <= i < k < |s.sent| :: s.sent[i].packageId != s.sent[k].packageId)
            && (forall k, m | 0 <= k < |s.sent| && IsReply(s, k, id) && Started(id, m) in s.log ::
                  s.sent[k].conn == m.conn && s.sent[k].service == 0 && s.sent[k].triggerId == m.selfId)
            && (forall k, other | 0 <= k < |s.sent| && IsReply(s, k, id) && IsReply(s, k, other) :: other == id)
  {
    var s := After(table, Initial(now), run);
    InitialRight(now);
    RunRight(table, Initial(now), run);
    EachHasItsEntry(s, id);
    forall k | 0 <= k < |s.sent| && IsReply(s, k, id)
      ensures forall m | Started(id, m) in s.log :: ReplyTo(s.sent[k], m)
      ensures forall other | IsReply(s, k, other) :: other == id
    {
      var m' := ReplyEntry(s, k, id);
      forall m | Started(id, m) in s.log
        ensures ReplyTo(s.sent[k], m)
      {
        OneStarter(s, id, m, m');
      }
      OfOneOnly(s, k, id);
    }
    hide Right, IsReply;
  }

  lemma EachHasItsEntry(s: State, id: int)
    requires s in Right()
    ensures forall p | Replied(id, p) in s.log :: exists k :: 0 <= k < |s.sent| && s.sent[k].packageId == p && IsReply(s, k, id)
    ensures Ascending(s.sent)
  {
    forall p | Replied(id, p) in s.log
      ensures exists k :: 0 <= k < |s.sent| && s.sent[k].packageId == p && IsReply(s, k, id)
    {
      assert ReplyOk(s.sent, s.log, id, p);
    }
  }

  lemma OfOneOnly(s: State, k: nat, id: int)
    requires s in Right() && k < |s.sent| && IsReply(s, k, id)
    ensures forall other | IsReply(s, k, other) :: other == id
  {
  }

  /** A disciplined transaction has put exactly one reply in the out queue if it is gone, and none
      while it waits; and that goes to the connection of its request and names it. */
  lemma RequestIsAnsweredOnce(table: map<int, Kind>, now: Time, run: seq<Step>, id: int)
    requires DisciplinedRun(table, Initial(now), run, id) && 0 < id < After(table, Initial(now), run).nextTrans
    ensures var s := After(table, Initial(now), run);
            && Replies(s, id) == (if id in s.trans then 0 else 1) && (id in s.trans ==> s.trans[id].waiting)
            && (forall k, m | 0 <= k < |s.sent| && IsReply(s, k, id) && Started(id, m) in s.log ::
                  s.sent[k].conn == m.conn && s.sent[k].service == 0 && s.sent[k].triggerId == m.selfId)
  {
    AnsweredOnceOrWaiting(table, now, run, id);
    RepliesGoBack(table, now, run, id);
  }
}
