/** What the worker does with one message or one expired timer, as functions on its state. Handlers
    are scripts: the calls they make to the framework, and whether they end by throwing. */
module WorkerState {
  import opened PreciseTime
  import opened Timers
  import opened TimerRuns
  import opened Wire

  /** Where a package came from: the sender's own package id and the command. */
  datatype Trigger = Trigger(command: int, packageId: int)

  datatype Trans = Trans(id: int, phase: nat, firstConn: int, firstTrigger: Trigger,
                         waitConn: int, waitService: int, waitCmd: int, onActive: int, waiting: bool)

  /** A package in the out queue. */
  datatype Sent = Sent(conn: int, service: int, packageId: int, command: int, triggerId: int)

  /** `Send`: send_protocol; `encodes` says whether the message could be written, `bind` whether
      the transaction wants the response. `Reply`: send_back_message or send_back_error.
      `Wait`: wait_next_phase, which reads the clock at `at`. */
  datatype Call = Send(conn: int, service: int, command: int, size: int, encodes: bool, bind: bool)
                | Reply(command: int, size: int, encodes: bool)
                | Wait(conn: int, service: int, cmd: int, onActive: int, timeout: nat, at: Time)

  datatype Script = Script(calls: seq<Call>, throws: bool)

  datatype Kind = OnePhase | MultiplyPhase

  /** An incoming package. */
  datatype Message = Message(conn: int, service: int, command: int, selfId: int, triggerId: int)

  datatype Event = Started(transId: int, message: Message)
                 | Bound(packageId: int, transId: int)
                 | Activated(transId: int, message: Message, before: Trans)
                 | Replied(transId: int, packageId: int)
                 | Waited(transId: int, timer: Timer)
                 | TimedOut(transId: int, timer: Timer, at: Time)
                 | Ended(transId: int)

  /** Package ids and transaction ids count up; `binds` maps the ids of sent packages to the
      transactions that wait for the response. */
  datatype State = State(trans: map<int, Trans>, nextTrans: int, binds: map<int, int>,
                         nextPackage: int, sent: seq<Sent>, timers: Queue, log: seq<Event>)

  function Noted(s: State, e: Event): State {
    s.(log := s.log + [e])
  }

  // --------------------------------------------------------------- framework

  /** send_protocol. Too large a message is only logged; one that cannot be encoded uses up its
      package id. */
  function SendProtocol(s: State, conn: int, service: int, command: int, size: int, encodes: bool,
                        bindTrans: int, triggerId: int): State {
    if !(0 <= size <= MAX_CONTENT_LEN) then s
    else if !encodes then s.(nextPackage := s.nextPackage + 1)
    else
      var s1 := s.(nextPackage := s.nextPackage + 1,
                   sent := s.sent + [Sent(conn, service, s.nextPackage, command, triggerId)]);
      if bindTrans == 0 then s1
      else Noted(s1.(binds := s1.binds[s.nextPackage := bindTrans]), Bound(s.nextPackage, bindTrans))
  }

  function Deliverable(size: int, encodes: bool): bool {
    0 <= size <= MAX_CONTENT_LEN && encodes
  }

  function SendBack(s: State, id: int, command: int, size: int, encodes: bool): State
    requires id in s.trans
  {
    var t := s.trans[id];
    var s1 := SendProtocol(s, t.firstConn, 0, command, size, encodes, 0, t.firstTrigger.packageId);
    if Deliverable(size, encodes) then Noted(s1, Replied(id, s.nextPackage)) else s1
  }

  function WaitNextPhase(s: State, id: int, w: Call): State
    requires id in s.trans && w.Wait?
  {
    var t := s.trans[id];
    var t' := t.(waitConn := w.conn, waitService := w.service, waitCmd := w.cmd, phase := t.phase + 1,
                 onActive := w.onActive, waiting := true);
    Noted(s.(trans := s.trans[id := t'], timers := Add(s.timers, TimeoutTimer(id, w))), Waited(id, WaitTimer(s.timers, id, w)))
  }

  /** The timer that ends the wait. */
  function WaitTimer(q: Queue, id: int, w: Call): Timer
    requires w.Wait?
  {
    NewTimer(q.nextId, Time(w.timeout, 0), Timeout(id), false, Time(0, 0), w.at)
  }

  function TimeoutTimer(id: int, w: Call): Registration
    requires w.Wait?
  {
    Registration(Time(w.timeout, 0), Timeout(id), false, Time(0, 0), w.at)
  }

  function DoCall(s: State, id: int, c: Call): State
    requires id in s.trans
  {
    match c
    case Send(conn, service, command, size, encodes, bind) =>
      SendProtocol(s, conn, service, command, size, encodes, if bind then id else 0, 0)
    case Reply(command, size, encodes) => SendBack(s, id, command, size, encodes)
    case Wait(_, _, _, _, _, _) => WaitNextPhase(s, id, c)
  }

  function DoCalls(s: State, id: int, calls: seq<Call>): (r: State)
    requires id in s.trans
    ensures r.trans.Keys == s.trans.Keys
    decreases |calls|
  {
    if calls == [] then s else DoCalls(DoCall(s, id, calls[0]), id, calls[1..])
  }

  /** call_transaction: when the handler throws, the error handler is called, and what that throws
      is only logged. */
  function CallTransaction(s: State, id: int, handler: Script, error: Script): (r: State)
    requires id in s.trans
    ensures r.trans.Keys == s.trans.Keys
  {
    var s1 := DoCalls(s, id, handler.calls);
    if handler.throws then DoCalls(s1, id, error.calls) else s1
  }

  function ClearWaiting(s: State, id: int): State
    requires id in s.trans
  {
    s.(trans := s.trans[id := s.trans[id].(waiting := false)])
  }

  function EndUnlessWaiting(s: State, id: int): State
    requires id in s.trans
  {
    if s.trans[id].waiting then s else Noted(s.(trans := s.trans - {id}), Ended(id))
  }

  // ---------------------------------------------------------------- messages

  /** find_bound_transaction. */
  function BoundTrans(s: State, triggerId: int): Option<int> {
    if triggerId != 0 && triggerId in s.binds && s.binds[triggerId] in s.trans then Some(s.binds[triggerId]) else None
  }

  /** Only the end that was asked may answer, and only with the command that was asked for. */
  predicate Fits(t: Trans, m: Message) {
    && (if t.waitConn != 0 then m.conn == t.waitConn else m.service == t.waitService)
    && m.command == t.waitCmd
  }

  function NewTrans(s: State, m: Message): State {
    var t := Trans(s.nextTrans, 0, m.conn, Trigger(m.command, m.selfId), 0, 0, 0, 0, false);
    Noted(s.(trans := s.trans[s.nextTrans := t], nextTrans := s.nextTrans + 1), Started(s.nextTrans, m))
  }

  /** The calls of a handler that runs outside any transaction. */
  function PlainCalls(s: State, m: Message, calls: seq<Call>): State
    decreases |calls|
  {
    if calls == [] then s
    else
      var s1 := match calls[0]
                case Send(conn, service, command, size, encodes, _) =>
                  SendProtocol(s, conn, service, command, size, encodes, 0, 0)
                case Reply(command, size, encodes) =>
                  SendProtocol(s, m.conn, 0, command, size, encodes, 0, m.selfId)
                case Wait(_, _, _, _, _, _) => s;
      PlainCalls(s1, m, calls[1..])
  }

  function Begin(table: map<int, Kind>, s: State, m: Message, handler: Script, error: Script): State {
    if m.command !in table then s
    else if table[m.command].OnePhase? then
      var s1 := PlainCalls(s, m, handler.calls);
      if handler.throws then PlainCalls(s1, m, error.calls) else s1
    else
      var id := s.nextTrans;
      EndUnlessWaiting(CallTransaction(NewTrans(s, m), id, handler, error), id)
  }

  function Activate(s: State, id: int, m: Message, handler: Script, error: Script): State
    requires id in s.trans
  {
    var s1 := Noted(ClearWaiting(s, id), Activated(id, m, s.trans[id]));
    EndUnlessWaiting(CallTransaction(s1, id, handler, error), id)
  }

  /** trigger_transaction. A response whose transaction is gone is treated as a new request. */
  function Receive(table: map<int, Kind>, s: State, m: Message, handler: Script, error: Script): State {
    var bound := BoundTrans(s, m.triggerId);
    if bound.None? then Begin(table, s, m, handler, error)
    else
      var s1 := if Fits(s.trans[bound.value], m) then Activate(s, bound.value, m, handler, error) else s;
      s1.(binds := s1.binds - {m.triggerId})
  }

  // ------------------------------------------------------------------ timers

  /** The action of a wait_next_phase timer that is processed at `at`. It ends the transaction's wait,
      whichever phase it was set in. When the error handler throws, the rest of the action
      is skipped. */
  function TimeoutAction(s: State, id: int, timer: Timer, at: Time, error: Script): State {
    if id !in s.trans then s
    else
      var s1 := DoCalls(Noted(ClearWaiting(s, id), TimedOut(id, timer, at)), id, error.calls);
      if error.throws then s1 else EndUnlessWaiting(s1, id)
  }

  function RunAction(s: State, top: Timer, at: Time, error: Script, during: seq<Registration>): State {
    match top.action
    case Timeout(id) => TimeoutAction(s, id, top, at, error)
    case Application(_) => s.(timers := AddAll(s.timers, during))
  }

  function Expire(s: State, top: Timer, at: Time, error: Script, during: seq<Registration>, after: Time): State {
    var s1 := RunAction(s.(timers := Fire(s.timers, top, at)), top, at, error, during);
    s1.(timers := Finish(s1.timers, top, after))
  }

  // -------------------------------------------------------------------- runs

  /** `Incoming`: a message from a connection; which scripts apply depends on the branch taken.
      `Expiry`: a due timer is processed. `Application`: the application registers or removes
      timers of its own. `TakeIds`: package ids are used elsewhere. */
  datatype Step = Incoming(m: Message, handler: Script, error: Script)
                | Expiry(top: Timer, at: Time, error: Script, during: seq<Registration>, after: Time)
                | OwnTimer(r: Registration)
                | DropTimer(id: int)
                | TakeIds(count: nat)

  /** Clock readings of a script's waits, from the state of the timer queue in which it starts. */
  predicate ScriptTimes(q: Queue, id: int, calls: seq<Call>)
    decreases |calls|
  {
    calls == []
    || (calls[0].Wait? && Proper(q, TimeoutTimer(id, calls[0])) && ScriptTimes(Add(q, TimeoutTimer(id, calls[0])), id, calls[1..]))
    || (!calls[0].Wait? && ScriptTimes(q, id, calls[1..]))
  }

  /** Everything call_transaction has done in the end. */
  function Performed(handler: Script, error: Script): seq<Call> {
    handler.calls + if handler.throws then error.calls else []
  }

  /** The transaction a message is for, or the one it starts. */
  function Addressed(s: State, m: Message): int {
    var bound := BoundTrans(s, m.triggerId);
    if bound.Some? then bound.value else s.nextTrans
  }

  /** Clock readings while the due timer `top` is processed. */
  predicate ExpiryTimes(s: State, top: Timer, at: Time, error: Script, during: seq<Registration>, after: Time) {
    && Reading(s.timers.now, at) && !Less(at, top.expiry)
    && (top.action.Timeout? ==> ScriptTimes(Fire(s.timers, top, at), top.action.transId, error.calls))
    && (top.action.Application? ==> AllProper(Fire(s.timers, top, at), during) && (forall r | r in during :: r.action.Application?))
    && Reading(RunAction(s.(timers := Fire(s.timers, top, at)), top, at, error, during).timers.now, after)
  }

  /** The clock does not go back, delays are not negative, and nobody but wait_next_phase handles
      its timers. */
  ghost predicate Enabled(s: State, step: Step) {
    match step
    case Incoming(m, handler, error) => ScriptTimes(s.timers, Addressed(s, m), Performed(handler, error))
    case Expiry(top, at, error, during, after) =>
      First(s.timers.timers, top) && ExpiryTimes(s, top, at, error, during, after)
    case OwnTimer(r) => Proper(s.timers, r) && r.action.Application?
    case DropTimer(id) => forall t | t in s.timers.timers && t.id == id :: t.action.Application?
    case TakeIds(_) => true
  }

  function Next(table: map<int, Kind>, s: State, step: Step): State {
    match step
    case Incoming(m, handler, error) => Receive(table, s, m, handler, error)
    case Expiry(top, at, error, during, after) => Expire(s, top, at, error, during, after)
    case OwnTimer(r) => s.(timers := Add(s.timers, r))
    case DropTimer(id) => s.(timers := s.timers.(timers := Without(s.timers.timers, id)))
    case TakeIds(count) => s.(nextPackage := s.nextPackage + count)
  }

  function Initial(now: Time): State {
    State(map[], 1, map[], 1, [], Empty(now), [])
  }

  ghost predicate Legal(table: map<int, Kind>, s: State, run: seq<Step>)
    decreases |run|
  {
    run == [] || (Enabled(s, run[0]) && Legal(table, Next(table, s, run[0]), run[1..]))
  }

  function After(table: map<int, Kind>, s: State, run: seq<Step>): State
    decreases |run|
  {
    if run == [] then s else After(table, Next(table, s, run[0]), run[1..])
  }

  // ---------------------------------------------------------- what calls change

  lemma {:induction false} DoCallsConcat(s: State, id: int, a: seq<Call>, b: seq<Call>)
    requires id in s.trans
    ensures DoCalls(s, id, a + b) == DoCalls(DoCalls(s, id, a), id, b)
    decreases |a|
  {
    if a == [] {
      assert a + b == b;
    } else {
      assert (a + b)[1..] == a[1..] + b;
      DoCallsConcat(DoCall(s, id, a[0]), id, a[1..], b);
    }
  }

  lemma CallsPerformed(s: State, id: int, handler: Script, error: Script)
    requires id in s.trans
    ensures CallTransaction(s, id, handler, error) == DoCalls(s, id, Performed(handler, error))
  {
    if handler.throws {
      DoCallsConcat(s, id, handler.calls, error.calls);
    } else {
      assert handler.calls + [] == handler.calls;
    }
  }

  predicate Waits(calls: seq<Call>) {
    exists i | 0 <= i < |calls| :: calls[i].Wait?
  }

  /** A one-shot timer will end the wait of this transaction. */
  ghost predicate Watched(s: State, id: int) {
    exists t :: t in s.timers.timers && t.action == Timeout(id) && !t.frequent
  }

  /** The calls of a handler touch only its own transaction, and only a wait makes it wait. */
  lemma {:induction false} DoCallsTouches(s: State, id: int, calls: seq<Call>)
    requires id in s.trans
    ensures var r := DoCalls(s, id, calls);
            && r.trans == s.trans[id := r.trans[id]] && r.nextTrans == s.nextTrans
            && s.timers.timers <= r.timers.timers && r.timers.fired == s.timers.fired
            && r.trans[id].waiting == (s.trans[id].waiting || Waits(calls))
            && r.trans[id].phase >= s.trans[id].phase + if Waits(calls) then 1 else 0
    ensures Waits(calls) ==> Watched(DoCalls(s, id, calls), id)
    decreases |calls|
  {
    if calls == [] {
      assert s.trans == s.trans[id := s.trans[id]];
    } else {
      var s1 := DoCall(s, id, calls[0]);
      assert Waits(calls) <==> calls[0].Wait? || Waits(calls[1..]) by {
        assert forall i | 1 <= i < |calls| :: calls[i] == calls[1..][i - 1];
      }
      DoCallsTouches(s1, id, calls[1..]);
      if calls[0].Wait? {
        var r, w := TimeoutTimer(id, calls[0]), calls[0];
        var t := NewTimer(s.timers.nextId, r.interval, r.action, r.frequent, r.delay, r.at);
        assert t in s1.timers.timers;
        assert t in DoCalls(s, id, calls).timers.timers;
      }
    }
  }
}
