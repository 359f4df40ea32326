/** The four put and get file transactions of the resource server: the worker runs the handlers of
    FileSessions, and every request is answered exactly once or still waiting. */
module FileTransactions {
  import opened PreciseTime
  import opened Timers
  import T = TimerRuns
  import opened Wire
  import opened WorkerState
  import opened WorkerRuns
  import opened Conservation
  import opened Requesters
  import opened FileSessions

  /** How these handlers end: on_init throws before it has done anything with the framework, or asks
      the node; on_active throws likewise, or answers; on_error answers. */
  ghost predicate InitShape(s: Script) {
    s == Throw() || (exists c: NodeCall :: s == AskNode(c))
  }

  predicate ActiveShape(s: Script) {
    s == Throw() || ErrorShape(s)
  }

  predicate ErrorShape(s: Script) {
    !s.throws && |s.calls| == 1 && s.calls[0].Reply? && s.calls[0].encodes
  }

  predicate ReplyFits(s: Script) {
    ErrorShape(s) ==> 0 <= s.calls[0].size <= MAX_CONTENT_LEN
  }

  lemma AskWaits(c: NodeCall)
    ensures Waits(AskNode(c).calls) && Answers(AskNode(c).calls) == 0
  {
    var calls := AskNode(c).calls;
    assert calls[1].Wait?;
    assert calls[1..] == [calls[1]] && [calls[1]][1..] == [];
    assert Answers([calls[1]]) == 0;
  }

  /** After asking, the question is in the out queue, the transaction waits for it, and of all messages that
      name the question just those of the node's service with the command of its response go on with it. */
  lemma NodeIsAwaited(s: State, id: int, c: NodeCall, m: Message)
    requires id in s.trans && s.nextPackage != 0 && id != 0 && c.encodes && 0 <= c.size <= MAX_CONTENT_LEN
    ensures var s' := DoCalls(s, id, AskNode(c).calls);
            && s'.sent == s.sent + [Sent(0, c.service, s.nextPackage, c.command, 0)]
            && BoundTrans(s', s.nextPackage) == Some(id) && s'.trans[id].waiting && s'.trans[id].onActive == c.onActive
            && (Fits(s'.trans[id], m) <==> m.service == c.service && m.command == c.response)
  {
    hide WaitTimer, T.Add;
    var calls := AskNode(c).calls;
    var s1 := DoCall(s, id, calls[0]);
    var s2 := DoCall(s1, id, calls[1]);
    assert calls[1..] == [calls[1]] && [calls[1]][1..] == [];
    assert DoCalls(s2, id, []) == s2;
    assert DoCalls(s1, id, [calls[1]]) == s2;
  }

  lemma AnswerAnswers(s: Script)
    requires ErrorShape(s) && ReplyFits(s)
    ensures Answers(s.calls) == 1 && !Waits(s.calls)
  {
    assert s.calls[1..] == [];
  }

  /** Handlers of these shapes keep the discipline under which requests and replies balance, as long
      as replies are within the size limit. */
  lemma ShapesAreDisciplined(handler: Script, error: Script)
    requires InitShape(handler) || ActiveShape(handler)
    requires ErrorShape(error) && ReplyFits(error) && ReplyFits(handler)
    ensures HandlerOk(handler, error) && ErrorOk(error)
  {
    AnswerAnswers(error);
    if handler == Throw() {
      assert !Waits([]);
    } else if c: NodeCall :| handler == AskNode(c) {
      AskWaits(c);
    } else {
      AnswerAnswers(handler);
    }
  }

  /** The steps that run handlers of transaction `id` run handlers of these shapes. */
  ghost predicate Shaped(table: map<int, Kind>, s: State, step: Step, id: int) {
    match step
    case Incoming(m, handler, error) =>
      Addressed(s, m) == id && Runs(table, s, m) ==>
        (InitShape(handler) || ActiveShape(handler)) && ErrorShape(error) && ReplyFits(error) && ReplyFits(handler)
    case Expiry(top, _, error, _, _) => top.action == Timeout(id) && id in s.trans ==> ErrorShape(error) && ReplyFits(error)
    case OwnTimer(_) => true
    case DropTimer(_) => true
    case TakeIds(_) => true
  }

  ghost predicate ShapedRun(table: map<int, Kind>, s: State, run: seq<Step>, id: int)
    decreases |run|
  {
    run == [] || (Shaped(table, s, run[0], id) && ShapedRun(table, Next(table, s, run[0]), run[1..], id))
  }

  lemma {:induction false} ShapedRunsAreDisciplined(table: map<int, Kind>, s: State, run: seq<Step>, id: int)
    requires ShapedRun(table, s, run, id)
    ensures DisciplinedRun(table, s, run, id)
    decreases |run|
  {
    if run != [] {
      match run[0] {
        case Incoming(m, handler, error) =>
          if Addressed(s, m) == id && Runs(table, s, m) {
            ShapesAreDisciplined(handler, error);
          }
        case Expiry(top, _, error, _, _) =>
          if top.action == Timeout(id) && id in s.trans {
            AnswerAnswers(error);
          }
        case OwnTimer(_) =>
        case DropTimer(_) =>
        case TakeIds(_) =>
      }
      ShapedRunsAreDisciplined(table, Next(table, s, run[0]), run[1..], id);
    }
  }

  // ------------------------------------------------------------------- server

  datatype FileKind = PutSessionTrans | PutTrans | GetSessionTrans | GetTrans

  /** A file transaction, with the session it has noted for itself. */
  datatype Owner = Owner(kind: FileKind, sessionId: int)

  /** The worker, the session table, and the file transactions. */
  datatype Server = Server(worker: State, files: Sessions, owners: map<int, Owner>)

  /** What handlers find in messages and tables: `request` for a file transaction that starts,
      `answer` and `login` for one that goes on, the reply of its on_error; for any other transaction
      what its handlers do. */
  datatype Found = Found(request: Request, answer: NodeAnswer, login: Option<int>, errorCommand: int, errorSize: int,
                         handler: Script, error: Script)

  datatype ServerStep = Message(message: Message, found: Found)
                      | Timer(top: Timer, at: Time, found: Found, during: seq<T.Registration>, after: Time)
                      | Own(step: Step)

  /** What the worker runs, and the session handlers among it. */
  datatype Dispatch = Dispatch(handler: Script, error: Script, ops: seq<Operation>, owner: Option<Owner>)

  function KindOf(r: Request): FileKind {
    match r
    case PutSessionRequest(_, _, _, _, _, _, _) => PutSessionTrans
    case PutRequest(_, _, _, _) => PutTrans
    case GetSessionRequest(_, _, _, _, _, _) => GetSessionTrans
    case GetRequest(_, _, _, _) => GetTrans
  }

  predicate HasSession(k: FileKind) {
    k.PutSessionTrans? || k.GetSessionTrans?
  }

  /** The session transactions give their session up in on_error; the others only answer. */
  function OnError(own: Owner): seq<Operation> {
    if HasSession(own.kind) then [GiveUp(own.sessionId)] else []
  }

  /** on_active of put file and get file. */
  function PassOn(login: Option<int>, a: NodeAnswer): Script {
    if login.None? || !a.parses then Throw() else Answer(a.command, a.size)
  }

  function StartFile(files: Sessions, f: Found): Dispatch {
    var b := OnInit(files, f.request);
    var own := Owner(KindOf(f.request), b.sessionId);
    Dispatch(b.script, Answer(f.errorCommand, f.errorSize), [Start(f.request)] + if b.script.throws then OnError(own) else [], Some(own))
  }

  function GoOn(files: Sessions, own: Owner, f: Found): Dispatch {
    var op := Answered(own.kind.PutSessionTrans?, own.sessionId, f.answer);
    var turn := SessionAnswered(files, own.kind.PutSessionTrans?, own.sessionId, f.answer);
    var script := if !HasSession(own.kind) then PassOn(f.login, f.answer) else if turn.Some? then turn.value.script else Throw();
    Dispatch(script, Answer(f.errorCommand, f.errorSize),
             (if HasSession(own.kind) then [op] else []) + if script.throws then OnError(own) else [], None)
  }

  /** Which handlers a message runs. `kinds` are the commands that start file transactions. */
  function Dispatched(kinds: map<int, FileKind>, v: Server, m: Message, f: Found): Dispatch {
    var bound := BoundTrans(v.worker, m.triggerId);
    if bound.Some? then
      if bound.value !in v.owners then Dispatch(f.handler, f.error, [], None)
      else if !Fits(v.worker.trans[bound.value], m) then Dispatch(Throw(), Throw(), [], None)
      else GoOn(v.files, v.owners[bound.value], f)
    else if m.command in kinds then StartFile(v.files, f)
    else Dispatch(f.handler, f.error, [], None)
  }

  function TimedOutOwner(v: Server, top: Timer): Option<Owner> {
    if top.action.Timeout? && top.action.transId in v.worker.trans && top.action.transId in v.owners
    then Some(v.owners[top.action.transId]) else None
  }

  function WorkerStep(kinds: map<int, FileKind>, v: Server, step: ServerStep): Step {
    match step
    case Message(m, f) => var d := Dispatched(kinds, v, m, f); Incoming(m, d.handler, d.error)
    case Timer(top, at, f, during, after) =>
      Expiry(top, at, if TimedOutOwner(v, top).Some? then Answer(f.errorCommand, f.errorSize) else f.error, during, after)
    case Own(s) => s
  }

  function SessionOps(kinds: map<int, FileKind>, v: Server, step: ServerStep): seq<Operation> {
    match step
    case Message(m, f) => Dispatched(kinds, v, m, f).ops
    case Timer(top, _, _, _, _) => if TimedOutOwner(v, top).Some? then OnError(TimedOutOwner(v, top).value) else []
    case Own(_) => []
  }

  function OwnersAfter(kinds: map<int, FileKind>, v: Server, step: ServerStep): map<int, Owner> {
    if step.Message? && Dispatched(kinds, v, step.message, step.found).owner.Some?
    then v.owners[v.worker.nextTrans := Dispatched(kinds, v, step.message, step.found).owner.value]
    else v.owners
  }

  /** Replies keep within the size limit, requests are of the kind their command says, and no session
      has been removed from under a transaction that goes on. */
  ghost predicate Allowed(kinds: map<int, FileKind>, v: Server, step: ServerStep) {
    && AllWork(v.files, SessionOps(kinds, v, step))
    && match step
       case Message(m, f) => SizesOk(f) && (m.command in kinds ==> KindOf(f.request) == kinds[m.command])
       case Timer(_, _, f, _, _) => SizesOk(f)
       case Own(s) => !s.Incoming? && !s.Expiry?
  }

  predicate SizesOk(f: Found) {
    0 <= f.answer.size <= MAX_CONTENT_LEN && 0 <= f.errorSize <= MAX_CONTENT_LEN
  }

  function ServerNext(table: map<int, Kind>, kinds: map<int, FileKind>, v: Server, step: ServerStep): Server
    requires AllWork(v.files, SessionOps(kinds, v, step))
  {
    Server(Next(table, v.worker, WorkerStep(kinds, v, step)), DoAll(v.files, SessionOps(kinds, v, step)), OwnersAfter(kinds, v, step))
  }

  ghost predicate ServerLegal(table: map<int, Kind>, kinds: map<int, FileKind>, v: Server, run: seq<ServerStep>)
    decreases |run|
  {
    run == [] || (Allowed(kinds, v, run[0]) && ServerLegal(table, kinds, ServerNext(table, kinds, v, run[0]), run[1..]))
  }

  ghost function ServerAfter(table: map<int, Kind>, kinds: map<int, FileKind>, v: Server, run: seq<ServerStep>): Server
    requires ServerLegal(table, kinds, v, run)
    decreases |run|
  {
    if run == [] then v else ServerAfter(table, kinds, ServerNext(table, kinds, v, run[0]), run[1..])
  }

  ghost function WorkerRun(table: map<int, Kind>, kinds: map<int, FileKind>, v: Server, run: seq<ServerStep>): seq<Step>
    requires ServerLegal(table, kinds, v, run)
    decreases |run|
  {
    if run == [] then []
    else [WorkerStep(kinds, v, run[0])] + WorkerRun(table, kinds, ServerNext(table, kinds, v, run[0]), run[1..])
  }

  ghost function SessionRun(table: map<int, Kind>, kinds: map<int, FileKind>, v: Server, run: seq<ServerStep>): seq<Operation>
    requires ServerLegal(table, kinds, v, run)
    decreases |run|
  {
    if run == [] then []
    else SessionOps(kinds, v, run[0]) + SessionRun(table, kinds, ServerNext(table, kinds, v, run[0]), run[1..])
  }

  lemma {:induction false} WorkerOfServer(table: map<int, Kind>, kinds: map<int, FileKind>, v: Server, run: seq<ServerStep>)
    requires ServerLegal(table, kinds, v, run)
    ensures After(table, v.worker, WorkerRun(table, kinds, v, run)) == ServerAfter(table, kinds, v, run).worker
    decreases |run|
  {
    hide Next, WorkerStep, SessionOps, OwnersAfter;
    if run != [] {
      WorkerOfServer(table, kinds, ServerNext(table, kinds, v, run[0]), run[1..]);
      assert WorkerRun(table, kinds, v, run)[1..] == WorkerRun(table, kinds, ServerNext(table, kinds, v, run[0]), run[1..]);
    }
  }

  lemma {:induction false} WorkJoins(m: Sessions, a: seq<Operation>, b: seq<Operation>)
    requires AllWork(m, a) && AllWork(DoAll(m, a), b)
    ensures AllWork(m, a + b) && DoAll(m, a + b) == DoAll(DoAll(m, a), b)
    decreases |a|
  {
    if a == [] {
      assert a + b == b;
    } else {
      assert (a + b)[1..] == a[1..] + b;
      WorkJoins(Do(m, a[0]), a[1..], b);
    }
  }

  lemma {:induction false} SessionsOfServer(table: map<int, Kind>, kinds: map<int, FileKind>, v: Server, run: seq<ServerStep>)
    requires ServerLegal(table, kinds, v, run)
    ensures AllWork(v.files, SessionRun(table, kinds, v, run))
    ensures DoAll(v.files, SessionRun(table, kinds, v, run)) == ServerAfter(table, kinds, v, run).files
    decreases |run|
  {
    hide Next, WorkerStep, SessionOps, OwnersAfter;
    if run != [] {
      var v' := ServerNext(table, kinds, v, run[0]);
      SessionsOfServer(table, kinds, v', run[1..]);
      WorkJoins(v.files, SessionOps(kinds, v, run[0]), SessionRun(table, kinds, v', run[1..]));
    }
  }

  // ------------------------------------------------------------- requests answered

  lemma StartShape(files: Sessions, f: Found)
    requires SizesOk(f)
    ensures var d := StartFile(files, f);
            InitShape(d.handler) && ErrorShape(d.error) && ReplyFits(d.error) && ReplyFits(d.handler)
  {
    var b := OnInit(files, f.request);
    assert b.script == Throw() || (f.request.node.Some? && b.script == AskNode(f.request.node.value));
  }

  lemma GoOnShape(files: Sessions, own: Owner, f: Found)
    requires SizesOk(f)
    ensures var d := GoOn(files, own, f);
            ActiveShape(d.handler) && ErrorShape(d.error) && ReplyFits(d.error) && ReplyFits(d.handler)
  {
  }

  lemma NextTransGrows(table: map<int, Kind>, s: State, step: Step)
    ensures Next(table, s, step).nextTrans >= s.nextTrans
    ensures step.Incoming? && BoundTrans(s, step.m.triggerId).None? && Runs(table, s, step.m) ==>
              Next(table, s, step).nextTrans == s.nextTrans + 1
  {
    match step
    case Incoming(m, handler, error) =>
      var bound := BoundTrans(s, m.triggerId);
      if bound.Some? {
        if Fits(s.trans[bound.value], m) {
          var s1 := Noted(ClearWaiting(s, bound.value), Activated(bound.value, m, s.trans[bound.value]));
          CallsPerformed(s1, bound.value, handler, error);
          DoCallsTouches(s1, bound.value, Performed(handler, error));
        }
      } else if m.command in table {
        if table[m.command].OnePhase? {
          PlainCallsTouch(s, m, handler.calls);
          PlainCallsTouch(PlainCalls(s, m, handler.calls), m, error.calls);
        } else {
          CallsPerformed(NewTrans(s, m), s.nextTrans, handler, error);
          DoCallsTouches(NewTrans(s, m), s.nextTrans, Performed(handler, error));
        }
      }
    case Expiry(top, at, error, _, _) =>
      if top.action.Timeout? && top.action.transId in s.trans {
        var s0 := s.(timers := T.Fire(s.timers, top, at));
        DoCallsTouches(Noted(ClearWaiting(s0, top.action.transId), TimedOut(top.action.transId, top, at)), top.action.transId, error.calls);
      }
    case OwnTimer(_) =>
    case DropTimer(_) =>
    case TakeIds(_) =>
  }

  predicate KindsOk(table: map<int, Kind>, kinds: map<int, FileKind>) {
    forall c | c in kinds :: c in table && table[c].MultiplyPhase?
  }

  ghost predicate ServerOk(v: Server) {
    v.worker in Traced(0) && forall id | id in v.owners :: id < v.worker.nextTrans
  }

  lemma ServerStepKeeps(table: map<int, Kind>, kinds: map<int, FileKind>, v: Server, step: ServerStep)
    requires KindsOk(table, kinds) && ServerOk(v) && Allowed(kinds, v, step)
    ensures ServerOk(ServerNext(table, kinds, v, step))
  {
    hide Next, Traced, BoundTrans, OnInit, SessionAnswered, AllWork, DoAll;
    StepKeeps(table, v.worker, WorkerStep(kinds, v, step));
    NextTransGrows(table, v.worker, WorkerStep(kinds, v, step));
  }

  /** A transaction that has started without being a file transaction never becomes one. */
  lemma {:induction false} NeverOwned(table: map<int, Kind>, kinds: map<int, FileKind>, v: Server, run: seq<ServerStep>, id: int)
    requires KindsOk(table, kinds) && ServerOk(v) && ServerLegal(table, kinds, v, run)
    requires id !in v.owners && id < v.worker.nextTrans
    ensures id !in ServerAfter(table, kinds, v, run).owners
    decreases |run|
  {
    hide Next, Traced, WorkerStep, AllWork, SessionOps;
    if run != [] {
      ServerStepKeeps(table, kinds, v, run[0]);
      NextTransGrows(table, v.worker, WorkerStep(kinds, v, run[0]));
      NeverOwned(table, kinds, ServerNext(table, kinds, v, run[0]), run[1..], id);
    }
  }

  /** What runs of a file transaction in one step has the shape of its handlers. */
  lemma StepShaped(table: map<int, Kind>, kinds: map<int, FileKind>, v: Server, step: ServerStep, id: int)
    requires KindsOk(table, kinds) && ServerOk(v) && Allowed(kinds, v, step)
    requires id in ServerNext(table, kinds, v, step).owners || id >= ServerNext(table, kinds, v, step).worker.nextTrans
    ensures Shaped(table, v.worker, WorkerStep(kinds, v, step), id)
  {
    NextTransGrows(table, v.worker, WorkerStep(kinds, v, step));
    KnownIds(v.worker);
    hide Next, InitShape, ActiveShape, ErrorShape, ReplyFits, Traced, AllWork, DoAll, StartFile, GoOn;
    match step
    case Message(m, f) =>
      StartShape(v.files, f);
      var bound := BoundTrans(v.worker, m.triggerId);
      if bound.Some? && bound.value in v.owners {
        GoOnShape(v.files, v.owners[bound.value], f);
      }
    case Timer(top, _, f, _, _) =>
      AnswerShape(f.errorCommand, f.errorSize);
    case Own(_) =>
  }

  lemma KnownIds(s: State)
    requires s in Traced(0)
    ensures forall id | id in s.trans :: id < s.nextTrans
  {
  }

  lemma AnswerShape(command: int, size: int)
    requires 0 <= size <= MAX_CONTENT_LEN
    ensures ErrorShape(Answer(command, size)) && ReplyFits(Answer(command, size))
  {
  }

  lemma {:induction false} RunShaped(table: map<int, Kind>, kinds: map<int, FileKind>, v: Server, run: seq<ServerStep>, id: int)
    requires KindsOk(table, kinds) && ServerOk(v) && ServerLegal(table, kinds, v, run)
    requires id in ServerAfter(table, kinds, v, run).owners
    ensures ShapedRun(table, v.worker, WorkerRun(table, kinds, v, run), id)
    decreases |run|
  {
    hide Next, Traced, WorkerStep, AllWork, SessionOps, OwnersAfter, Shaped;
    if run != [] {
      var v' := ServerNext(table, kinds, v, run[0]);
      ServerStepKeeps(table, kinds, v, run[0]);
      if id !in v'.owners && id < v'.worker.nextTrans {
        NeverOwned(table, kinds, v', run[1..], id);
      }
      StepShaped(table, kinds, v, run[0], id);
      RunShaped(table, kinds, v', run[1..], id);
      assert WorkerRun(table, kinds, v, run)[1..] == WorkerRun(table, kinds, v', run[1..]);
    }
  }

  function NewServer(now: Time): Server {
    Server(Initial(now), NO_SESSIONS, map[])
  }

  lemma NewServerOk(now: Time)
    ensures ServerOk(NewServer(now)) && NewServer(now).worker == Initial(now)
  {
    InitialRight(now);
  }

  lemma OwnerStarted(v: Server, id: int)
    requires ServerOk(v) && id in v.owners
    ensures id < v.worker.nextTrans
  {
  }

  /** Every request that started one of the four transactions has exactly one reply in the out queue, or
      its transaction is still waiting: over every run of the server, whatever the node, the clock and
      other transactions do. The reply goes to the connection of the request and names it. */
  lemma FileRequestsAreAnswered(table: map<int, Kind>, kinds: map<int, FileKind>, now: Time, run: seq<ServerStep>, id: int)
    requires KindsOk(table, kinds) && ServerLegal(table, kinds, NewServer(now), run)
    requires id in ServerAfter(table, kinds, NewServer(now), run).owners && id > 0
    ensures var s := ServerAfter(table, kinds, NewServer(now), run).worker;
            && Replies(s, id) == (if id in s.trans then 0 else 1) && (id in s.trans ==> s.trans[id].waiting)
            && (forall k, m | 0 <= k < |s.sent| && IsReply(s, k, id) && Started(id, m) in s.log ::
                  s.sent[k].conn == m.conn && s.sent[k].service == 0 && s.sent[k].triggerId == m.selfId)
  {
    hide *;
    var v, steps := NewServer(now), WorkerRun(table, kinds, NewServer(now), run);
    NewServerOk(now);
    RunShaped(table, kinds, v, run, id);
    WorkerOfServer(table, kinds, v, run);
    ShapedRunsAreDisciplined(table, v.worker, steps, id);
    OwnersStarted(table, kinds, v, run);
    OwnerStarted(ServerAfter(table, kinds, v, run), id);
    RequestIsAnsweredOnce(table, now, steps, id);
  }

  lemma {:induction false} OwnersStarted(table: map<int, Kind>, kinds: map<int, FileKind>, v: Server, run: seq<ServerStep>)
    requires KindsOk(table, kinds) && ServerOk(v) && ServerLegal(table, kinds, v, run)
    ensures ServerOk(ServerAfter(table, kinds, v, run))
    decreases |run|
  {
    if run != [] {
      hide Next, Traced, WorkerStep, AllWork, SessionOps, OwnersAfter, ServerOk, Allowed;
      ServerStepKeeps(table, kinds, v, run[0]);
      OwnersStarted(table, kinds, ServerNext(table, kinds, v, run[0]), run[1..]);
    }
  }

  lemma {:induction false} OneOrTwo(m: Sessions, ops: seq<Operation>)
    requires AllWork(m, ops) && |ops| <= 2
    ensures |ops| == 0 ==> DoAll(m, ops) == m
    ensures |ops| == 1 ==> Works(m, ops[0]) && DoAll(m, ops) == Do(m, ops[0])
    ensures |ops| == 2 ==> Works(m, ops[0]) && Works(Do(m, ops[0]), ops[1]) && DoAll(m, ops) == Do(Do(m, ops[0]), ops[1])
    decreases |ops|
  {
    hide Works, Do;
    if |ops| == 1 {
      assert ops[1..] == [];
    } else if |ops| == 2 {
      OneOrTwo(Do(m, ops[0]), ops[1..]);
    }
  }

  /** The session a transaction gives up: only the session transactions do. */
  function OwnSession(own: Owner): set<int> {
    if own.kind == PutSessionTrans || own.kind == GetSessionTrans then {own.sessionId} else {}
  }

  /** A session transaction that times out, or whose node answers with an error or with something that
      does not parse, gives its own session up and no other; put file and get file leave all sessions. */
  lemma ErrorsGiveUp(table: map<int, Kind>, kinds: map<int, FileKind>, v: Server, step: ServerStep, id: int)
    requires Allowed(kinds, v, step) && id in v.owners && id in v.worker.trans
    requires match step
             case Message(m, f) => BoundTrans(v.worker, m.triggerId) == Some(id) && Fits(v.worker.trans[id], m)
                                   && (!f.answer.parses || f.answer.nodeError)
             case Timer(top, _, _, _, _) => top.action == Timeout(id)
             case Own(_) => false
    ensures ServerNext(table, kinds, v, step).files == v.files.(list := v.files.list - OwnSession(v.owners[id]))
  {
    hide Next, Fits, BoundTrans, WorkerStep, AllWork, DoAll;
    OneOrTwo(v.files, SessionOps(kinds, v, step));
  }

  /** A session request that finds no node leaves no session of its own behind, and takes no other. */
  lemma NoNodeNoSession(table: map<int, Kind>, kinds: map<int, FileKind>, v: Server, step: ServerStep)
    requires Allowed(kinds, v, step) && step.Message? && BoundTrans(v.worker, step.message.triggerId).None?
    requires step.message.command in kinds && kinds[step.message.command] in {PutSessionTrans, GetSessionTrans}
    requires step.found.request.node.None? && Consistent(v.files)
    ensures var own := OwnersAfter(kinds, v, step)[v.worker.nextTrans];
            ServerNext(table, kinds, v, step).files.list == v.files.list - {own.sessionId}
  {
    hide Next, WorkerStep, AllWork, DoAll, BoundTrans;
    OneOrTwo(v.files, SessionOps(kinds, v, step));
  }

  /** Over every run of the server, the fragments one put session lets through are 0, 1, 2, .... */
  lemma FragmentsGoThroughInOrder(table: map<int, Kind>, kinds: map<int, FileKind>, now: Time, run: seq<ServerStep>, id: int)
    requires ServerLegal(table, kinds, NewServer(now), run) && id > 0
    ensures var ops, files := SessionRun(table, kinds, NewServer(now), run), ServerAfter(table, kinds, NewServer(now), run).files;
            && AllWork(NO_SESSIONS, ops) && InOrder(Through(NO_SESSIONS, ops, id), 0)
            && (IsPut(files, id) ==> files.list[id].nextFragment == |Through(NO_SESSIONS, ops, id)|)
  {
    SessionsOfServer(table, kinds, NewServer(now), run);
    FragmentsOfSession(SessionRun(table, kinds, NewServer(now), run), id);
  }
}
