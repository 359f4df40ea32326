/** The resource server's file sessions: what the handlers of the four put and get file transactions
    do to them, what they ask of the framework, and what holds over whole runs of such handlers.
    Tables kept elsewhere (logins, groups, nodes) appear as the results of the lookups. */
module FileSessions {
  import opened PreciseTime
  import opened Wire
  import opened WorkerState

  type FilePath = string

  datatype FileSession = PutSession(userId: int, groupId: int, path: FilePath, maxFragment: int, nextFragment: int, nodeSession: int)
                       | GetSession(userId: int, groupId: int, path: FilePath, nodeGetSession: int)

  /** `latest` is the session registered last for a group's path. */
  datatype Sessions = Sessions(list: map<int, FileSession>, latest: map<(int, FilePath), int>, nextId: int)

  const NO_SESSIONS := Sessions(map[], map[], 1)

  // ------------------------------------------------------------------- scripts

  /** A request to the node and the wait for its answer: the command numbers, the size of the message
      and the reading of the clock. */
  datatype NodeCall = NodeCall(service: int, command: int, size: int, encodes: bool, response: int, onActive: int, at: Time)

  const DEFAULT_TIMEOUT := 1

  function Throw(): Script {
    Script([], true)
  }

  function AskNode(c: NodeCall): Script {
    Script([Send(0, c.service, c.command, c.size, c.encodes, true),
            Wait(0, c.service, c.response, c.onActive, DEFAULT_TIMEOUT, c.at)], false)
  }

  /** Without such a group or node the lookup throws. */
  function Ask(node: Option<NodeCall>): Script {
    if node.Some? then AskNode(node.value) else Throw()
  }

  function Answer(command: int, size: int): Script {
    Script([Reply(command, size, true)], false)
  }

  // ------------------------------------------------------------------ sessions

  /** The session a user can go on with: the one registered last for the path of the group, of
      whatever kind and whoever's, if it is this user's and of the wanted kind. */
  function Resumable(m: Sessions, put: bool, userId: int, groupId: int, path: FilePath): Option<int> {
    if (groupId, path) in m.latest && m.latest[(groupId, path)] in m.list
       && m.list[m.latest[(groupId, path)]].PutSession? == put && m.list[m.latest[(groupId, path)]].userId == userId
    then Some(m.latest[(groupId, path)])
    else None
  }

  /** An index entry whose session is gone is dropped when it is met. */
  function Looked(m: Sessions, groupId: int, path: FilePath): Sessions {
    if (groupId, path) in m.latest && m.latest[(groupId, path)] !in m.list then m.(latest := m.latest - {(groupId, path)}) else m
  }

  function Registered(m: Sessions, s: FileSession): Sessions {
    Sessions(m.list[m.nextId := s], m.latest[(s.groupId, s.path) := m.nextId], m.nextId + 1)
  }

  function Removed(m: Sessions, id: int): Sessions {
    m.(list := m.list - {id})
  }

  // ------------------------------------------------------------------ handlers

  /** The requests, with what the lookups give. `put` is whether the file could be entered in the
      group's tree; it is asked only for a new session. */
  datatype Request = PutSessionRequest(login: Option<int>, isManager: Option<bool>, groupId: int, path: FilePath,
                                       maxFragment: int, put: bool, node: Option<NodeCall>)
                   | PutRequest(login: Option<int>, sessionId: int, index: int, node: Option<NodeCall>)
                   | GetSessionRequest(login: Option<int>, isMember: Option<bool>, groupId: int, path: FilePath,
                                       isGeneralFile: bool, node: Option<NodeCall>)
                   | GetRequest(login: Option<int>, sessionId: int, isGeneralFile: bool, node: Option<NodeCall>)

  /** What on_init leaves: the sessions, what it asked of the framework, and the session the
      transaction has noted for itself. */
  datatype Begun = Begun(files: Sessions, script: Script, sessionId: int)

  function Refused(m: Sessions): Begun {
    Begun(m, Throw(), 0)
  }

  function PutSessionOnInit(m: Sessions, r: Request): Begun
    requires r.PutSessionRequest?
  {
    if r.login.None? || r.isManager != Some(true) then Refused(m)
    else
      var found, l := Resumable(m, true, r.login.value, r.groupId, r.path), Looked(m, r.groupId, r.path);
      if found.Some? then
        if m.list[found.value].maxFragment != r.maxFragment then Refused(l) else Begun(l, Ask(r.node), found.value)
      else if !r.put then Refused(l)
      else Begun(Registered(l, PutSession(r.login.value, r.groupId, r.path, r.maxFragment, 0, 0)), Ask(r.node), l.nextId)
  }

  /** A fragment is let through exactly if it is the session's next one. */
  predicate LetsThrough(m: Sessions, r: Request) {
    && r.PutRequest? && r.login.Some? && r.sessionId in m.list && m.list[r.sessionId].PutSession?
    && m.list[r.sessionId].userId == r.login.value && r.index == m.list[r.sessionId].nextFragment
  }

  /** The count goes up before the group and the node are looked up. */
  function PutOnInit(m: Sessions, r: Request): Begun
    requires r.PutRequest?
  {
    if !LetsThrough(m, r) then Refused(m)
    else
      var s := m.list[r.sessionId];
      Begun(m.(list := m.list[r.sessionId := s.(nextFragment := s.nextFragment + 1)]), Ask(r.node), r.sessionId)
  }

  function GetSessionOnInit(m: Sessions, r: Request): Begun
    requires r.GetSessionRequest?
  {
    if r.login.None? || r.isMember != Some(true) || !r.isGeneralFile then Refused(m)
    else
      var found, l := Resumable(m, false, r.login.value, r.groupId, r.path), Looked(m, r.groupId, r.path);
      if found.Some? then Begun(l, Ask(r.node), found.value)
      else Begun(Registered(l, GetSession(r.login.value, r.groupId, r.path, 0)), Ask(r.node), l.nextId)
  }

  function GetOnInit(m: Sessions, r: Request): Begun
    requires r.GetRequest?
  {
    if r.login.None? || r.sessionId !in m.list || !m.list[r.sessionId].GetSession? || m.list[r.sessionId].userId != r.login.value
       || !r.isGeneralFile then Refused(m)
    else Begun(m, Ask(r.node), r.sessionId)
  }

  function OnInit(m: Sessions, r: Request): Begun {
    match r
    case PutSessionRequest(_, _, _, _, _, _, _) => PutSessionOnInit(m, r)
    case PutRequest(_, _, _, _) => PutOnInit(m, r)
    case GetSessionRequest(_, _, _, _, _, _) => GetSessionOnInit(m, r)
    case GetRequest(_, _, _, _) => GetOnInit(m, r)
  }

  /** The node's answer to a session request, and the reply it leads to. */
  datatype NodeAnswer = NodeAnswer(parses: bool, nodeError: bool, nodeSession: int, command: int, size: int)

  datatype Turn = Turn(files: Sessions, script: Script)

  function WithNode(s: FileSession, nodeSession: int): FileSession {
    match s
    case PutSession(_, _, _, _, _, _) => s.(nodeSession := nodeSession)
    case GetSession(_, _, _, _) => s.(nodeGetSession := nodeSession)
  }

  /** on_active of the session transactions. `None`: another transaction has removed the session, and
      a null pointer is dereferenced. */
  function SessionAnswered(m: Sessions, put: bool, id: int, a: NodeAnswer): Option<Turn> {
    if !a.parses then Some(Turn(m, Throw()))
    else if a.nodeError then Some(Turn(Removed(m, id), Answer(a.command, a.size)))
    else if id !in m.list || m.list[id].PutSession? != put then None
    else Some(Turn(m.(list := m.list[id := WithNode(m.list[id], a.nodeSession)]), Answer(a.command, a.size)))
  }

  // --------------------------------------------------------------------- runs

  /** The handlers that change sessions: on_init, on_active of the session transactions, and their
      on_error. */
  datatype Operation = Start(request: Request) | Answered(put: bool, id: int, answer: NodeAnswer) | GiveUp(id: int)

  predicate Works(m: Sessions, op: Operation) {
    op.Answered? ==> SessionAnswered(m, op.put, op.id, op.answer).Some?
  }

  function Do(m: Sessions, op: Operation): Sessions
    requires Works(m, op)
  {
    match op
    case Start(r) => OnInit(m, r).files
    case Answered(put, id, a) => SessionAnswered(m, put, id, a).value.files
    case GiveUp(id) => Removed(m, id)
  }

  predicate AllWork(m: Sessions, run: seq<Operation>)
    decreases |run|
  {
    run == [] || (Works(m, run[0]) && AllWork(Do(m, run[0]), run[1..]))
  }

  function DoAll(m: Sessions, run: seq<Operation>): Sessions
    requires AllWork(m, run)
    decreases |run|
  {
    if run == [] then m else DoAll(Do(m, run[0]), run[1..])
  }

  predicate Consistent(m: Sessions) {
    && m.nextId > 0 && (forall id | id in m.list :: 0 < id < m.nextId && (m.list[id].PutSession? ==> m.list[id].nextFragment >= 0))
    && (forall k | k in m.latest :: 0 < m.latest[k] < m.nextId)
    && (forall k | k in m.latest && m.latest[k] in m.list :: m.list[m.latest[k]].groupId == k.0 && m.list[m.latest[k]].path == k.1)
  }

  lemma DoKeeps(m: Sessions, op: Operation)
    requires Consistent(m) && Works(m, op)
    ensures Consistent(Do(m, op)) && Do(m, op).nextId >= m.nextId
  {
    match op
    case Start(r) => OnInitKeeps(m, r);
    case Answered(put, id, a) =>
    case GiveUp(id) =>
  }

  lemma LookedKeeps(m: Sessions, groupId: int, path: FilePath)
    requires Consistent(m)
    ensures Consistent(Looked(m, groupId, path))
  {
  }

  lemma RegisteredKeeps(m: Sessions, s: FileSession)
    requires Consistent(m) && (s.PutSession? ==> s.nextFragment >= 0)
    ensures Consistent(Registered(m, s))
  {
  }

  lemma CountKeeps(m: Sessions, id: int, next: int)
    requires Consistent(m) && IsPut(m, id) && next >= 0
    ensures Consistent(m.(list := m.list[id := m.list[id].(nextFragment := next)]))
  {
  }

  lemma OnInitKeeps(m: Sessions, r: Request)
    requires Consistent(m)
    ensures Consistent(OnInit(m, r).files) && OnInit(m, r).files.nextId >= m.nextId
  {
    match r
    case PutSessionRequest(login, _, groupId, path, maxFragment, _, _) =>
      LookedKeeps(m, groupId, path);
      if login.Some? {
        RegisteredKeeps(Looked(m, groupId, path), PutSession(login.value, groupId, path, maxFragment, 0, 0));
      }
      hide Consistent;
    case PutRequest(_, id, index, _) =>
      if LetsThrough(m, r) {
        CountKeeps(m, id, index + 1);
      }
    case GetSessionRequest(login, _, groupId, path, _, _) =>
      LookedKeeps(m, groupId, path);
      if login.Some? {
        RegisteredKeeps(Looked(m, groupId, path), GetSession(login.value, groupId, path, 0));
      }
      hide Consistent;
    case GetRequest(_, _, _, _) =>
  }

  lemma {:induction false} DoAllKeeps(m: Sessions, run: seq<Operation>)
    requires Consistent(m) && AllWork(m, run)
    ensures Consistent(DoAll(m, run)) && DoAll(m, run).nextId >= m.nextId
    decreases |run|
  {
    if run != [] {
      DoKeeps(m, run[0]);
      DoAllKeeps(Do(m, run[0]), run[1..]);
    }
  }

  // ------------------------------------------------- fragments of one session

  /** A fragment let through, and whether it was sent on: without a node it is lost. */
  datatype Piece = Piece(index: int, sent: bool)

  function Let(m: Sessions, op: Operation, id: int): seq<Piece> {
    if op.Start? && LetsThrough(m, op.request) && op.request.sessionId == id
    then [Piece(op.request.index, op.request.node.Some?)] else []
  }

  function Through(m: Sessions, run: seq<Operation>, id: int): seq<Piece>
    requires AllWork(m, run)
    decreases |run|
  {
    if run == [] then [] else Let(m, run[0], id) + Through(Do(m, run[0]), run[1..], id)
  }

  predicate InOrder(ps: seq<Piece>, first: int) {
    forall i | 0 <= i < |ps| :: ps[i].index == first + i
  }

  lemma IndexIs(ps: seq<Piece>, first: int, i: nat)
    requires InOrder(ps, first) && i < |ps|
    ensures ps[i].index == first + i
  {
  }

  function Fragments(m: Sessions, id: int): int {
    if id in m.list && m.list[id].PutSession? then m.list[id].nextFragment else 0
  }

  predicate IsPut(m: Sessions, id: int) {
    id in m.list && m.list[id].PutSession?
  }

  /** What one handler does to the count of a session. */
  lemma OneThrough(m: Sessions, op: Operation, id: int)
    requires Consistent(m) && Works(m, op)
    ensures var m', ps := Do(m, op), Let(m, op, id);
            && (ps != [] ==> IsPut(m, id) && IsPut(m', id) && ps == [Piece(Fragments(m, id), ps[0].sent)])
            && (IsPut(m', id) ==> Fragments(m', id) == Fragments(m, id) + |ps|)
            && (id !in m.list && id < m.nextId ==> id !in m'.list)
            && (id >= m.nextId ==> id !in m.list)
            && (id in m.list && id in m'.list ==> IsPut(m', id) == IsPut(m, id))
  {
  }

  /** From any state: the indices go up by one from the session's count, which keeps pace. */
  lemma {:induction false} ThroughFrom(m: Sessions, run: seq<Operation>, id: int)
    requires Consistent(m) && AllWork(m, run) && (IsPut(m, id) || id >= m.nextId)
    ensures var ps := Through(m, run, id);
            && InOrder(ps, Fragments(m, id))
            && (IsPut(DoAll(m, run), id) ==> Fragments(DoAll(m, run), id) == Fragments(m, id) + |ps|)
    decreases |run|
  {
    hide Consistent, Do, Let, LetsThrough;
    if run != [] {
      var m' := Do(m, run[0]);
      OneThrough(m, run[0], id);
      DoKeeps(m, run[0]);
      var first: seq<Piece>, rest: seq<Piece> := Let(m, run[0], id), Through(m', run[1..], id);
      if IsPut(m', id) || id >= m'.nextId {
        ThroughFrom(m', run[1..], id);
      } else {
        NothingThrough(m', run[1..], id);
      }
      forall i: int | 0 <= i < |first + rest|
        ensures (first + rest)[i].index == Fragments(m, id) + i
      {
        assert (first + rest)[i] == if i < |first| then first[i] else rest[i - |first|];
        if i >= |first| {
          IndexIs(rest, Fragments(m', id), i - |first|);
        }
      }
    }
  }

  /** No fragment is let through for a session that is gone or is for reading. */
  lemma {:induction false} NothingThrough(m: Sessions, run: seq<Operation>, id: int)
    requires Consistent(m) && AllWork(m, run) && !IsPut(m, id) && id < m.nextId
    ensures Through(m, run, id) == [] && !IsPut(DoAll(m, run), id)
    decreases |run|
  {
    hide Consistent, Do, Let, LetsThrough;
    if run != [] {
      OneThrough(m, run[0], id);
      DoKeeps(m, run[0]);
      NothingThrough(Do(m, run[0]), run[1..], id);
    }
  }

  /** Over every run of handlers, in whatever order and for however many sessions: the fragments one
      session lets through are 0, 1, 2, ..., and the session counts them. */
  lemma FragmentsOfSession(run: seq<Operation>, id: int)
    requires AllWork(NO_SESSIONS, run) && id > 0
    ensures var ps, m := Through(NO_SESSIONS, run, id), DoAll(NO_SESSIONS, run);
            && InOrder(ps, 0)
            && (IsPut(m, id) ==> m.list[id].nextFragment == |ps|)
  {
    ThroughFrom(NO_SESSIONS, run, id);
  }

  // ------------------------------------------------------------------- resume

  /** The handler registers a session, for writing or reading, for this path of this group. */
  predicate Registers(m: Sessions, op: Operation, groupId: int, path: FilePath) {
    && op.Start? && (op.request.PutSessionRequest? || op.request.GetSessionRequest?)
    && op.request.groupId == groupId && op.request.path == path && OnInit(m, op.request).files.nextId > m.nextId
  }

  /** The handler gives the session up. */
  predicate Drops(op: Operation, id: int) {
    op == GiveUp(id) || (op.Answered? && op.id == id && op.answer.parses && op.answer.nodeError)
  }

  predicate Undisturbed(m: Sessions, run: seq<Operation>, id: int, groupId: int, path: FilePath)
    requires AllWork(m, run)
    decreases |run|
  {
    run == [] || (!Registers(m, run[0], groupId, path) && !Drops(run[0], id) && Undisturbed(Do(m, run[0]), run[1..], id, groupId, path))
  }

  /** The session is the one its path leads to. */
  predicate Current(m: Sessions, id: int) {
    IsPut(m, id) && (m.list[id].groupId, m.list[id].path) in m.latest && m.latest[(m.list[id].groupId, m.list[id].path)] == id
  }

  lemma CurrentIsResumable(m: Sessions, id: int)
    requires Consistent(m) && IsPut(m, id)
    ensures var s := m.list[id]; Resumable(m, true, s.userId, s.groupId, s.path) == Some(id) <==> Current(m, id)
  {
  }

  predicate SameSession(a: FileSession, b: FileSession) {
    a.PutSession? && b.PutSession? && a.userId == b.userId && a.groupId == b.groupId && a.path == b.path && a.maxFragment == b.maxFragment
  }

  lemma CurrentStep(m: Sessions, op: Operation, id: int)
    requires Consistent(m) && Works(m, op) && Current(m, id)
    ensures var s, m' := m.list[id], Do(m, op);
            && (Current(m', id) <==> !Registers(m, op, s.groupId, s.path) && !Drops(op, id))
            && (id in m'.list ==> SameSession(s, m'.list[id]))
  {
    match op
    case Start(r) => CurrentStart(m, r, id);
    case Answered(_, _, _) =>
    case GiveUp(_) =>
  }

  lemma CurrentStart(m: Sessions, r: Request, id: int)
    requires Consistent(m) && Current(m, id)
    ensures var s, m' := m.list[id], OnInit(m, r).files;
            (Current(m', id) <==> !Registers(m, Start(r), s.groupId, s.path)) && id in m'.list && SameSession(s, m'.list[id])
  {
  }

  /** A session that is no longer current never is again. */
  lemma {:induction false} PastStaysPast(m: Sessions, run: seq<Operation>, id: int)
    requires Consistent(m) && AllWork(m, run) && id < m.nextId && !Current(m, id)
    ensures !Current(DoAll(m, run), id)
    decreases |run|
  {
    if run != [] {
      PastStep(m, run[0], id);
      DoKeeps(m, run[0]);
      PastStaysPast(Do(m, run[0]), run[1..], id);
    }
  }

  lemma PastStep(m: Sessions, op: Operation, id: int)
    requires Consistent(m) && Works(m, op) && id < m.nextId && !Current(m, id)
    ensures !Current(Do(m, op), id)
  {
  }

  lemma {:induction false} CurrentRun(m: Sessions, run: seq<Operation>, id: int)
    requires Consistent(m) && AllWork(m, run) && Current(m, id)
    ensures var s, m' := m.list[id], DoAll(m, run);
            && (Current(m', id) <==> Undisturbed(m, run, id, s.groupId, s.path))
            && (Current(m', id) ==> SameSession(s, m'.list[id]))
    decreases |run|
  {
    hide Consistent, Do, Registers, Drops;
    if run != [] {
      var m' := Do(m, run[0]);
      CurrentStep(m, run[0], id);
      DoKeeps(m, run[0]);
      if Current(m', id) {
        CurrentRun(m', run[1..], id);
      } else {
        CurrentIsGiven(m, id);
        PastStaysPast(m', run[1..], id);
      }
    }
  }

  lemma CurrentIsGiven(m: Sessions, id: int)
    requires Consistent(m) && Current(m, id)
    ensures id < m.nextId
  {
  }

  /** Whatever has happened since: asking again for an upload finds its session exactly if no session,
      not even one for reading, has been registered for the path since and it has not been given up.
      Then nothing changes, and the session's next fragment is the number it has let through. */
  lemma ReopensIff(m: Sessions, run: seq<Operation>, id: int, r: Request)
    requires Consistent(m) && AllWork(m, run) && Current(m, id) && r.PutSessionRequest?
    requires r.login == Some(m.list[id].userId) && r.isManager == Some(true)
    requires r.groupId == m.list[id].groupId && r.path == m.list[id].path && r.maxFragment == m.list[id].maxFragment
    ensures var b := OnInit(DoAll(m, run), r);
            && (b.sessionId == id <==> Undisturbed(m, run, id, r.groupId, r.path))
            && (b.sessionId == id ==> b.files == DoAll(m, run) && b.script == Ask(r.node)
                                      && Fragments(b.files, id) == Fragments(m, id) + |Through(m, run, id)|)
  {
    var m' := DoAll(m, run);
    CurrentRun(m, run, id);
    DoAllKeeps(m, run);
    ThroughFrom(m, run, id);
    if Current(m', id) {
      CurrentIsResumable(m', id);
    }
  }

  /** No session is registered for the path. */
  predicate Unclaimed(m: Sessions, run: seq<Operation>, groupId: int, path: FilePath)
    requires AllWork(m, run)
    decreases |run|
  {
    run == [] || (!Registers(m, run[0], groupId, path) && Unclaimed(Do(m, run[0]), run[1..], groupId, path))
  }

  /** The session is never given up. */
  predicate Kept(run: seq<Operation>, id: int) {
    forall i | 0 <= i < |run| :: !Drops(run[i], id)
  }

  lemma {:induction false} UndisturbedIs(m: Sessions, run: seq<Operation>, id: int, groupId: int, path: FilePath)
    requires AllWork(m, run)
    ensures Undisturbed(m, run, id, groupId, path) <==> Unclaimed(m, run, groupId, path) && Kept(run, id)
    decreases |run|
  {
    hide Do, Registers, Drops;
    if run != [] {
      UndisturbedIs(Do(m, run[0]), run[1..], id, groupId, path);
      KeptFirst(run, id);
    }
  }

  lemma KeptFirst(run: seq<Operation>, id: int)
    requires run != []
    ensures Kept(run, id) <==> !Drops(run[0], id) && Kept(run[1..], id)
  {
    hide Drops;
    assert forall i | 0 < i < |run| :: run[i] == run[1..][i - 1];
  }

  lemma StillPut(m: Sessions, op: Operation, id: int)
    requires Consistent(m) && Works(m, op) && IsPut(m, id)
    ensures var m' := Do(m, op);
            && (id in m'.list <==> !Drops(op, id))
            && (id in m'.list ==> SameSession(m.list[id], m'.list[id]))
  {
  }

  /** A session stays registered as what it is until it is given up, whatever happens to its path. */
  lemma {:induction false} StaysPut(m: Sessions, run: seq<Operation>, id: int)
    requires Consistent(m) && AllWork(m, run) && IsPut(m, id) && id < m.nextId
    ensures var m' := DoAll(m, run);
            && (IsPut(m', id) <==> Kept(run, id))
            && (IsPut(m', id) ==> SameSession(m.list[id], m'.list[id]))
    decreases |run|
  {
    hide Consistent, Do, Drops;
    if run != [] {
      var m' := Do(m, run[0]);
      StillPut(m, run[0], id);
      DoKeeps(m, run[0]);
      KeptFirst(run, id);
      if id in m'.list {
        StaysPut(m', run[1..], id);
      } else {
        NothingThrough(m', run[1..], id);
      }
    }
  }

  /** The two ways to go on with an upload after any run. Asking for it again finds its session exactly
      if no other has been registered for the path. A client that has kept the session's id needs no
      path: its next fragment, and no other, is let through exactly if the session has not been given
      up. */
  lemma AskingOrKnowing(m: Sessions, run: seq<Operation>, id: int, r: Request, index: int)
    requires Consistent(m) && AllWork(m, run) && Current(m, id) && r.PutSessionRequest?
    requires r.login == Some(m.list[id].userId) && r.isManager == Some(true)
    requires r.groupId == m.list[id].groupId && r.path == m.list[id].path && r.maxFragment == m.list[id].maxFragment
    ensures var m' := DoAll(m, run);
            && (OnInit(m', r).sessionId == id <==> Kept(run, id) && Unclaimed(m, run, r.groupId, r.path))
            && (LetsThrough(m', PutRequest(r.login, id, index, r.node))
                <==> Kept(run, id) && index == Fragments(m, id) + |Through(m, run, id)|)
  {
    ReopensIff(m, run, id, r);
    UndisturbedIs(m, run, id, r.groupId, r.path);
    CurrentIsGiven(m, id);
    StaysPut(m, run, id);
    ThroughFrom(m, run, id);
  }

  // ---------------------------------------------------------------- who may

  /** A session that on_init notes for its transaction is one's own and of the kind asked for, for the
      group and path asked for; and only a manager has one for writing, only a member one for reading. */
  lemma SessionIsOnesOwn(m: Sessions, r: Request)
    requires Consistent(m) && OnInit(m, r).sessionId != 0
    ensures var b := OnInit(m, r);
            && r.login.Some? && b.sessionId in b.files.list && b.files.list[b.sessionId].userId == r.login.value
            && match r
               case PutSessionRequest(_, isManager, groupId, path, maxFragment, _, _) =>
                 var s := b.files.list[b.sessionId];
                 isManager == Some(true) && s.PutSession? && s.groupId == groupId && s.path == path && s.maxFragment == maxFragment
               case PutRequest(_, id, _, _) => b.sessionId == id && b.files.list[id].PutSession?
               case GetSessionRequest(_, isMember, groupId, path, isGeneralFile, _) =>
                 var s := b.files.list[b.sessionId];
                 isMember == Some(true) && isGeneralFile && s.GetSession? && s.groupId == groupId && s.path == path
               case GetRequest(_, id, isGeneralFile, _) => b.sessionId == id && b.files.list[id].GetSession? && isGeneralFile
  {
  }

  /** An on_init that notes none changes no session and asks nothing of the node. */
  lemma RefusalChangesNothing(m: Sessions, r: Request)
    requires Consistent(m) && OnInit(m, r).sessionId == 0
    ensures OnInit(m, r).files.list == m.list && OnInit(m, r).files.nextId == m.nextId && OnInit(m, r).script == Throw()
  {
  }

  /** Which requests are accepted, and for which session. */
  lemma AcceptedIff(m: Sessions, r: Request)
    requires Consistent(m)
    ensures var id := OnInit(m, r).sessionId;
            match r
            case PutSessionRequest(login, isManager, groupId, path, maxFragment, put, _) =>
              var mine := if login.Some? then Resumable(m, true, login.value, groupId, path) else None;
              && (id != 0 <==> login.Some? && isManager == Some(true)
                               && (if mine.Some? then m.list[mine.value].maxFragment == maxFragment else put))
              && (id != 0 ==> id == if mine.Some? then mine.value else m.nextId)
            case PutRequest(login, sessionId, index, _) =>
              id != 0 <==> IsPut(m, sessionId) && login == Some(m.list[sessionId].userId) && index == m.list[sessionId].nextFragment
            case GetSessionRequest(login, isMember, groupId, path, isGeneralFile, _) =>
              var mine := if login.Some? then Resumable(m, false, login.value, groupId, path) else None;
              && (id != 0 <==> login.Some? && isMember == Some(true) && isGeneralFile)
              && (id != 0 ==> id == if mine.Some? then mine.value else m.nextId)
            case GetRequest(login, sessionId, isGeneralFile, _) =>
              id != 0 <==> sessionId in m.list && m.list[sessionId].GetSession? && login == Some(m.list[sessionId].userId) && isGeneralFile
  {
  }

  /** What an accepted request does: it is passed on to the node if there is one. Going on with a session
      changes none, a fragment only counts, and a session begun starts at the first fragment, without one
      of the node. */
  lemma AcceptedGoesOn(m: Sessions, r: Request)
    requires Consistent(m) && OnInit(m, r).sessionId != 0
    ensures var b := OnInit(m, r);
            && b.script == (if r.node.Some? then AskNode(r.node.value) else Throw())
            && (forall k | k in m.list && k != b.sessionId :: k in b.files.list && b.files.list[k] == m.list[k])
            && b.files.list.Keys == m.list.Keys + {b.sessionId}
            && (b.sessionId in m.list && r.PutRequest? ==>
                  b.files.list[b.sessionId] == m.list[b.sessionId].(nextFragment := m.list[b.sessionId].nextFragment + 1))
            && (b.sessionId in m.list && !r.PutRequest? ==> b.files.list[b.sessionId] == m.list[b.sessionId])
            && (b.sessionId !in m.list ==> (r.PutSessionRequest? || r.GetSessionRequest?) && (r.groupId, r.path) in b.files.latest
                                           && b.files.latest[(r.groupId, r.path)] == b.sessionId
                                           && match b.files.list[b.sessionId]
                                              case PutSession(_, _, _, _, next, node) => next == 0 && node == 0
                                              case GetSession(_, _, _, node) => node == 0)
  {
  }

  /** An answer of the node that parses and is no error is noted in the transaction's session, whether
      for writing or reading, and nothing else changes; the client gets the reply it leads to. */
  lemma NodeIsNoted(m: Sessions, put: bool, id: int, a: NodeAnswer)
    requires id in m.list && m.list[id].PutSession? == put && a.parses && !a.nodeError
    ensures var turn := SessionAnswered(m, put, id, a);
            && turn.Some? && turn.value.script == Answer(a.command, a.size)
            && turn.value.files.list.Keys == m.list.Keys && turn.value.files == m.(list := turn.value.files.list)
            && (forall k | k in m.list && k != id :: turn.value.files.list[k] == m.list[k])
            && match (m.list[id], turn.value.files.list[id])
               case (PutSession(u, g, p, f, n, _), s) => s == PutSession(u, g, p, f, n, a.nodeSession)
               case (GetSession(u, g, p, _), s) => s == GetSession(u, g, p, a.nodeSession)
  {
  }

  /** A fragment is let through for the session's user only. */
  predicate FromOthers(op: Operation, id: int, user: int) {
    op.Start? && op.request.PutRequest? && op.request.sessionId == id ==> op.request.login != Some(user)
  }

  /** Over every run in which only others send fragments for a session, it lets none through. */
  lemma {:induction false} OthersGetNothingThrough(m: Sessions, run: seq<Operation>, id: int)
    requires Consistent(m) && AllWork(m, run) && IsPut(m, id) && id < m.nextId
    requires forall i | 0 <= i < |run| :: FromOthers(run[i], id, m.list[id].userId)
    ensures Through(m, run, id) == []
    ensures IsPut(DoAll(m, run), id) ==> DoAll(m, run).list[id].nextFragment == m.list[id].nextFragment
    decreases |run|
  {
    if run != [] {
      var m' := Do(m, run[0]);
      OthersLetNothing(m, run[0], id);
      StillPut(m, run[0], id);
      OneThrough(m, run[0], id);
      DoKeeps(m, run[0]);
      hide Consistent, Do, Let, LetsThrough, FromOthers, Works;
      if id in m'.list {
        assert forall i | 0 <= i < |run[1..]| :: run[1..][i] == run[i + 1];
        OthersGetNothingThrough(m', run[1..], id);
      } else {
        NothingThrough(m', run[1..], id);
      }
    }
  }

  lemma OthersLetNothing(m: Sessions, op: Operation, id: int)
    requires IsPut(m, id) && FromOthers(op, id, m.list[id].userId)
    ensures Let(m, op, id) == []
  {
  }

  lemma OneDone(m: Sessions, op: Operation)
    requires Works(m, op)
    ensures AllWork(m, [op]) && DoAll(m, [op]) == Do(m, op)
  {
    assert [op][1..] == [] && DoAll(Do(m, op), []) == Do(m, op);
  }

  /** Two fragments of an upload have been let through when somebody asks for a session to read the
      same path. */
  function ReadWhileWriting(user: int, reader: int, groupId: int, path: FilePath, maxFragment: int, node: NodeCall): seq<Operation> {
    [Start(PutSessionRequest(Some(user), Some(true), groupId, path, maxFragment, true, Some(node))),
     Answered(true, 1, NodeAnswer(true, false, 7, 0, 0)),
     Start(PutRequest(Some(user), 1, 0, Some(node))),
     Start(PutRequest(Some(user), 1, 1, Some(node))),
     Start(GetSessionRequest(Some(reader), Some(true), groupId, path, true, Some(node)))]
  }

  function Uploading(user: int, groupId: int, path: FilePath, maxFragment: int, next: int, nodeSession: int): Sessions {
    Sessions(map[1 := PutSession(user, groupId, path, maxFragment, next, nodeSession)], map[(groupId, path) := 1], 2)
  }

  lemma UploadingSteps(user: int, groupId: int, path: FilePath, maxFragment: int, node: NodeCall)
    ensures OnInit(NO_SESSIONS, PutSessionRequest(Some(user), Some(true), groupId, path, maxFragment, true, Some(node))).files
         == Uploading(user, groupId, path, maxFragment, 0, 0)
    ensures SessionAnswered(Uploading(user, groupId, path, maxFragment, 0, 0), true, 1, NodeAnswer(true, false, 7, 0, 0))
         == Some(Turn(Uploading(user, groupId, path, maxFragment, 0, 7), Answer(0, 0)))
    ensures forall k | k >= 0 :: OnInit(Uploading(user, groupId, path, maxFragment, k, 7), PutRequest(Some(user), 1, k, Some(node))).files
                                 == Uploading(user, groupId, path, maxFragment, k + 1, 7)
  {
    var s := PutSession(user, groupId, path, maxFragment, 0, 0);
    assert map[1 := s][1 := s.(nodeSession := 7)] == map[1 := s.(nodeSession := 7)];
    forall k | k >= 0
      ensures OnInit(Uploading(user, groupId, path, maxFragment, k, 7), PutRequest(Some(user), 1, k, Some(node))).files
           == Uploading(user, groupId, path, maxFragment, k + 1, 7)
    {
      var t := PutSession(user, groupId, path, maxFragment, k, 7);
      assert map[1 := t][1 := t.(nextFragment := k + 1)] == map[1 := t.(nextFragment := k + 1)];
    }
  }

  /** The path now leads to the reader's session: asking for the upload again is refused, as the file
      has already been entered in the tree. With the session's id fragment 2 still goes through. */
  lemma ReaderTakesThePath(user: int, reader: int, groupId: int, path: FilePath, maxFragment: int, node: NodeCall)
    ensures var run := ReadWhileWriting(user, reader, groupId, path, maxFragment, node);
            && AllWork(NO_SESSIONS, run)
            && var m := DoAll(NO_SESSIONS, run);
               && 1 in m.list && m.list[1] == PutSession(user, groupId, path, maxFragment, 2, 7)
               && OnInit(m, PutSessionRequest(Some(user), Some(true), groupId, path, maxFragment, false, Some(node))) == Refused(m)
               && LetsThrough(m, PutRequest(Some(user), 1, 2, Some(node)))
  {
    var run := ReadWhileWriting(user, reader, groupId, path, maxFragment, node);
    UploadingSteps(user, groupId, path, maxFragment, node);
    var m0, m1, m2, m3 := Uploading(user, groupId, path, maxFragment, 0, 0), Uploading(user, groupId, path, maxFragment, 0, 7),
                          Uploading(user, groupId, path, maxFragment, 1, 7), Uploading(user, groupId, path, maxFragment, 2, 7);
    var m4 := Do(m3, run[4]);
    assert run[1..][0] == run[1] && run[1..][1..][0] == run[2] && run[1..][1..][1..][0] == run[3];
    assert run[1..][1..][1..][1..] == [run[4]] && [run[4]][1..] == [];
    OneDone(m3, run[4]);
    assert AllWork(m3, [run[4]]) && DoAll(m3, [run[4]]) == m4;
    assert AllWork(m2, run[1..][1..][1..]) && DoAll(m2, run[1..][1..][1..]) == m4;
    assert AllWork(m1, run[1..][1..]) && DoAll(m1, run[1..][1..]) == m4;
    assert AllWork(m0, run[1..]) && DoAll(m0, run[1..]) == m4;
  }
}
