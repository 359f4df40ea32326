/** Uploading a file in fragments: the client cuts, the server lets one fragment after the other
    through, the node writes them into a file, and reads them back. */
module Upload {
  import opened Wire
  import opened FileSessions

  const FRAGMENT_LEN := 50000 // MAX_FRAGMENT_CONTENT_LEN.
  const MAX_INDEX := 42949    // Above it an offset does not fit in 31 bits.

  type Name = string

  function Min(a: nat, b: nat): nat {
    if a <= b then a else b
  }

  // ------------------------------------------------------------------- client

  /** What reading up to a fragment at an index gives; nothing past the end of the file. */
  function Fragment(src: seq<byte>, index: nat): seq<byte> {
    ReadAt(src, index * FRAGMENT_LEN)
  }

  function ReadAt(content: seq<byte>, start: nat): seq<byte> {
    if start >= |content| then [] else content[start..Min(start + FRAGMENT_LEN, |content|)]
  }

  /** Number of fragments of a file. */
  function MaxFragment(size: nat): nat {
    (size + FRAGMENT_LEN - 1) / FRAGMENT_LEN
  }

  /** Bytes in the first `k` fragments. */
  function Covered(src: seq<byte>, k: nat): (n: nat)
    ensures n <= |src|
  {
    Min(k * FRAGMENT_LEN, |src|)
  }

  lemma FragmentsCover(src: seq<byte>, k: nat)
    ensures Covered(src, MaxFragment(|src|)) == |src|
    ensures k < MaxFragment(|src|) <==> k * FRAGMENT_LEN < |src|
    ensures k * FRAGMENT_LEN < |src| ==> src[..Covered(src, k)] + Fragment(src, k) == src[..Covered(src, k + 1)]
  {
  }

  // -------------------------------------------------------------------- node

  datatype NodeSession = NodeSession(filename: Name, maxFragment: int)

  /** `open` are the files whose stream is cached. */
  datatype Node = Node(disk: map<Name, seq<byte>>, cached: set<Name>, sessions: map<int, NodeSession>, nextId: int)

  datatype NodeError = SessionNotExist | InvalidFragment | CannotChangeMaxFragment | FileNotExist | CannotOpen

  /** A stream that is not cached is opened for writing and reading from scratch. */
  function OpenStream(n: Node, name: Name): Node {
    if name in n.cached then n else n.(disk := n.disk[name := []], cached := n.cached + {name})
  }

  function Content(n: Node, name: Name): seq<byte> {
    if name in n.disk then n.disk[name] else []
  }

  /** Writing at a position; a gap before it is filled with zeros. */
  function WriteAt(content: seq<byte>, start: nat, data: seq<byte>): seq<byte> {
    if data == [] then content
    else
      var padded := content + seq(if start > |content| then start - |content| else 0, i => 0);
      padded[..start] + data + if start + |data| < |content| then content[start + |data|..] else []
  }

  function NodePut(n: Node, name: Name, start: nat, data: seq<byte>): Node {
    var o := OpenStream(n, name);
    o.(disk := o.disk[name := WriteAt(Content(o, name), start, data)])
  }

  /** on_put_file: the answer to a forwarded fragment. */
  function NodePutFile(n: Node, id: int, index: int, data: seq<byte>): (Node, Option<NodeError>)
    requires 0 <= index
  {
    if id !in n.sessions then (n, Some(SessionNotExist))
    else
      var s := n.sessions[id];
      if index >= s.maxFragment then (n, Some(InvalidFragment))
      else
        var n1 := NodePut(n, s.filename, index * FRAGMENT_LEN, data);
        (if index + 1 == s.maxFragment then n1.(sessions := n1.sessions - {id}) else n1, None)
  }

  /** on_get_file. */
  function NodeGetFile(n: Node, id: int, index: int): (Node, Option<NodeError>, seq<byte>)
    requires 0 <= index
  {
    if id !in n.sessions then (n, Some(SessionNotExist), [])
    else
      var s := n.sessions[id];
      if index >= s.maxFragment then (n, Some(InvalidFragment), [])
      else if s.filename !in n.disk then (n, Some(FileNotExist), [])
      else
        var n1 := OpenStream(n, s.filename);
        (if index + 1 == s.maxFragment then n1.(sessions := n1.sessions - {id}) else n1,
         None, ReadAt(Content(n1, s.filename), index * FRAGMENT_LEN))
  }

  // ------------------------------------------------------------------- upload

  /** One put session `id` among the server's sessions, the source file, the node, and the indices
      forwarded so far. */
  datatype Transfer = Transfer(src: seq<byte>, name: Name, files: Sessions, id: int, node: Node, forwarded: seq<int>)

  /** `Serve`: the server runs any session handler; what this session lets through goes to the node.
      `Elsewhere`: the node serves others, who do not use this node file. */
  datatype Step = Serve(op: Operation) | Elsewhere(node: Node)

  /** A node that has only done things for other files. */
  predicate SameFor(n: Node, n': Node, name: Name) {
    && (name in n.disk <==> name in n'.disk) && (name in n.disk ==> n.disk[name] == n'.disk[name])
    && (name in n.cached <==> name in n'.cached)
  }

  predicate Session(n: Node, id: int, name: Name, src: seq<byte>) {
    id in n.sessions && n.sessions[id] == NodeSession(name, MaxFragment(|src|))
  }

  /** The node's session, as the server has noted it. */
  function NodeId(t: Transfer): int {
    if IsPut(t.files, t.id) then t.files.list[t.id].nodeSession else 0
  }

  predicate OpensNode(t: Transfer, op: Operation) {
    op.Answered? && op.put && op.id == t.id && op.answer.parses && !op.answer.nodeError
  }

  /** No fragment let through is lost, offsets fit in 31 bits, and the node's answer names a session
      for this file. */
  ghost predicate Allowed(t: Transfer, step: Step) {
    match step
    case Serve(op) =>
      && Works(t.files, op)
      && (Let(t.files, op, t.id) != [] ==> Let(t.files, op, t.id)[0].sent && Let(t.files, op, t.id)[0].index <= MAX_INDEX)
      && (OpensNode(t, op) ==> Session(t.node, op.answer.nodeSession, t.name, t.src))
    case Elsewhere(node) =>
      SameFor(t.node, node, t.name)
      && (if NodeId(t) in t.node.sessions then Session(node, NodeId(t), t.name, t.src) else NodeId(t) !in node.sessions)
  }

  function Next(t: Transfer, step: Step): Transfer
    requires step.Serve? ==> Works(t.files, step.op)
  {
    match step
    case Serve(op) =>
      var through, t1 := Let(t.files, op, t.id), t.(files := Do(t.files, op));
      if through == [] || through[0].index < 0 then t1
      else
        var (node, _) := NodePutFile(t.node, NodeId(t), through[0].index, Fragment(t.src, through[0].index));
        t1.(node := node, forwarded := t.forwarded + [through[0].index])
    case Elsewhere(node) => t.(node := node)
  }

  ghost predicate Legal(t: Transfer, run: seq<Step>)
    decreases |run|
  {
    run == [] || (Allowed(t, run[0]) && Legal(Next(t, run[0]), run[1..]))
  }

  ghost function After(t: Transfer, run: seq<Step>): Transfer
    requires Legal(t, run)
    decreases |run|
  {
    if run == [] then t else After(Next(t, run[0]), run[1..])
  }

  /** The session handlers of a run. */
  function Handlers(run: seq<Step>): seq<Operation> {
    if run == [] then [] else (if run[0].Serve? then [run[0].op] else []) + Handlers(run[1..])
  }

  lemma {:induction false} HandlersOfRun(t: Transfer, run: seq<Step>)
    requires Legal(t, run)
    ensures AllWork(t.files, Handlers(run)) && DoAll(t.files, Handlers(run)) == After(t, run).files
    ensures After(t, run).id == t.id && After(t, run).src == t.src && After(t, run).name == t.name
    decreases |run|
  {
    hide Do, Works, NodePutFile, Let;
    if run != [] {
      HandlersOfRun(Next(t, run[0]), run[1..]);
      if run[0].Serve? {
        assert Handlers(run)[1..] == Handlers(run[1..]);
      } else {
        assert [] + Handlers(run[1..]) == Handlers(run[1..]);
      }
    }
  }

  /** What the node's stream holds when the upload begins. */
  function Before(n: Node, name: Name): seq<byte> {
    if name in n.cached then Content(n, name) else []
  }

  function Rest(was: seq<byte>, n: nat): seq<byte> {
    if n < |was| then was[n..] else []
  }

  function UpTo(k: nat): (s: seq<int>)
    ensures |s| == k && forall i | 0 <= i < k :: s[i] == i
  {
    seq(k, i => i)
  }

  /** The server's side: the session, while it is there, counts what has been forwarded. */
  ghost predicate ServerSide(t: Transfer) {
    && Consistent(t.files) && t.id < t.files.nextId && t.forwarded == UpTo(|t.forwarded|)
    && (IsPut(t.files, t.id) ==>
          t.files.list[t.id].nextFragment == |t.forwarded| && t.files.list[t.id].maxFragment == MaxFragment(|t.src|))
  }

  /** The node's side after `k` fragments. */
  ghost predicate NodeSide(t: Transfer, k: nat, was: seq<byte>) {
    && (IsPut(t.files, t.id) && k < MaxFragment(|t.src|) ==> Session(t.node, NodeId(t), t.name, t.src))
    && (IsPut(t.files, t.id) && NodeId(t) in t.node.sessions ==> Session(t.node, NodeId(t), t.name, t.src))
    && (k == 0 || t.src == [] ==> Before(t.node, t.name) == was)
    && (k > 0 && t.src != [] ==>
          t.name in t.node.cached && t.name in t.node.disk
          && t.node.disk[t.name] == t.src[..Covered(t.src, k)] + Rest(was, Covered(t.src, k)))
  }

  /** The next fragment extends what has been written. */
  lemma WriteExtends(src: seq<byte>, was: seq<byte>, k: nat)
    requires k * FRAGMENT_LEN < |src|
    ensures WriteAt(src[..Covered(src, k)] + Rest(was, Covered(src, k)), k * FRAGMENT_LEN, Fragment(src, k))
         == src[..Covered(src, k + 1)] + Rest(was, Covered(src, k + 1))
  {
    var a, b := Covered(src, k), Covered(src, k + 1);
    var content, data := src[..a] + Rest(was, a), Fragment(src, k);
    FragmentsCover(src, k);
    assert a == k * FRAGMENT_LEN && a + |data| == b;
    var padded := content + seq(0, i => 0);
    assert padded == content && content[..a] == src[..a];
    if b < |content| {
      assert content[b..] == Rest(was, b);
    }
  }

  /** The node takes fragment `k`. */
  lemma NodeTakes(t: Transfer, t': Transfer, was: seq<byte>, k: nat)
    requires NodeSide(t, k, was) && IsPut(t.files, t.id) && IsPut(t'.files, t'.id)
    requires t'.src == t.src && t'.name == t.name && NodeId(t') == NodeId(t)
    requires t'.node == NodePutFile(t.node, NodeId(t), k, Fragment(t.src, k)).0
    ensures NodeSide(t', k + 1, was)
  {
    FragmentsCover(t.src, k);
    if k < MaxFragment(|t.src|) {
      var o := OpenStream(t.node, t.name);
      assert Content(o, t.name) == t.src[..Covered(t.src, k)] + Rest(was, Covered(t.src, k)) by {
        if k == 0 {
          assert t.src[..0] == [] && [] + Rest(was, 0) == was;
        }
      }
      WriteExtends(t.src, was, k);
    } else {
      FragmentsCover(t.src, k + 1);
    }
  }

  lemma SessionStep(m: Sessions, op: Operation, id: int)
    requires Consistent(m) && Works(m, op) && id < m.nextId
    ensures var m' := Do(m, op);
            IsPut(m', id) ==>
              && IsPut(m, id) && SameSession(m.list[id], m'.list[id])
              && (m'.list[id].nodeSession == m.list[id].nodeSession
                  || (op.Answered? && op.put && op.id == id && op.answer.parses && !op.answer.nodeError
                      && m'.list[id].nodeSession == op.answer.nodeSession))
              && (Let(m, op, id) != [] ==> m'.list[id].nodeSession == m.list[id].nodeSession)
  {
  }

  lemma StepKeeps(t: Transfer, was: seq<byte>, step: Step)
    requires ServerSide(t) && NodeSide(t, |t.forwarded|, was) && Allowed(t, step)
    ensures ServerSide(Next(t, step)) && NodeSide(Next(t, step), |Next(t, step).forwarded|, was)
  {
    if step.Serve? {
      var t', op, k := Next(t, step), step.op, |t.forwarded|;
      OneThrough(t.files, op, t.id);
      DoKeeps(t.files, op);
      SessionStep(t.files, op, t.id);
      hide Consistent, Do, Works, Let, NodePutFile, Covered, Rest;
      if Let(t.files, op, t.id) != [] {
        assert t'.forwarded == UpTo(k + 1);
        NodeTakes(t, t', was, k);
      }
    }
  }

  lemma {:induction false} RunKeeps(t: Transfer, was: seq<byte>, run: seq<Step>)
    requires ServerSide(t) && NodeSide(t, |t.forwarded|, was) && Legal(t, run)
    ensures var t' := After(t, run); ServerSide(t') && NodeSide(t', |t'.forwarded|, was)
    decreases |run|
  {
    hide ServerSide, NodeSide, Do, Works, Let, NodePutFile;
    if run != [] {
      StepKeeps(t, was, run[0]);
      RunKeeps(Next(t, run[0]), was, run[1..]);
    }
  }

  // ------------------------------------------------------------------ theorems

  /** The session has been registered and the node has opened its own; nothing has been sent. */
  ghost predicate Ready(t: Transfer) {
    && Consistent(t.files) && Current(t.files, t.id) && t.forwarded == []
    && t.files.list[t.id].nextFragment == 0 && t.files.list[t.id].maxFragment == MaxFragment(|t.src|)
    && Session(t.node, NodeId(t), t.name, t.src)
  }

  lemma ReadyHolds(t: Transfer)
    requires Ready(t)
    ensures ServerSide(t) && NodeSide(t, 0, Before(t.node, t.name))
  {
    assert t.forwarded == UpTo(0);
  }

  /** Whatever handlers the server runs, for whichever sessions and in whatever order: this session
      forwards 0, 1, 2, ..., and after `k` of them the node's stream starts with the first `k`
      fragments of the source. Behind them is what an open stream held before. */
  lemma FragmentsInOrder(t0: Transfer, run: seq<Step>)
    requires Ready(t0) && Legal(t0, run)
    ensures var t, was := After(t0, run), Before(t0.node, t0.name);
            var k := |t.forwarded|;
            && t.forwarded == UpTo(k) && (IsPut(t.files, t0.id) ==> t.files.list[t0.id].nextFragment == k)
            && Before(t.node, t0.name) == (if k == 0 then was else t0.src[..Covered(t0.src, k)] + Rest(was, Covered(t0.src, k)))
  {
    ReadyHolds(t0);
    RunKeeps(t0, Before(t0.node, t0.name), run);
    HandlersOfRun(t0, run);
    if t0.src == [] {
      assert t0.src[..0] + Rest(Before(t0.node, t0.name), 0) == Before(t0.node, t0.name);
    }
  }

  /** When all fragments have been forwarded, the node's stream is the source file exactly if the
      stream it was written into was not open on a longer file. */
  lemma WholeFile(t0: Transfer, run: seq<Step>)
    requires Ready(t0) && Legal(t0, run)
    requires t0.src != [] && |After(t0, run).forwarded| >= MaxFragment(|t0.src|)
    ensures Before(After(t0, run).node, t0.name) == t0.src + Rest(Before(t0.node, t0.name), |t0.src|)
    ensures Before(After(t0, run).node, t0.name) == t0.src <==> |Before(t0.node, t0.name)| <= |t0.src|
  {
    var src := t0.src;
    FragmentsInOrder(t0, run);
    FragmentsCover(src, 0);
    AllCovered(src, |After(t0, run).forwarded|);
    assert src[..|src|] == src;
  }

  lemma AllCovered(src: seq<byte>, k: nat)
    requires k >= MaxFragment(|src|)
    ensures Covered(src, k) == |src|
  {
    FragmentsCover(src, k);
  }

  // ----------------------------------------------------- the node's sessions

  /** The sessions for one file name. */
  function Named(n: Node, name: Name): set<int> {
    set id | id in n.sessions && n.sessions[id].filename == name
  }

  /** Asking the node to put this file in so many fragments fails. */
  predicate RefusesPut(n: Node, name: Name, maxFragment: int) {
    exists id :: id in Named(n, name) && n.sessions[id].maxFragment != maxFragment
  }

  /** Nobody else opens or ends a session for this file. */
  predicate Alone(t: Transfer, step: Step) {
    step.Elsewhere? ==> Named(step.node, t.name) == Named(t.node, t.name)
                        && forall id | id in Named(t.node, t.name) :: step.node.sessions[id] == t.node.sessions[id]
  }

  ghost predicate AlwaysAlone(t: Transfer, run: seq<Step>)
    requires Legal(t, run)
    decreases |run|
  {
    run == [] || (Alone(t, run[0]) && AlwaysAlone(Next(t, run[0]), run[1..]))
  }

  /** The upload has not come to its last fragment; an empty file has none. */
  predicate Unfinished(t: Transfer) {
    |t.forwarded| < MaxFragment(|t.src|) || t.src == []
  }

  /** `id` is the only session for the file, and it is gone when the last fragment has been written. */
  ghost predicate OneSession(t: Transfer, id: int) {
    && Named(t.node, t.name) == (if Unfinished(t) then {id} else {})
    && (Unfinished(t) ==> t.node.sessions[id].maxFragment == MaxFragment(|t.src|))
    && (IsPut(t.files, t.id) ==> NodeId(t) == id)
  }

  lemma SizeOfSource(src: seq<byte>)
    ensures MaxFragment(|src|) == 0 <==> src == []
  {
    FragmentsCover(src, 0);
  }

  /** A fragment written, seen from the sessions. */
  lemma PutEnds(n: Node, id: int, index: nat, data: seq<byte>)
    ensures var (n', error) := NodePutFile(n, id, index, data);
            && (error.None? <==> id in n.sessions && index < n.sessions[id].maxFragment)
            && (error.Some? ==> n' == n)
            && n'.sessions == if error.None? && index + 1 == n.sessions[id].maxFragment then n.sessions - {id} else n.sessions
  {
  }

  lemma StepEnds(t: Transfer, id: int, step: Step)
    requires ServerSide(t) && OneSession(t, id) && Allowed(t, step) && Alone(t, step)
    ensures OneSession(Next(t, step), id)
  {
    SizeOfSource(t.src);
    match step
    case Serve(op) =>
      OneThrough(t.files, op, t.id);
      SessionStep(t.files, op, t.id);
      var k, t' := |t.forwarded|, Next(t, step);
      if OpensNode(t, op) {
        assert op.answer.nodeSession in Named(t.node, t.name);
      }
      if Let(t.files, op, t.id) != [] {
        PutEnds(t.node, id, k, Fragment(t.src, k));
        hide NodePutFile, Do, Works, Let;
        assert Named(t'.node, t.name) == if k + 1 == MaxFragment(|t.src|) then {} else Named(t.node, t.name);
      }
    case Elsewhere(_) =>
  }

  lemma {:induction false} RunEnds(t: Transfer, was: seq<byte>, id: int, run: seq<Step>)
    requires ServerSide(t) && NodeSide(t, |t.forwarded|, was) && OneSession(t, id) && Legal(t, run) && AlwaysAlone(t, run)
    ensures OneSession(After(t, run), id)
    decreases |run|
  {
    hide ServerSide, NodeSide, OneSession, Alone, Do, Works, Let, NodePutFile;
    if run != [] {
      StepEnds(t, id, run[0]);
      StepKeeps(t, was, run[0]);
      RunEnds(Next(t, run[0]), was, id, run[1..]);
    }
  }

  /** If nobody else opens or ends sessions for the file: after `k` fragments the node's session is
      registered exactly if there are more to come, or the file is empty. So a complete upload can be
      followed by one with any number of fragments, and that of an empty file never by one with
      another number. */
  lemma SessionEndsWithUpload(t0: Transfer, run: seq<Step>, maxFragment: int)
    requires Ready(t0) && Legal(t0, run) && AlwaysAlone(t0, run) && Named(t0.node, t0.name) == {NodeId(t0)}
    ensures var t := After(t0, run);
            var k := |t.forwarded|;
            && (NodeId(t0) in t.node.sessions && t.node.sessions[NodeId(t0)].filename == t0.name
                <==> k < MaxFragment(|t0.src|) || t0.src == [])
            && (RefusesPut(t.node, t0.name, maxFragment)
                <==> (k < MaxFragment(|t0.src|) || t0.src == []) && maxFragment != MaxFragment(|t0.src|))
  {
    ReadyHolds(t0);
    SizeOfSource(t0.src);
    assert OneSession(t0, NodeId(t0));
    HandlersOfRun(t0, run);
    RunEnds(t0, Before(t0.node, t0.name), NodeId(t0), run);
    var t, id := After(t0, run), NodeId(t0);
    assert id in Named(t.node, t.name) <==> id in t.node.sessions && t.node.sessions[id].filename == t.name;
    if Unfinished(t) {
      assert id in Named(t.node, t.name);
    }
  }

  // ------------------------------------------------------------------- resume

  /** What start_put_file makes the server do: the requests for `count` fragments from `next` on. */
  function Requests(user: int, id: int, call: NodeCall, next: nat, count: nat): seq<Step>
    decreases count
  {
    if count == 0 then []
    else [Serve(Start(PutRequest(Some(user), id, next, Some(call))))] + Requests(user, id, call, next + 1, count - 1)
  }

  lemma OneRequest(t: Transfer, call: NodeCall)
    requires ServerSide(t) && IsPut(t.files, t.id) && |t.forwarded| <= MAX_INDEX
    ensures var step := Serve(Start(PutRequest(Some(t.files.list[t.id].userId), t.id, |t.forwarded|, Some(call))));
            && Allowed(t, step)
            && var t' := Next(t, step);
               && IsPut(t'.files, t'.id) && t'.files.list[t'.id].userId == t.files.list[t.id].userId && t'.id == t.id
               && t'.forwarded == t.forwarded + [|t.forwarded|] && t'.src == t.src
  {
  }

  /** Started at the session's next fragment, every one of them is forwarded. */
  lemma {:induction false} AllAreForwarded(t: Transfer, was: seq<byte>, call: NodeCall, count: nat)
    requires ServerSide(t) && NodeSide(t, |t.forwarded|, was) && IsPut(t.files, t.id) && |t.forwarded| + count <= MAX_INDEX + 1
    ensures var run := Requests(t.files.list[t.id].userId, t.id, call, |t.forwarded|, count);
            && Legal(t, run) && After(t, run).forwarded == UpTo(|t.forwarded| + count)
    decreases count
  {
    if count > 0 {
      var user, k := t.files.list[t.id].userId, |t.forwarded|;
      var run := Requests(user, t.id, call, k, count);
      OneRequest(t, call);
      StepKeeps(t, was, run[0]);
      hide ServerSide, NodeSide, Allowed, Next;
      AllAreForwarded(Next(t, run[0]), was, call, count - 1);
      assert run[1..] == Requests(user, t.id, call, k + 1, count - 1);
    }
  }

  predicate Reopens(t0: Transfer, r: Request)
    requires IsPut(t0.files, t0.id)
  {
    var s := t0.files.list[t0.id];
    && r.PutSessionRequest? && r.login == Some(s.userId) && r.isManager == Some(true)
    && r.groupId == s.groupId && r.path == s.path && r.maxFragment == s.maxFragment
  }

  /** After any run, asking for the upload again finds its session exactly if no session has been
      registered for the path since and it has not been given up; then the next fragment is the number
      forwarded. */
  lemma ResumesIff(t0: Transfer, run: seq<Step>, r: Request)
    requires Ready(t0) && Legal(t0, run) && Reopens(t0, r)
    ensures AllWork(t0.files, Handlers(run))
    ensures var t := After(t0, run);
            var b := OnInit(t.files, r);
            && (b.sessionId == t0.id <==> Undisturbed(t0.files, Handlers(run), t0.id, r.groupId, r.path))
            && (b.sessionId == t0.id ==> b.files == t.files && IsPut(t.files, t0.id) && t.files.list[t0.id].nextFragment == |t.forwarded|)
  {
    HandlersOfRun(t0, run);
    ReopensIff(t0.files, Handlers(run), t0.id, r);
    CurrentRun(t0.files, Handlers(run), t0.id);
    FragmentsInOrder(t0, run);
  }

  /** The client comes back: the session is asked for again, the node answers with a session of its
      own, and the rest is sent. */
  function ComesBack(t: Transfer, user: int, r: Request, answer: NodeAnswer, call: NodeCall): seq<Step> {
    [Serve(Start(r)), Serve(Answered(true, t.id, answer))]
    + Requests(user, t.id, call, |t.forwarded|, if |t.forwarded| < MaxFragment(|t.src|) then MaxFragment(|t.src|) - |t.forwarded| else 0)
  }

  lemma {:induction false} RunsJoin(t: Transfer, a: seq<Step>, b: seq<Step>)
    requires Legal(t, a) && Legal(After(t, a), b)
    ensures Legal(t, a + b) && After(t, a + b) == After(After(t, a), b)
    decreases |a|
  {
    if a == [] {
      assert a + b == b;
    } else {
      assert (a + b)[1..] == a[1..] + b;
      RunsJoin(Next(t, a[0]), a[1..], b);
    }
  }

  /** Asking again changes neither the session nor what has been forwarded. */
  lemma AskedAgain(t: Transfer, r: Request, answer: NodeAnswer)
    requires ServerSide(t) && IsPut(t.files, t.id) && r.PutSessionRequest?
    requires OnInit(t.files, r).sessionId == t.id && OnInit(t.files, r).files == t.files
    requires answer.parses && !answer.nodeError && Session(t.node, answer.nodeSession, t.name, t.src)
    ensures Allowed(t, Serve(Start(r))) && Next(t, Serve(Start(r))) == t
    ensures Allowed(t, Serve(Answered(true, t.id, answer)))
    ensures var t' := Next(t, Serve(Answered(true, t.id, answer)));
            t'.forwarded == t.forwarded && IsPut(t'.files, t'.id) && t'.id == t.id && t'.src == t.src
            && t'.files.list[t.id].userId == t.files.list[t.id].userId
  {
  }

  lemma AskedAndAnswered(t: Transfer, was: seq<byte>, r: Request, answer: NodeAnswer)
    requires ServerSide(t) && NodeSide(t, |t.forwarded|, was) && IsPut(t.files, t.id) && r.PutSessionRequest?
    requires OnInit(t.files, r).sessionId == t.id && OnInit(t.files, r).files == t.files
    requires answer.parses && !answer.nodeError && Session(t.node, answer.nodeSession, t.name, t.src)
    ensures var two := [Serve(Start(r)), Serve(Answered(true, t.id, answer))];
            && Legal(t, two)
            && var t1 := After(t, two);
               && ServerSide(t1) && NodeSide(t1, |t1.forwarded|, was) && IsPut(t1.files, t1.id)
               && t1.forwarded == t.forwarded && t1.id == t.id && t1.src == t.src
               && t1.files.list[t.id].userId == t.files.list[t.id].userId
  {
    var first, second := Serve(Start(r)), Serve(Answered(true, t.id, answer));
    AskedAgain(t, r, answer);
    StepKeeps(t, was, second);
    hide Allowed, ServerSide, NodeSide, Next;
    OneMore(t, second, []);
    OneMore(t, first, [second]);
    assert [first] + ([second] + []) == [first, second];
  }

  /** Coming back for the rest sends all of it. */
  lemma RestIsSent(t: Transfer, was: seq<byte>, r: Request, answer: NodeAnswer, call: NodeCall)
    requires ServerSide(t) && NodeSide(t, |t.forwarded|, was) && IsPut(t.files, t.id) && r.PutSessionRequest?
    requires OnInit(t.files, r).sessionId == t.id && OnInit(t.files, r).files == t.files
    requires answer.parses && !answer.nodeError && Session(t.node, answer.nodeSession, t.name, t.src)
    requires |t.forwarded| <= MaxFragment(|t.src|) <= MAX_INDEX + 1
    ensures var back := ComesBack(t, t.files.list[t.id].userId, r, answer, call);
            Legal(t, back) && After(t, back).forwarded == UpTo(MaxFragment(|t.src|))
  {
    hide ServerSide, NodeSide, OnInit, Legal, After, Session;
    var two, left := [Serve(Start(r)), Serve(Answered(true, t.id, answer))], MaxFragment(|t.src|) - |t.forwarded|;
    AskedAndAnswered(t, was, r, answer);
    AllAreForwarded(After(t, two), was, call, left);
    RunsJoin(t, two, Requests(t.files.list[t.id].userId, t.id, call, |t.forwarded|, left));
  }

  lemma OneMore(t: Transfer, step: Step, rest: seq<Step>)
    requires Allowed(t, step) && Legal(Next(t, step), rest)
    ensures Legal(t, [step] + rest) && After(t, [step] + rest) == After(Next(t, step), rest)
  {
    assert ([step] + rest)[1..] == rest;
  }

  /** If the upload has not been disturbed, coming back for the rest gives exactly what going through
      at once would have given: all fragments once and in order, and the same file. */
  lemma ResumeChangesNothing(t0: Transfer, a: seq<Step>, r: Request, answer: NodeAnswer, call: NodeCall, straight: seq<Step>)
    requires Ready(t0) && Legal(t0, a) && Reopens(t0, r) && t0.src != []
    requires AllWork(t0.files, Handlers(a)) && Undisturbed(t0.files, Handlers(a), t0.id, r.groupId, r.path)
    requires answer.parses && !answer.nodeError && Session(After(t0, a).node, answer.nodeSession, t0.name, t0.src)
    requires |After(t0, a).forwarded| <= MaxFragment(|t0.src|) <= MAX_INDEX + 1
    requires Legal(t0, straight) && |After(t0, straight).forwarded| == MaxFragment(|t0.src|)
    ensures var run := a + ComesBack(After(t0, a), t0.files.list[t0.id].userId, r, answer, call);
            && Legal(t0, run)
            && After(t0, run).forwarded == After(t0, straight).forwarded == UpTo(MaxFragment(|t0.src|))
            && Before(After(t0, run).node, t0.name) == Before(After(t0, straight).node, t0.name)
  {
    var t, user := After(t0, a), t0.files.list[t0.id].userId;
    HandlersOfRun(t0, a);
    ResumesIff(t0, a, r);
    CurrentRun(t0.files, Handlers(a), t0.id);
    ReadyHolds(t0);
    RunKeeps(t0, Before(t0.node, t0.name), a);
    hide Allowed, Next, ServerSide, NodeSide, Ready, Undisturbed, Requests, Current, Consistent, ComesBack, OnInit;
    var back := ComesBack(t, user, r, answer, call);
    RestIsSent(t, Before(t0.node, t0.name), r, answer, call);
    RunsJoin(t0, a, back);
    WholeFile(t0, a + back);
    WholeFile(t0, straight);
    FragmentsInOrder(t0, straight);
  }

  // ------------------------------------------------------------- reading back

  /** Reading back gives the fragments exactly if the node still has the stream open, or there is
      nothing to give; otherwise opening it has emptied the file. */
  lemma ReadingBack(n: Node, id: int, name: Name, src: seq<byte>, index: nat)
    requires Session(n, id, name, src) && index < MaxFragment(|src|)
    requires name in n.disk && n.disk[name] == src
    ensures var (n', error, data) := NodeGetFile(n, id, index);
            && error.None? && (data == Fragment(src, index) <==> name in n.cached)
            && name in n'.disk && n'.disk[name] == if name in n.cached then src else []
  {
    FragmentsCover(src, index);
    assert |Fragment(src, index)| > 0;
  }

  /** What the node answers to requests for `count` fragments from `next` on. */
  function ReadFrom(n: Node, id: int, next: nat, count: nat): (Node, seq<byte>)
    decreases count
  {
    if count == 0 then (n, [])
    else
      var (n1, _, data) := NodeGetFile(n, id, next);
      var (n2, rest) := ReadFrom(n1, id, next + 1, count - 1);
      (n2, data + rest)
  }

  lemma {:induction false} ReadsTheRest(n: Node, id: int, name: Name, src: seq<byte>, next: nat, count: nat)
    requires count > 0 ==> Session(n, id, name, src)
    requires name in n.disk && n.disk[name] == src && name in n.cached && next + count == MaxFragment(|src|)
    ensures ReadFrom(n, id, next, count).1 == src[Covered(src, next)..]
    ensures var n' := ReadFrom(n, id, next, count).0; name in n'.disk && n'.disk[name] == src
    decreases count
  {
    if count == 0 {
      AllCovered(src, next);
    } else {
      FragmentsCover(src, next);
      var n1 := NodeGetFile(n, id, next).0;
      ReadsTheRest(n1, id, name, src, next + 1, count - 1);
      var a, b := Covered(src, next), Covered(src, next + 1);
      assert Fragment(src, next) == src[a..b];
      assert src[a..] == src[a..b] + src[b..];
    }
  }

  /** Upload and download: once all fragments have been forwarded into a stream that held no longer
      file, the node answers the requests for all fragments with the whole source, as long as it has
      the stream open. */
  lemma WhatWasPutIsRead(t0: Transfer, run: seq<Step>, n: Node, reading: int)
    requires Ready(t0) && Legal(t0, run) && t0.src != []
    requires |After(t0, run).forwarded| >= MaxFragment(|t0.src|) && |Before(t0.node, t0.name)| <= |t0.src|
    requires SameFor(After(t0, run).node, n, t0.name) && Session(n, reading, t0.name, t0.src)
    ensures ReadFrom(n, reading, 0, MaxFragment(|t0.src|)).1 == t0.src
  {
    var t, was := After(t0, run), Before(t0.node, t0.name);
    WholeFile(t0, run);
    ReadyHolds(t0);
    RunKeeps(t0, was, run);
    HandlersOfRun(t0, run);
    FragmentsCover(t0.src, 0);
    ReadsTheRest(n, reading, t0.name, t0.src, 0, MaxFragment(|t0.src|));
    assert t0.src[0..] == t0.src;
  }

  /** The session is registered until the last fragment has been read, and no longer; other sessions
      stay as they are. */
  lemma {:induction false} SessionEndsWithReading(n: Node, id: int, name: Name, src: seq<byte>, next: nat, count: nat)
    requires next + count <= MaxFragment(|src|) && name in n.disk && (count > 0 ==> Session(n, id, name, src))
    ensures count > 0 ==> var n' := ReadFrom(n, id, next, count).0;
                          && n'.sessions == (if next + count == MaxFragment(|src|) then n.sessions - {id} else n.sessions)
    decreases count
  {
    if count > 0 {
      var n1 := NodeGetFile(n, id, next).0;
      if count > 1 {
        SessionEndsWithReading(n1, id, name, src, next + 1, count - 1);
      } else {
        assert ReadFrom(n1, id, next + 1, 0) == (n1, []);
      }
    }
  }

  /** When the whole file has been read, it can be put with any number of fragments. */
  lemma PutAfterReading(n: Node, id: int, name: Name, src: seq<byte>, maxFragment: int)
    requires src != [] && name in n.disk && Session(n, id, name, src) && Named(n, name) == {id}
    ensures !RefusesPut(ReadFrom(n, id, 0, MaxFragment(|src|)).0, name, maxFragment)
  {
    SizeOfSource(src);
    SessionEndsWithReading(n, id, name, src, 0, MaxFragment(|src|));
    var n' := ReadFrom(n, id, 0, MaxFragment(|src|)).0;
    assert forall x | x in n'.sessions :: x in n.sessions && x != id && n'.sessions[x] == n.sessions[x];
    assert forall x | x in n.sessions && n.sessions[x].filename == name :: x in Named(n, name);
  }

  /** on_put_file_session where the file has no session. */
  function BeginWriting(n: Node, name: Name, maxFragment: int): Node {
    n.(sessions := n.sessions[n.nextId := NodeSession(name, maxFragment)], nextId := n.nextId + 1)
  }

  /** on_get_file_session where the file has no session: the new one is registered before the file is
      opened for its size, and stays with a count of 0 when there is none. */
  function BeginReading(n: Node, name: Name): Node {
    n.(sessions := n.sessions[n.nextId := NodeSession(name, if name in n.disk then MaxFragment(|n.disk[name]|) else 0)],
       nextId := n.nextId + 1)
  }

  lemma OnlyReading(n: Node, name: Name)
    requires Named(n, name) == {}
    ensures Named(BeginReading(n, name), name) == {n.nextId}
  {
    forall id | id in n.sessions
      ensures n.sessions[id].filename != name
    {
      assert id !in Named(n, name);
    }
  }

  /** A file uploaded while nobody else has a session for it can be asked for and read as a whole, and
      put again with any number of fragments: each session ends with the last fragment it is for. */
  lemma UploadThenDownload(t0: Transfer, run: seq<Step>, maxFragment: int)
    requires Ready(t0) && Legal(t0, run) && AlwaysAlone(t0, run) && Named(t0.node, t0.name) == {NodeId(t0)}
    requires t0.src != [] && |After(t0, run).forwarded| >= MaxFragment(|t0.src|) && |Before(t0.node, t0.name)| <= |t0.src|
    ensures var n := After(t0, run).node;
            var (n', data) := ReadFrom(BeginReading(n, t0.name), n.nextId, 0, MaxFragment(|t0.src|));
            data == t0.src && !RefusesPut(n', t0.name, maxFragment)
  {
    var t, was := After(t0, run), Before(t0.node, t0.name);
    var reading := BeginReading(t.node, t0.name);
    SizeOfSource(t0.src);
    ReadyHolds(t0);
    HandlersOfRun(t0, run);
    RunKeeps(t0, was, run);
    RunEnds(t0, was, NodeId(t0), run);
    WholeFile(t0, run);
    OnlyReading(t.node, t0.name);
    assert Session(reading, t.node.nextId, t0.name, t0.src);
    ReadsTheRest(reading, t.node.nextId, t0.name, t0.src, 0, MaxFragment(|t0.src|));
    assert Covered(t0.src, 0) == 0 && t0.src[0..] == t0.src;
    PutAfterReading(reading, t.node.nextId, t0.name, t0.src, maxFragment);
  }

  /** A reader who asks during an upload gets the uploader's session. Reading its last fragment, written
      or not, ends it: no fragment is taken any more. */
  lemma ReadingEndsAnUpload(n: Node, id: int, name: Name, src: seq<byte>, index: nat, data: seq<byte>)
    requires Session(n, id, name, src) && name in n.disk && src != []
    ensures var n' := NodeGetFile(n, id, MaxFragment(|src|) - 1).0;
            NodePutFile(n', id, index, data) == (n', Some(SessionNotExist))
  {
    SizeOfSource(src);
  }

  /** What the node is asked to do with its sessions. */
  datatype NodeStep = Put(id: int, index: nat, data: seq<byte>) | Get(id: int, index: nat)
                    | Write(name: Name, maxFragment: int) | Read(name: Name)

  function NodeNext(n: Node, step: NodeStep): Node {
    match step
    case Put(id, index, data) => NodePutFile(n, id, index, data).0
    case Get(id, index) => NodeGetFile(n, id, index).0
    case Write(name, maxFragment) => if Named(n, name) == {} then BeginWriting(n, name, maxFragment) else n
    case Read(name) => if Named(n, name) == {} then BeginReading(n, name) else n
  }

  function NodeAfter(n: Node, run: seq<NodeStep>): Node
    decreases |run|
  {
    if run == [] then n else NodeAfter(NodeNext(n, run[0]), run[1..])
  }

  /** A session for no fragments is there for good. */
  lemma {:induction false} NoFragmentsForGood(n: Node, id: int, run: seq<NodeStep>)
    requires id in n.sessions && n.sessions[id].maxFragment == 0 && id < n.nextId
    ensures id in NodeAfter(n, run).sessions && NodeAfter(n, run).sessions[id] == n.sessions[id]
    decreases |run|
  {
    if run != [] {
      NoFragmentsForGood(NodeNext(n, run[0]), id, run[1..]);
    }
  }

  /** Asking to read a file the node does not have, or an empty one, keeps it from being put with any
      fragments, whatever the node is asked to do afterwards; after asking for any other file it can be
      put with as many fragments as it has. */
  lemma AskedForNothing(n: Node, name: Name, run: seq<NodeStep>, maxFragment: int)
    requires Named(n, name) == {}
    ensures var empty := name !in n.disk || n.disk[name] == [];
            && (empty && maxFragment != 0 ==> RefusesPut(NodeAfter(BeginReading(n, name), run), name, maxFragment))
            && (!empty ==> !RefusesPut(BeginReading(n, name), name, MaxFragment(|n.disk[name]|)) && MaxFragment(|n.disk[name]|) > 0)
  {
    OnlyReading(n, name);
    if name in n.disk {
      SizeOfSource(n.disk[name]);
    }
    if name !in n.disk || n.disk[name] == [] {
      NoFragmentsForGood(BeginReading(n, name), n.nextId, run);
      assert n.nextId in Named(NodeAfter(BeginReading(n, name), run), name);
    }
  }
}
