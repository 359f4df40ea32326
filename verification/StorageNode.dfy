/** The storage node: its files, cached streams and sessions, proved against Upload. */
module StorageNode {
  import opened Wire
  import opened Upload

  lemma NoneNamed(n: Node, name: Name)
    requires forall id | id in n.sessions :: n.sessions[id].filename != name
    ensures Named(n, name) == {}
  {
    var named, none: set<int> := Named(n, name), {};
    assert forall id :: id in named <==> id in none;
    assert named == none;
  }

  class StorageNode {
    var disk: map<Name, seq<byte>>
    var fileCache: set<Name>
    var sessionList: map<int, NodeSession>
    var nextId: int

    ghost function Snapshot(): Node
      reads this
    {
      Node(disk, fileCache, sessionList, nextId)
    }

    constructor (disk: map<Name, seq<byte>>)
      ensures Snapshot() == Node(disk, {}, map[], 1)
    {
      this.disk, fileCache, sessionList, nextId := disk, {}, map[], 1;
    }

    /** A stream that is not cached is opened with mode "wb+". */
    method GetFileStream(name: Name)
      modifies this`disk, this`fileCache
      ensures Snapshot() == OpenStream(old(Snapshot()), name)
    {
      if name !in fileCache {
        disk := disk[name := []];
        fileCache := fileCache + {name};
      }
    }

    method PutFile(name: Name, fileContent: seq<byte>, startPos: nat)
      modifies this`disk, this`fileCache
      ensures Snapshot() == NodePut(old(Snapshot()), name, startPos, fileContent)
    {
      GetFileStream(name);
      var content := if name in disk then disk[name] else [];
      disk := disk[name := WriteAt(content, startPos, fileContent)];
    }

    /** At most one session for a file name. */
    ghost predicate Valid()
      reads this
    {
      && (forall id | id in sessionList :: id < nextId)
      && (forall a, b | a in sessionList && b in sessionList && sessionList[a].filename == sessionList[b].filename :: a == b)
    }

    method FindSession(name: Name) returns (found: Option<int>)
      ensures found.Some? ==> found.value in Named(Snapshot(), name)
      ensures found.None? ==> Named(Snapshot(), name) == {} && forall id | id in sessionList :: sessionList[id].filename != name
    {
      if id :| id in sessionList && sessionList[id].filename == name {
        found := Some(id);
      } else {
        found := None;
        NoneNamed(Snapshot(), name);
      }
    }

    /** A file being written keeps its session; asking again with another fragment count fails. */
    method OnPutFileSession(name: Name, maxFragment: int) returns (error: Option<NodeError>, id: int)
      requires Valid()
      modifies this`sessionList, this`nextId
      ensures Valid()
      ensures error.Some? ==> Snapshot() == old(Snapshot())
      ensures error.Some? <==> RefusesPut(old(Snapshot()), name, maxFragment)
      ensures error.None? ==> id in sessionList && sessionList[id] == NodeSession(name, maxFragment)
      ensures Snapshot() == if Named(old(Snapshot()), name) == {} then BeginWriting(old(Snapshot()), name, maxFragment)
                            else old(Snapshot())
    {
      var found := FindSession(name);
      if found.Some? {
        id := found.value;
        if maxFragment != sessionList[id].maxFragment {
          return Some(CannotChangeMaxFragment), id;
        }
        return None, id;
      }
      id := nextId;
      nextId := nextId + 1;
      sessionList := sessionList[id := NodeSession(name, maxFragment)];
      return None, id;
    }

    method OnPutFile(id: int, index: nat, fileContent: seq<byte>) returns (error: Option<NodeError>)
      modifies this`disk, this`fileCache, this`sessionList
      ensures (Snapshot(), error) == NodePutFile(old(Snapshot()), id, index, fileContent)
    {
      if id !in sessionList {
        return Some(SessionNotExist);
      }
      var session := sessionList[id];
      if index >= session.maxFragment {
        return Some(InvalidFragment);
      }
      PutFile(session.filename, fileContent, index * FRAGMENT_LEN);
      if index + 1 == session.maxFragment {
        sessionList := sessionList - {id};
      }
      return None;
    }

    /** A file that has a session, be it for writing, keeps it. Without a file the new session stays
        although opening it fails. */
    method OnGetFileSession(name: Name) returns (error: Option<NodeError>, id: int)
      requires Valid()
      modifies this`sessionList, this`nextId
      ensures Valid()
      ensures Named(old(Snapshot()), name) != {} ==>
                error.None? && id in Named(old(Snapshot()), name) && Snapshot() == old(Snapshot())
      ensures Named(old(Snapshot()), name) == {} ==>
                id == old(nextId) && Snapshot() == BeginReading(old(Snapshot()), name)
                && error == if name in disk then None else Some(CannotOpen)
    {
      var found := FindSession(name);
      if found.Some? {
        return None, found.value;
      }
      id := nextId;
      nextId := nextId + 1;
      sessionList := sessionList[id := NodeSession(name, 0)];
      if name !in disk {
        return Some(CannotOpen), id;
      }
      sessionList := sessionList[id := sessionList[id].(maxFragment := MaxFragment(|disk[name]|))];
      return None, id;
    }

    method OnGetFile(id: int, index: nat) returns (error: Option<NodeError>, fileContent: seq<byte>)
      modifies this`disk, this`fileCache, this`sessionList
      ensures (Snapshot(), error, fileContent) == NodeGetFile(old(Snapshot()), id, index)
    {
      fileContent := [];
      if id !in sessionList {
        return Some(SessionNotExist), fileContent;
      }
      var session := sessionList[id];
      if index >= session.maxFragment {
        return Some(InvalidFragment), fileContent;
      }
      if session.filename !in disk {
        return Some(FileNotExist), fileContent;
      }
      GetFileStream(session.filename);
      fileContent := ReadAt(disk[session.filename], index * FRAGMENT_LEN);
      if index + 1 == session.maxFragment {
        sessionList := sessionList - {id};
      }
      return None, fileContent;
    }
  }

  /** The client's loop: one request for each fragment from `nextFragment` on. */
  method StartPutFile(src: seq<byte>, nextFragment: nat, maxFragment: nat) returns (requests: seq<(nat, seq<byte>)>)
    ensures |requests| == if nextFragment < maxFragment then maxFragment - nextFragment else 0
    ensures forall i | 0 <= i < |requests| :: requests[i] == (nextFragment + i, Fragment(src, nextFragment + i))
  {
    requests := [];
    var fragmentIndex := nextFragment;
    while fragmentIndex < maxFragment
      invariant nextFragment <= fragmentIndex <= if nextFragment < maxFragment then maxFragment else nextFragment
      invariant |requests| == fragmentIndex - nextFragment
      invariant forall i | 0 <= i < |requests| :: requests[i] == (nextFragment + i, Fragment(src, nextFragment + i))
    {
      requests := requests + [(fragmentIndex, ReadAt(src, fragmentIndex * FRAGMENT_LEN))];
      fragmentIndex := fragmentIndex + 1;
    }
  }
}
