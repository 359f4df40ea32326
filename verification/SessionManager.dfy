/** The session table of the resource server and the handlers of the file transactions that use it,
    proved against FileSessions. */
module SessionManager {
  import opened Wire
  import opened WorkerState
  import opened FileSessions

  class FileSessionManager {
    var sessionList: map<int, FileSession>
    var groupSessionList: map<(int, FilePath), int>
    var nextId: int

    ghost function Snapshot(): Sessions
      reads this
    {
      Sessions(sessionList, groupSessionList, nextId)
    }

    constructor ()
      ensures Snapshot() == NO_SESSIONS
    {
      sessionList, groupSessionList, nextId := map[], map[], 1;
    }

    method RegisterSession(s: FileSession) returns (id: int)
      modifies this
      ensures id == old(nextId) && Snapshot() == Registered(old(Snapshot()), s)
    {
      id := nextId;
      nextId := nextId + 1;
      sessionList := sessionList[id := s];
      groupSessionList := groupSessionList[(s.groupId, s.path) := id];
    }

    method RemoveSession(id: int)
      modifies this`sessionList
      ensures Snapshot() == Removed(old(Snapshot()), id)
    {
      sessionList := sessionList - {id};
    }

    /** The session registered last for the path; an entry that leads nowhere is removed on the way. */
    method FindSession(groupId: int, path: FilePath) returns (found: Option<int>)
      modifies this`groupSessionList
      ensures Snapshot() == Looked(old(Snapshot()), groupId, path)
      ensures found.Some? <==> (groupId, path) in old(groupSessionList) && old(groupSessionList)[(groupId, path)] in sessionList
      ensures found.Some? ==> found.value == old(groupSessionList)[(groupId, path)]
    {
      if (groupId, path) !in groupSessionList {
        return None;
      }
      var id := groupSessionList[(groupId, path)];
      if id !in sessionList {
        groupSessionList := groupSessionList - {(groupId, path)};
        return None;
      }
      return Some(id);
    }

    /** The user's session for writing (`put`) or reading, if the path leads to one. */
    method FindUserSession(put: bool, userId: int, groupId: int, path: FilePath) returns (found: Option<int>)
      modifies this`groupSessionList
      ensures Snapshot() == Looked(old(Snapshot()), groupId, path)
      ensures found == Resumable(old(Snapshot()), put, userId, groupId, path)
    {
      found := FindSession(groupId, path);
      if found.None? || sessionList[found.value].PutSession? != put || sessionList[found.value].userId != userId {
        found := None;
      }
    }

    // ---------------------------------------------------------------- handlers

    method PutFileSessionOnInit(r: Request) returns (script: Script, sessionId: int)
      requires r.PutSessionRequest?
      modifies this
      ensures Begun(Snapshot(), script, sessionId) == OnInit(old(Snapshot()), r)
    {
      if r.login.None? || r.isManager != Some(true) {
        return Throw(), 0;
      }
      var found := FindUserSession(true, r.login.value, r.groupId, r.path);
      if found.Some? {
        if r.maxFragment != sessionList[found.value].maxFragment {
          return Throw(), 0;
        }
        sessionId := found.value;
      } else {
        if !r.put {
          return Throw(), 0;
        }
        sessionId := RegisterSession(PutSession(r.login.value, r.groupId, r.path, r.maxFragment, 0, 0));
      }
      script := Ask(r.node);
    }

    method PutFileOnInit(r: Request) returns (script: Script, sessionId: int)
      requires r.PutRequest?
      modifies this`sessionList
      ensures Begun(Snapshot(), script, sessionId) == OnInit(old(Snapshot()), r)
    {
      if r.login.None? || r.sessionId !in sessionList || !sessionList[r.sessionId].PutSession? {
        return Throw(), 0;
      }
      var session := sessionList[r.sessionId];
      if session.userId != r.login.value || r.index != session.nextFragment {
        return Throw(), 0;
      }
      sessionList := sessionList[r.sessionId := session.(nextFragment := session.nextFragment + 1)];
      return Ask(r.node), r.sessionId;
    }

    method GetFileSessionOnInit(r: Request) returns (script: Script, sessionId: int)
      requires r.GetSessionRequest?
      modifies this
      ensures Begun(Snapshot(), script, sessionId) == OnInit(old(Snapshot()), r)
    {
      if r.login.None? || r.isMember != Some(true) || !r.isGeneralFile {
        return Throw(), 0;
      }
      var found := FindUserSession(false, r.login.value, r.groupId, r.path);
      if found.Some? {
        sessionId := found.value;
      } else {
        sessionId := RegisterSession(GetSession(r.login.value, r.groupId, r.path, 0));
      }
      script := Ask(r.node);
    }

    method GetFileOnInit(r: Request) returns (script: Script, sessionId: int)
      requires r.GetRequest?
      ensures Begun(Snapshot(), script, sessionId) == OnInit(Snapshot(), r)
    {
      if r.login.None? || r.sessionId !in sessionList || !sessionList[r.sessionId].GetSession?
         || sessionList[r.sessionId].userId != r.login.value || !r.isGeneralFile {
        return Throw(), 0;
      }
      return Ask(r.node), r.sessionId;
    }

    /** on_active of the session transactions; `None` is a null pointer dereferenced. */
    method SessionOnActive(put: bool, id: int, a: NodeAnswer) returns (script: Option<Script>)
      modifies this`sessionList
      ensures script.None? <==> SessionAnswered(old(Snapshot()), put, id, a).None?
      ensures script.Some? ==> SessionAnswered(old(Snapshot()), put, id, a) == Some(Turn(Snapshot(), script.value))
    {
      if !a.parses {
        return Some(Throw());
      }
      if a.nodeError {
        RemoveSession(id);
        return Some(Answer(a.command, a.size));
      }
      if id !in sessionList || sessionList[id].PutSession? != put {
        return None;
      }
      sessionList := sessionList[id := WithNode(sessionList[id], a.nodeSession)];
      return Some(Answer(a.command, a.size));
    }

    /** on_error of the session transactions. */
    method SessionOnError(id: int, command: int, size: int) returns (script: Script)
      modifies this`sessionList
      ensures Snapshot() == Removed(old(Snapshot()), id) && script == Answer(command, size)
    {
      RemoveSession(id);
      script := Answer(command, size);
    }
  }
}
