/** Removing a path and putting a new file. */
module ForestChanges {
  import opened Wire
  import opened Forest

  // ------------------------------------------------------------------- removal

  /** Where remove_path ends up: the last directory and what the path leads to, or its error. */
  datatype Place = At(parent: int, id: int) | Failed(result: Result)

  function Locate(m: Files, previous: int, parent: int, path: Path): Place
    decreases |path|
  {
    if path == [] then At(previous, parent)
    else if parent !in m then Failed(FileNotExist)
    else if !m[parent].Directory? then Failed(NotDirectory)
    else
      var id := Find(m, m[parent].list, path[0]);
      if id == INVALID_ID then Failed(FileNotExist) else Locate(m, parent, id, path[1..])
  }

  function Filter(list: seq<int>, id: int): (r: seq<int>)
    ensures id !in r
    ensures forall x | x in r :: x in list
    ensures forall x | x in list && x != id :: x in r
  {
    if list == [] then [] else (if list[0] == id then [] else [list[0]]) + Filter(list[1..], id)
  }

  /** A general file takes its storage file with it; what a directory lists stays in the table. */
  function RemoveFile(m: Files, id: int): Files {
    if id in m && m[id].General? then m - {id, m[id].storageId} else m - {id}
  }

  function RemoveAt(m: Files, parent: int, id: int): Files
    requires parent in m && m[parent].Directory?
  {
    RemoveFile(m, id)[parent := Directory(m[parent].name, Filter(m[parent].list, id))]
  }

  /** remove_path. */
  function Remove(m: Files, root: int, path: Path): (Files, Result) {
    match Locate(m, root, root, path)
    case Failed(result) => (m, result)
    case At(parent, id) =>
      if id == root then (m, CannotRemoveRoot)
      else if parent in m && m[parent].Directory? then (RemoveAt(m, parent, id), Done(id))
      else (m, FileNotExist)
  }

  /** The search ends where the path leads, in the directory its front leads to. */
  lemma {:induction false} LocateResolves(m: Files, nextId: int, roots: set<int>, previous: int, parent: int, path: Path)
    requires m in Sound(nextId, roots) && parent in m
    ensures var place := Locate(m, previous, parent, path);
            && (place.At? <==> Resolve(m, parent, path).Some?)
            && (place.Failed? ==> place.result == FileNotExist || place.result == NotDirectory)
            && (place.At? ==> Resolve(m, parent, path) == Some(place.id)
                              && (path == [] ==> place == At(previous, parent))
                              && (path != [] ==> Lists(m, place.parent, place.id)))
    decreases |path|
  {
    if path != [] && m[parent].Directory? {
      var id := Find(m, m[parent].list, path[0]);
      if id != INVALID_ID {
        LocateResolves(m, nextId, roots, parent, id, path[1..]);
      }
    }
  }

  /** remove_path succeeds exactly on paths that lead somewhere other than the root, and a failure
      changes nothing. */
  lemma RemoveOutcome(m: Files, nextId: int, roots: set<int>, root: int, path: Path)
    requires m in Sound(nextId, roots) && root in roots
    ensures var (m', result) := Remove(m, root, path);
            && (path == [] <==> result == CannotRemoveRoot)
            && (path != [] && Resolve(m, root, path).Some? <==> result.Done?)
            && (result.Done? ==> Resolve(m, root, path) == Some(result.id))
            && (!result.Done? ==> m' == m)
  {
    LocateResolves(m, nextId, roots, root, root, path);
    if path != [] && Resolve(m, root, path).Some? {
      ResolvedIsListed(m, root, path);
      RootIsUnlisted(m, nextId, roots, root, Resolve(m, root, path[..|path| - 1]).value);
    }
  }

  lemma {:induction false} FindFiltered(m: Files, m': Files, list: seq<int>, id: int, name: Name)
    requires forall i | 0 <= i < |list| && list[i] != id :: list[i] in m && list[i] in m' && m'[list[i]].name == m[list[i]].name
    requires id != INVALID_ID && id in m && id !in m'
    requires forall a, b | 0 <= a < b < |list| && list[a] in m && list[b] in m :: m[list[a]].name != m[list[b]].name
    ensures Find(m', Filter(list, id), name) == (var found := Find(m, list, name); if found == id then INVALID_ID else found)
  {
    if list != [] {
      FindFiltered(m, m', list[1..], id, name);
      if list[0] == id {
        assert Filter(list, id) == Filter(list[1..], id);
        if m[id].name == name {
          NoOtherOfThatName(m, list, name);
        } else if Find(m, list[1..], name) == id {
          assert false;
        }
      } else {
        assert Filter(list, id)[0] == list[0] && Filter(list, id)[1..] == Filter(list[1..], id);
      }
    }
  }

  lemma {:induction false} NotFound(m: Files, list: seq<int>, name: Name)
    requires forall i | 0 <= i < |list| && list[i] in m :: m[list[i]].name != name
    ensures Find(m, list, name) == INVALID_ID
  {
    if list != [] {
      NotFound(m, list[1..], name);
    }
  }

  lemma NoOtherOfThatName(m: Files, list: seq<int>, name: Name)
    requires list != [] && list[0] in m && m[list[0]].name == name
    requires forall a, b | 0 <= a < b < |list| && list[a] in m && list[b] in m :: m[list[a]].name != m[list[b]].name
    ensures Find(m, list[1..], name) == INVALID_ID
  {
    assert forall i | 0 <= i < |list[1..]| :: list[1..][i] == list[i + 1];
    NotFound(m, list[1..], name);
  }

  /** What a directory leads to by a name after a removal. */
  lemma FindAfterRemove(m: Files, nextId: int, roots: set<int>, parent: int, id: int, d: int, name: Name)
    requires m in Sound(nextId, roots) && Lists(m, parent, id) && d in m && m[d].Directory? && d != id
    ensures var m' := RemoveAt(m, parent, id);
            && d in m' && m'[d].Directory?
            && Find(m', m'[d].list, name) == (var found := Find(m, m[d].list, name); if found == id then INVALID_ID else found)
  {
    var m' := RemoveAt(m, parent, id);
    assert DirectoryOk(m, d) && DirectoryOk(m, parent);
    assert m[id].General? ==> GeneralOk(m, id);
    assert forall i | 0 <= i < |m[d].list| && m[d].list[i] != id :: m[d].list[i] in m';
    if d == parent {
      FindFiltered(m, m', m[d].list, id, name);
    } else {
      assert id !in m[d].list by {
        if id in m[d].list {
          ParentsAgree(m, nextId, roots, d, parent, id);
        }
      }
      FindInLarger(m, m', m[d].list, name);
    }
  }

  ghost predicate PassesThrough(m: Files, from: int, path: Path, id: int) {
    exists k | 0 <= k <= |path| :: Resolve(m, from, path[..k]) == Some(id)
  }

  /** A path that comes by the removed file leads nowhere, any other leads where it did. */
  lemma {:induction false} ResolveAfterRemove(m: Files, nextId: int, roots: set<int>, parent: int, id: int, from: int, path: Path)
    requires m in Sound(nextId, roots) && Lists(m, parent, id) && from in RemoveAt(m, parent, id) && from != id && from in m
    requires !m[from].Storage?
    ensures Resolve(RemoveAt(m, parent, id), from, path)
         == if PassesThrough(m, from, path, id) then None else Resolve(m, from, path)
    decreases |path|
  {
    if path == [] {
      assert forall k | 0 <= k <= |path| :: path[..k] == [];
    } else if !m[from].Directory? {
      assert forall k | 0 < k <= |path| :: Resolve(m, from, path[..k]).None?;
      assert Resolve(m, from, path[..0]) == Some(from);
    } else {
      var child, rest := Find(m, m[from].list, path[0]), path[1..];
      FindAfterRemove(m, nextId, roots, parent, id, from, path[0]);
      ThroughChild(m, from, path, id);
      if child != INVALID_ID && child != id {
        assert DirectoryOk(m, from);
        ChildStays(m, nextId, roots, parent, id, from, child);
        ResolveAfterRemove(m, nextId, roots, parent, id, child, rest);
      }
    }
  }

  lemma ChildStays(m: Files, nextId: int, roots: set<int>, parent: int, id: int, from: int, child: int)
    requires m in Sound(nextId, roots) && Lists(m, parent, id) && Lists(m, from, child) && child != id
    ensures child in RemoveAt(m, parent, id) && child in m && !m[child].Storage?
  {
    assert DirectoryOk(m, from) && DirectoryOk(m, parent);
    assert m[id].General? ==> GeneralOk(m, id);
  }

  /** A path comes by `id` at once, or after its first name. */
  lemma ThroughChild(m: Files, from: int, path: Path, id: int)
    requires path != [] && from in m && m[from].Directory? && from != id
    ensures var child := Find(m, m[from].list, path[0]);
            PassesThrough(m, from, path, id) <==>
            child != INVALID_ID && PassesThrough(m, child, path[1..], id)
    ensures var child := Find(m, m[from].list, path[0]);
            child != INVALID_ID && child == id ==> PassesThrough(m, from, path, id)
  {
    var child, rest := Find(m, m[from].list, path[0]), path[1..];
    assert Resolve(m, from, path[..0]) == Some(from);
    assert forall k | 0 < k <= |path| :: path[..k][0] == path[0] && path[..k][1..] == rest[..k - 1];
    if child != INVALID_ID {
      assert forall k | 0 < k <= |path| :: Resolve(m, from, path[..k]) == Resolve(m, child, rest[..k - 1]);
      if k :| 0 <= k <= |rest| && Resolve(m, child, rest[..k]) == Some(id) {
        assert Resolve(m, from, path[..k + 1]) == Some(id);
      }
      assert rest[..0] == [];
      assert Resolve(m, child, rest[..0]) == Some(child);
    } else {
      assert forall k | 0 < k <= |path| :: Resolve(m, from, path[..k]).None?;
    }
  }

  /** remove_path kills the path and everything it is a front of, and nothing else. */
  lemma RemoveKills(m: Files, nextId: int, roots: set<int>, root: int, path: Path, r: int, p: Path)
    requires m in Sound(nextId, roots) && root in roots && r in roots && Remove(m, root, path).1.Done?
    ensures Resolve(Remove(m, root, path).0, r, p) == if r == root && path <= p then None else Resolve(m, r, p)
  {
    LocateResolves(m, nextId, roots, root, root, path);
    RemoveOutcome(m, nextId, roots, root, path);
    var place := Locate(m, root, root, path);
    var parent, id := place.parent, place.id;
    RootStays(m, nextId, roots, parent, id, r);
    ResolveAfterRemove(m, nextId, roots, parent, id, r, p);
    if r == root && path <= p {
      assert p[..|path|] == path;
      assert PassesThrough(m, r, p, id);
    }
    if k :| 0 <= k <= |p| && Resolve(m, r, p[..k]) == Some(id) {
      PathsAreUnique(m, nextId, roots, root, path, r, p[..k]);
    }
  }

  lemma RootStays(m: Files, nextId: int, roots: set<int>, parent: int, id: int, r: int)
    requires m in Sound(nextId, roots) && Lists(m, parent, id) && r in roots
    ensures r in RemoveAt(m, parent, id) && r in m && m[r].Directory? && r != id
  {
    assert DirectoryOk(m, parent);
    RootIsUnlisted(m, nextId, roots, r, parent);
    assert m[id].General? ==> GeneralOk(m, id);
  }

  /** The table stays sound. */
  lemma RemoveKeepsSound(m: Files, nextId: int, roots: set<int>, parent: int, id: int)
    requires m in Sound(nextId, roots) && Lists(m, parent, id)
    ensures RemoveAt(m, parent, id) in Sound(nextId, roots)
  {
    var m' := RemoveAt(m, parent, id);
    assert DirectoryOk(m, parent);
    assert m[id].General? ==> GeneralOk(m, id);
    forall r | r in roots
      ensures r in m' && m'[r].Directory?
    {
      RootStays(m, nextId, roots, parent, id, r);
    }
    assert forall d, x | d in m' && Lists(m', d, x) :: Lists(m, d, x);
    forall d | d in m' && m'[d].Directory?
      ensures DirectoryOk(m', d)
    {
      assert DirectoryOk(m, d);
      DirectoryStaysOk(m, nextId, roots, parent, id, d);
    }
    forall g | g in m' && m'[g].General?
      ensures GeneralOk(m', g)
    {
      assert GeneralOk(m, g);
    }
    assert OneParent(m');
  }

  predicate Differ(m: Files, list: seq<int>) {
    forall i, j | 0 <= i < j < |list| && list[i] in m && list[j] in m :: m[list[i]].name != m[list[j]].name
  }

  lemma {:induction false} FilterDiffers(m: Files, list: seq<int>, id: int)
    requires Differ(m, list)
    ensures Differ(m, Filter(list, id))
  {
    if list != [] {
      assert forall i | 0 <= i < |list[1..]| :: list[1..][i] == list[i + 1];
      FilterDiffers(m, list[1..], id);
      var rest := Filter(list[1..], id);
      if list[0] != id && list[0] in m {
        forall j | 0 <= j < |rest| && rest[j] in m
          ensures m[rest[j]].name != m[list[0]].name
        {
          assert rest[j] in list[1..];
          var i :| 0 <= i < |list[1..]| && list[1..][i] == rest[j];
          assert list[i + 1] == rest[j];
        }
        assert Filter(list, id) == [list[0]] + rest;
      }
    }
  }

  lemma DifferCarries(m: Files, m': Files, list: seq<int>)
    requires Differ(m, list)
    requires forall i | 0 <= i < |list| :: list[i] in m && list[i] in m' && m'[list[i]].name == m[list[i]].name
    ensures Differ(m', list)
  {
  }

  lemma DirectoryStaysOk(m: Files, nextId: int, roots: set<int>, parent: int, id: int, d: int)
    requires m in Sound(nextId, roots) && Lists(m, parent, id) && d in RemoveAt(m, parent, id) && RemoveAt(m, parent, id)[d].Directory?
    ensures DirectoryOk(RemoveAt(m, parent, id), d)
  {
    var m' := RemoveAt(m, parent, id);
    assert DirectoryOk(m, d);
    ListStays(m, nextId, roots, parent, id, d);
    assert Differ(m, m[d].list);
    if d == parent {
      FilterDiffers(m, m[d].list, id);
    }
    DifferCarries(m, m', m'[d].list);
  }

  lemma ListStays(m: Files, nextId: int, roots: set<int>, parent: int, id: int, d: int)
    requires m in Sound(nextId, roots) && Lists(m, parent, id) && d in RemoveAt(m, parent, id) && RemoveAt(m, parent, id)[d].Directory?
    ensures var m' := RemoveAt(m, parent, id);
            forall i | 0 <= i < |m'[d].list| ::
              var x := m'[d].list[i];
              x in m && x in m' && d < x && !m'[x].Storage? && m'[x].name == m[x].name
  {
    var m' := RemoveAt(m, parent, id);
    forall i | 0 <= i < |m'[d].list|
      ensures var x := m'[d].list[i];
              x in m && x in m' && d < x && !m'[x].Storage? && m'[x].name == m[x].name
    {
      var x := m'[d].list[i];
      assert Lists(m, d, x);
      if d != parent && x == id {
        ParentsAgree(m, nextId, roots, d, parent, id);
      }
      ChildStays(m, nextId, roots, parent, id, d, x);
      assert DirectoryOk(m, d);
    }
  }

  /** remove_path keeps the table sound. */
  lemma RemovePathKeepsSound(m: Files, nextId: int, roots: set<int>, root: int, path: Path)
    requires m in Sound(nextId, roots) && root in roots
    ensures Remove(m, root, path).0 in Sound(nextId, roots)
  {
    LocateResolves(m, nextId, roots, root, root, path);
    RemoveOutcome(m, nextId, roots, root, path);
    if Remove(m, root, path).1.Done? {
      var place := Locate(m, root, root, path);
      RemoveKeepsSound(m, nextId, roots, place.parent, place.id);
    }
  }

  // --------------------------------------------------------------- a new file

  datatype PutResult = Put(id: int) | PathNotExist | PathAlreadyExist | GroupNotDirectory

  /** A storage file on the node and a general file for it, both in the table. */
  function RegisterPair(m: Files, nextId: int, name: Name, node: int): Files {
    m[nextId := Storage(name, node, 1)][nextId + 1 := General(name, nextId)]
  }

  /** What a new put session does to the table: the checks, the two registrations, add_file. */
  function PutNew(m: Files, nextId: int, root: int, dir: Path, name: Name, node: int): (Files, int, PutResult) {
    if Resolve(m, root, dir).None? then (m, nextId, PathNotExist)
    else if Resolve(m, root, dir + [name]).Some? then (m, nextId, PathAlreadyExist)
    else
      var m2, d := RegisterPair(m, nextId, name, node), Resolve(m, root, dir).value;
      if d !in m2 || !m2[d].Directory? then (m2, nextId + 2, GroupNotDirectory)
      else (m2[d := Directory(m2[d].name, m2[d].list + [nextId + 1])], nextId + 2, Put(nextId + 1))
  }

  lemma GeneralKeepsSound(m: Files, nextId: int, roots: set<int>, name: Name, storage: int)
    requires m in Sound(nextId, roots) && storage in m && m[storage].Storage? && m[storage].useCounting == 1
    requires forall g | g in m && m[g].General? :: m[g].storageId != storage
    ensures m[nextId := General(name, storage)] in Sound(nextId + 1, roots)
  {
    var m' := m[nextId := General(name, storage)];
    forall d | d in m' && m'[d].Directory?
      ensures DirectoryOk(m', d)
    {
      assert DirectoryOk(m, d);
    }
    forall g | g in m' && m'[g].General?
      ensures GeneralOk(m', g)
    {
      assert g != nextId ==> GeneralOk(m, g);
    }
    assert OwnStorage(m');
    assert forall d, x | d in m' && Lists(m', d, x) :: Lists(m, d, x);
  }

  lemma PairKeepsSound(m: Files, nextId: int, roots: set<int>, name: Name, node: int)
    requires m in Sound(nextId, roots)
    ensures RegisterPair(m, nextId, name, node) in Sound(nextId + 2, roots)
  {
    var m1 := m[nextId := Storage(name, node, 1)];
    StorageKeepsSound(m, nextId, roots, name, node);
    forall g | g in m1 && m1[g].General?
      ensures m1[g].storageId != nextId
    {
      assert GeneralOk(m, g);
    }
    hide Sound;
    GeneralKeepsSound(m1, nextId + 1, roots, name, nextId);
  }

  /** Registering does not change where paths lead. */
  lemma PairKeepsPaths(m: Files, nextId: int, roots: set<int>, name: Name, node: int, r: int, p: Path)
    requires m in Sound(nextId, roots) && r in roots
    ensures Resolve(RegisterPair(m, nextId, name, node), r, p) == Resolve(m, r, p)
  {
    RootExists(m, nextId, roots, r);
    hide Resolve, Sound;
    StorageKeepsSound(m, nextId, roots, name, node);
    UnlistedDoesNotMatter(m, nextId, roots, nextId, Storage(name, node, 1), r, p);
    UnlistedDoesNotMatter(m[nextId := Storage(name, node, 1)], nextId + 1, roots, nextId + 1, General(name, nextId), r, p);
  }

  lemma MayPut(m: Files, nextId: int, roots: set<int>, root: int, dir: Path, d: int, name: Name, node: int)
    requires m in Sound(nextId, roots) && root in roots && Resolve(m, root, dir) == Some(d)
    requires d in m && m[d].Directory? && Resolve(m, root, dir + [name]).None?
    ensures var m1 := m[nextId := Storage(name, node, 1)];
            && m1 in Sound(nextId + 1, roots) && MayAdd(m1, d, nextId + 1, General(name, nextId))
            && AddChild(m1, d, nextId + 1, General(name, nextId)) in Sound(nextId + 2, roots)
            && RegisterPair(m, nextId, name, node)[d := Directory(m[d].name, m[d].list + [nextId + 1])]
               == AddChild(m1, d, nextId + 1, General(name, nextId))
  {
    var m1 := m[nextId := Storage(name, node, 1)];
    StorageKeepsSound(m, nextId, roots, name, node);
    ResolveStep(m, root, dir, name);
    assert DirectoryOk(m, d);
    FindInLarger(m, m1, m[d].list, name);
    forall x | x in m1
      ensures !Lists(m1, x, nextId + 1)
    {
      if m1[x].Directory? {
        assert DirectoryOk(m1, x);
      }
    }
    forall g | g in m1 && m1[g].General?
      ensures m1[g].storageId != nextId
    {
      assert GeneralOk(m, g);
    }
    AddKeepsSound(m1, nextId + 1, roots, d, nextId + 1, General(name, nextId));
  }

  lemma PutCases(m: Files, nextId: int, roots: set<int>, root: int, dir: Path, name: Name, node: int)
    requires m in Sound(nextId, roots) && root in roots
    ensures var out, d := PutNew(m, nextId, root, dir, name, node), Resolve(m, root, dir);
            && (d.None? ==> out == (m, nextId, PathNotExist))
            && (d.Some? && Resolve(m, root, dir + [name]).Some? ==> out == (m, nextId, PathAlreadyExist))
            && (d.Some? ==> d.value in m)
            && (d.Some? && Resolve(m, root, dir + [name]).None? ==>
                  if m[d.value].Directory? then out.1 == nextId + 2 && out.2 == Put(nextId + 1)
                  else out == (RegisterPair(m, nextId, name, node), nextId + 2, GroupNotDirectory))
  {
    RootExists(m, nextId, roots, root);
    hide Resolve, Sound;
    if Resolve(m, root, dir).Some? {
      ResolvedExists(m, root, dir);
    }
  }

  /** A put session for a new file: it succeeds exactly where a directory has no such name; then the
      new path leads to the new general file, and all other paths are as before. */
  lemma PutNewFile(m: Files, nextId: int, roots: set<int>, root: int, dir: Path, name: Name, node: int, r: int, p: Path)
    requires m in Sound(nextId, roots) && root in roots && r in roots
    ensures var (m', nextId', result) := PutNew(m, nextId, root, dir, name, node);
            var d := Resolve(m, root, dir);
            && m' in Sound(nextId', roots)
            && (result.Put? <==> d.Some? && d.value in m && m[d.value].Directory? && Resolve(m, root, dir + [name]).None?)
            && (result.Put? ==> result.id in m' && m'[result.id].General?
                                && Resolve(m', r, p) == if r == root && p == dir + [name] then Some(result.id) else Resolve(m, r, p))
            && (!result.Put? ==> Resolve(m', r, p) == Resolve(m, r, p))
  {
    PutCases(m, nextId, roots, root, dir, name, node);
    PairKeepsSound(m, nextId, roots, name, node);
    PairKeepsPaths(m, nextId, roots, name, node, r, p);
    hide PutNew, RegisterPair, Resolve, Sound;
    var d := Resolve(m, root, dir);
    if d.Some? && Resolve(m, root, dir + [name]).None? && m[d.value].Directory? {
      PutAdds(m, nextId, roots, root, dir, d.value, name, node, r, p);
    }
  }

  lemma ResolvedExists(m: Files, root: int, path: Path)
    requires root in m && Resolve(m, root, path).Some?
    ensures Resolve(m, root, path).value in m
  {
    if path != [] {
      ResolvedIsListed(m, root, path);
    }
  }

  lemma PutAdds(m: Files, nextId: int, roots: set<int>, root: int, dir: Path, d: int, name: Name, node: int, r: int, p: Path)
    requires m in Sound(nextId, roots) && root in roots && r in roots && Resolve(m, root, dir) == Some(d)
    requires d in m && m[d].Directory? && Resolve(m, root, dir + [name]).None?
    ensures var m' := PutNew(m, nextId, root, dir, name, node).0;
            && m' in Sound(nextId + 2, roots) && nextId + 1 in m' && m'[nextId + 1] == General(name, nextId)
            && Resolve(m', r, p) == if r == root && p == dir + [name] then Some(nextId + 1) else Resolve(m, r, p)
  {
    hide Resolve, Sound;
    PutIsAdd(m, nextId, roots, root, dir, d, name, node);
    AddedPaths(m, nextId, roots, root, dir, d, name, node, r, p);
  }

  lemma PutIsAdd(m: Files, nextId: int, roots: set<int>, root: int, dir: Path, d: int, name: Name, node: int)
    requires m in Sound(nextId, roots) && root in roots && Resolve(m, root, dir) == Some(d)
    requires d in m && m[d].Directory? && Resolve(m, root, dir + [name]).None?
    ensures var m1, f := m[nextId := Storage(name, node, 1)], General(name, nextId);
            && d in m1 && m1[d].Directory? && PutNew(m, nextId, root, dir, name, node).0 == AddChild(m1, d, nextId + 1, f)
            && m1 in Sound(nextId + 1, roots) && MayAdd(m1, d, nextId + 1, f)
            && AddChild(m1, d, nextId + 1, f) in Sound(nextId + 2, roots)
            && AddChild(m1, d, nextId + 1, f)[nextId + 1] == f
  {
    hide Resolve;
    MayPut(m, nextId, roots, root, dir, d, name, node);
  }

  lemma AddedPaths(m: Files, nextId: int, roots: set<int>, root: int, dir: Path, d: int, name: Name, node: int, r: int, p: Path)
    requires m in Sound(nextId, roots) && root in roots && r in roots && Resolve(m, root, dir) == Some(d)
    requires Resolve(m, root, dir + [name]).None?
    requires var m1 := m[nextId := Storage(name, node, 1)];
             m1 in Sound(nextId + 1, roots) && MayAdd(m1, d, nextId + 1, General(name, nextId))
    ensures var m1 := m[nextId := Storage(name, node, 1)];
            Resolve(AddChild(m1, d, nextId + 1, General(name, nextId)), r, p)
            == if r == root && p == dir + [name] then Some(nextId + 1) else Resolve(m, r, p)
  {
    var m1, f := m[nextId := Storage(name, node, 1)], General(name, nextId);
    RootExists(m, nextId, roots, r);
    hide Resolve, Sound, MayAdd, AddChild;
    UnlistedDoesNotMatter(m, nextId, roots, nextId, Storage(name, node, 1), r, p);
    ResolveAfterAdd(m1, nextId + 1, roots, d, nextId + 1, f, r, p);
    PathParts(p, dir, name);
    if p != [] {
      var front := p[..|p| - 1];
      UnlistedDoesNotMatter(m, nextId, roots, nextId, Storage(name, node, 1), r, front);
      if Resolve(m, r, front) == Some(d) {
        PathsAreUnique(m, nextId, roots, root, dir, r, front);
      }
    }
  }

  lemma PathParts(p: Path, dir: Path, name: Name)
    ensures p == dir + [name] <==> p != [] && p[..|p| - 1] == dir && p[|p| - 1] == name
  {
    if p != [] {
      assert p == p[..|p| - 1] + [p[|p| - 1]];
    }
  }

  lemma RootExists(m: Files, nextId: int, roots: set<int>, r: int)
    requires m in Sound(nextId, roots) && r in roots
    ensures r in m && m[r].Directory? && nextId !in m && nextId + 1 !in m
  {
  }

  /** Where the directory part leads to a file, the session fails only after both registrations:
      two files that no path leads to stay in the table. */
  lemma FailedPutLeavesFiles(m: Files, nextId: int, roots: set<int>, root: int, dir: Path, name: Name, node: int)
    requires m in Sound(nextId, roots) && root in roots
    ensures var (m', nextId', result) := PutNew(m, nextId, root, dir, name, node);
            var d := Resolve(m, root, dir);
            && (result.GroupNotDirectory? <==> d.Some? && d.value in m && !m[d.value].Directory?)
            && (!result.Put? ==> (m' != m <==> result.GroupNotDirectory?))
            && (result.GroupNotDirectory? ==> m'.Keys == m.Keys + {nextId, nextId + 1} && m' == m + map[nextId := m'[nextId], nextId + 1 := m'[nextId + 1]])
  {
    var d := Resolve(m, root, dir);
    if d.Some? {
      ResolvedExists(m, root, dir);
      ResolveStep(m, root, dir, name);
      assert nextId !in m && nextId + 1 !in m;
    }
  }

  // ---------------------------------------------------------------------- runs

  /** Operations of the groups' managers. A new group gets a root directory. */
  datatype Operation = NewGroup(name: Name)
                     | MakePath(root: int, path: Path)
                     | PutFile(root: int, dir: Path, name: Name, node: int)
                     | RemovePath(root: int, path: Path)

  datatype Tree = Tree(files: Files, nextId: int, roots: set<int>)

  const EMPTY_TREE := Tree(map[], 1, {})

  ghost predicate TreeOk(t: Tree) {
    t.files in Sound(t.nextId, t.roots)
  }

  /** Without such a group nothing happens; a root missing from the table would make the lookup
      throw. */
  function Do(t: Tree, op: Operation): Tree {
    match op
    case NewGroup(name) => Tree(t.files[t.nextId := Directory(name, [])], t.nextId + 1, t.roots + {t.nextId})
    case MakePath(root, path) =>
      if root !in t.roots || root !in t.files then t
      else var o := Create(t.files, t.nextId, root, path); t.(files := o.files, nextId := o.nextId)
    case PutFile(root, dir, name, node) =>
      if root !in t.roots then t
      else var (files, nextId, _) := PutNew(t.files, t.nextId, root, dir, name, node); t.(files := files, nextId := nextId)
    case RemovePath(root, path) =>
      if root !in t.roots then t else t.(files := Remove(t.files, root, path).0)
  }

  function After(t: Tree, run: seq<Operation>): Tree
    decreases |run|
  {
    if run == [] then t else After(Do(t, run[0]), run[1..])
  }

  lemma RootKeepsSound(m: Files, nextId: int, roots: set<int>, name: Name)
    requires m in Sound(nextId, roots)
    ensures m[nextId := Directory(name, [])] in Sound(nextId + 1, roots + {nextId})
  {
    var m' := m[nextId := Directory(name, [])];
    forall d | d in m' && m'[d].Directory?
      ensures DirectoryOk(m', d) && !Lists(m', d, nextId)
    {
      if d != nextId {
        assert DirectoryOk(m, d);
      }
    }
    forall g | g in m' && m'[g].General?
      ensures GeneralOk(m', g)
    {
      assert GeneralOk(m, g);
    }
    forall d, x | Lists(m', d, x)
      ensures Lists(m, d, x)
    {
      assert d != nextId;
    }
    hide Lists, DirectoryOk, ListedOk, NamesDiffer, GeneralOk;
    assert OneParent(m');
    assert OwnStorage(m');
    assert RootsOk(m', roots + {nextId});
  }

  lemma DoKeepsSound(t: Tree, op: Operation)
    requires TreeOk(t)
    ensures TreeOk(Do(t, op)) && t.roots <= Do(t, op).roots
  {
    match op
    case NewGroup(name) => RootKeepsSound(t.files, t.nextId, t.roots, name);
    case MakePath(root, path) =>
      if root in t.roots && root in t.files {
        CreateWorks(t.files, t.nextId, t.roots, root, path);
      }
    case PutFile(root, dir, name, node) =>
      if root in t.roots {
        PutNewFile(t.files, t.nextId, t.roots, root, dir, name, node, root, []);
      }
    case RemovePath(root, path) =>
      if root in t.roots {
        RemovePathKeepsSound(t.files, t.nextId, t.roots, root, path);
      }
  }

  lemma {:induction false} RunKeepsSound(t: Tree, run: seq<Operation>)
    requires TreeOk(t)
    ensures TreeOk(After(t, run)) && t.roots <= After(t, run).roots
    decreases |run|
  {
    if run != [] {
      DoKeepsSound(t, run[0]);
      RunKeepsSound(Do(t, run[0]), run[1..]);
    }
  }

  /** After every run from the empty table: listed files exist and have one parent, names in a
      directory differ, roots are listed nowhere, and each general file has a storage file of its
      own, used once. */
  lemma ForestStaysSound(run: seq<Operation>)
    ensures TreeOk(After(EMPTY_TREE, run))
  {
    RunKeepsSound(EMPTY_TREE, run);
  }

  /** After every run two paths of two groups never lead to the same file. */
  lemma GroupsShareNothing(run: seq<Operation>, r: int, p: Path, r': int, p': Path)
    requires var t := After(EMPTY_TREE, run);
             && r in t.roots && r' in t.roots
             && Resolve(t.files, r, p).Some? && Resolve(t.files, r', p') == Resolve(t.files, r, p)
    ensures r == r' && p == p'
  {
    var t := After(EMPTY_TREE, run);
    ForestStaysSound(run);
    PathsAreUnique(t.files, t.nextId, t.roots, r, p, r', p');
  }

  /** Some operation removes the path or a front of it. */
  predicate Removes(op: Operation, r: int, p: Path) {
    op.RemovePath? && op.root == r && op.path != [] && op.path <= p
  }

  lemma FrontResolves(m: Files, r: int, front: Path, p: Path)
    requires front <= p && Resolve(m, r, p).Some?
    ensures Resolve(m, r, front).Some?
  {
    ResolveSplit(m, r, front, p[|front|..]);
    assert p == front + p[|front|..];
  }

  lemma StepAndPath(t: Tree, op: Operation, r: int, p: Path)
    requires TreeOk(t) && r in t.roots && Resolve(t.files, r, p).Some?
    ensures Resolve(Do(t, op).files, r, p) == if Removes(op, r, p) then None else Resolve(t.files, r, p)
  {
    hide Resolve, Create, PutNew, Remove, Sound;
    RootExists(t.files, t.nextId, t.roots, r);
    match op
    case NewGroup(name) =>
      UnlistedDoesNotMatter(t.files, t.nextId, t.roots, t.nextId, Directory(name, []), r, p);
    case MakePath(root, path) =>
      if root in t.roots && root in t.files {
        CreatePath(t.files, t.nextId, t.roots, root, path, r, p);
      }
    case PutFile(root, dir, name, node) =>
      if root in t.roots {
        PutNewFile(t.files, t.nextId, t.roots, root, dir, name, node, r, p);
        if r == root && p == dir + [name] {
          PutCases(t.files, t.nextId, t.roots, root, dir, name, node);
        }
      }
    case RemovePath(root, path) =>
      if root in t.roots {
        RemoveOutcome(t.files, t.nextId, t.roots, root, path);
        if Remove(t.files, root, path).1.Done? {
          RemoveKills(t.files, t.nextId, t.roots, root, path, r, p);
        } else if Removes(op, r, p) {
          FrontResolves(t.files, r, path, p);
        }
      }
  }

  /** After every run, and through any further one: a path goes on leading to the same file until
      the path or a front of it is removed, and leads nowhere right after that. */
  lemma {:induction false} PathsLast(run: seq<Operation>, more: seq<Operation>, r: int, p: Path)
    requires r in After(EMPTY_TREE, run).roots && Resolve(After(EMPTY_TREE, run).files, r, p).Some?
    requires forall i | 0 <= i < |more| - 1 :: !Removes(more[i], r, p)
    ensures Resolve(After(After(EMPTY_TREE, run), more).files, r, p)
         == if more != [] && Removes(more[|more| - 1], r, p) then None else Resolve(After(EMPTY_TREE, run).files, r, p)
  {
    RunKeepsSound(EMPTY_TREE, run);
    PathsLastFrom(After(EMPTY_TREE, run), more, r, p);
  }

  lemma {:induction false} PathsLastFrom(t: Tree, more: seq<Operation>, r: int, p: Path)
    requires TreeOk(t) && r in t.roots && Resolve(t.files, r, p).Some?
    requires forall i | 0 <= i < |more| - 1 :: !Removes(more[i], r, p)
    ensures Resolve(After(t, more).files, r, p)
         == if more != [] && Removes(more[|more| - 1], r, p) then None else Resolve(t.files, r, p)
    decreases |more|
  {
    hide Resolve, Do, TreeOk, Removes;
    if more != [] {
      StepAndPath(t, more[0], r, p);
      DoKeepsSound(t, more[0]);
      if |more| > 1 {
        assert forall i | 0 <= i < |more[1..]| :: more[1..][i] == more[i + 1];
        PathsLastFrom(Do(t, more[0]), more[1..], r, p);
      }
    }
  }
  // ----------------------------------------------------------- what is in the table

  /** What a successful removal takes out of the table: the file, and with a general file its storage
      file. Of the rest only the directory that listed it changes, and only in that. */
  lemma RemoveErases(m: Files, nextId: int, roots: set<int>, root: int, path: Path)
    requires m in Sound(nextId, roots) && root in roots && path != [] && Resolve(m, root, path).Some?
    ensures var m', id, dir := Remove(m, root, path).0, Resolve(m, root, path).value, Resolve(m, root, path[..|path| - 1]);
            && id in m && dir.Some? && Lists(m, dir.value, id)
            && m'.Keys == m.Keys - {id} - (if m[id].General? then {m[id].storageId} else {})
            && (forall x | x in m' && x != dir.value :: m'[x] == m[x])
            && dir.value in m' && m'[dir.value].Directory? && m'[dir.value].name == m[dir.value].name
            && (forall x :: x in m'[dir.value].list <==> x in m[dir.value].list && x != id)
  {
    LocateResolves(m, nextId, roots, root, root, path);
    RemoveOutcome(m, nextId, roots, root, path);
    var place := Locate(m, root, root, path);
    LocatedParent(m, nextId, roots, root, path);
    EraseAt(m, nextId, roots, place.parent, place.id);
    hide Sound, Resolve, RemoveAt, Lists;
  }

  lemma EraseAt(m: Files, nextId: int, roots: set<int>, parent: int, id: int)
    requires m in Sound(nextId, roots) && Lists(m, parent, id)
    ensures var m' := RemoveAt(m, parent, id);
            && id in m && m'.Keys == m.Keys - {id} - (if m[id].General? then {m[id].storageId} else {})
            && (forall x | x in m' && x != parent :: m'[x] == m[x])
            && parent in m' && m'[parent].Directory? && m'[parent].name == m[parent].name
            && (forall x :: x in m'[parent].list <==> x in m[parent].list && x != id)
  {
    assert DirectoryOk(m, parent);
    assert m[id].General? ==> GeneralOk(m, id);
  }

  lemma LocatedParent(m: Files, nextId: int, roots: set<int>, root: int, path: Path)
    requires m in Sound(nextId, roots) && root in roots && path != [] && Resolve(m, root, path).Some?
    ensures var place := Locate(m, root, root, path);
            place.At? && Resolve(m, root, path[..|path| - 1]) == Some(place.parent) && place.id == Resolve(m, root, path).value
            && Lists(m, place.parent, place.id)
  {
    LocateResolves(m, nextId, roots, root, root, path);
    ResolvedIsListed(m, root, path);
    var place, dir := Locate(m, root, root, path), Resolve(m, root, path[..|path| - 1]).value;
    ParentsAgree(m, nextId, roots, dir, place.parent, place.id);
  }

  /** What a put session that succeeds enters: a general file of that name, and for it a storage file of
      that name on the group's node, in use once. */
  lemma PutRegisters(m: Files, nextId: int, roots: set<int>, root: int, dir: Path, name: Name, node: int)
    requires m in Sound(nextId, roots) && root in roots && PutNew(m, nextId, root, dir, name, node).2.Put?
    ensures var (m', _, result) := PutNew(m, nextId, root, dir, name, node);
            && result.id !in m && result.id in m' && m'[result.id].General? && m'[result.id].name == name
            && (var storage := m'[result.id].storageId;
                && storage !in m && storage in m' && m'[storage] == Storage(name, node, 1)
                && m'.Keys == m.Keys + {result.id, storage})
            && (forall x | x in m && Some(x) != Resolve(m, root, dir) :: m'[x] == m[x])
  {
    RootExists(m, nextId, roots, root);
    ResolvedExists(m, root, dir);
  }

  /** Every storage file belongs to a general file. */
  ghost predicate AllBelong(m: Files) {
    forall s | s in m && m[s].Storage? :: exists g :: g in m && m[g].General? && m[g].storageId == s
  }

  /** The files that are no directories. */
  ghost predicate SameContents(m: Files, m': Files) {
    forall x :: (x in m && !m[x].Directory? <==> x in m' && !m'[x].Directory?) && (x in m && !m[x].Directory? ==> m'[x] == m[x])
  }

  lemma {:induction false} CreateKeepsContents(m: Files, nextId: int, parent: int, path: Path)
    requires IdsOk(m, nextId) && parent in m
    ensures SameContents(m, Create(m, nextId, parent, path).files)
    decreases |path|
  {
    if path != [] && m[parent].Directory? {
      var id := Find(m, m[parent].list, path[0]);
      if id == INVALID_ID {
        CreateKeepsContents(AddChild(m, parent, nextId, Directory(path[0], [])), nextId + 1, nextId, path[1..]);
      } else {
        CreateKeepsContents(m, nextId, id, path[1..]);
      }
    }
  }

  lemma SameBelong(m: Files, m': Files)
    requires AllBelong(m) && SameContents(m, m')
    ensures AllBelong(m')
  {
    forall s | s in m' && m'[s].Storage?
      ensures exists g :: g in m' && m'[g].General? && m'[g].storageId == s
    {
      var g :| g in m && m[g].General? && m[g].storageId == s;
      assert g in m' && m'[g] == m[g];
    }
  }

  lemma RemoveBelongs(m: Files, nextId: int, roots: set<int>, root: int, path: Path)
    requires m in Sound(nextId, roots) && root in roots && AllBelong(m)
    ensures AllBelong(Remove(m, root, path).0)
  {
    RemoveOutcome(m, nextId, roots, root, path);
    if Remove(m, root, path).1.Done? {
      RemoveErases(m, nextId, roots, root, path);
      var m', id, dir := Remove(m, root, path).0, Resolve(m, root, path).value, Resolve(m, root, path[..|path| - 1]).value;
      hide Remove, Resolve, Sound;
      forall s | s in m' && m'[s].Storage?
        ensures exists g :: g in m' && m'[g].General? && m'[g].storageId == s
      {
        var g :| g in m && m[g].General? && m[g].storageId == s;
        StorageOfOne(m, nextId, roots, id, g);
        assert g in m';
      }
    }
  }

  /** Two general files have two storage files, and these are no general files. */
  lemma StorageOfOne(m: Files, nextId: int, roots: set<int>, a: int, b: int)
    requires m in Sound(nextId, roots) && a in m && b in m && m[b].General?
    ensures m[b].storageId in m && m[m[b].storageId].Storage?
    ensures m[a].General? ==> m[a].storageId != b && (a != b ==> m[a].storageId != m[b].storageId)
  {
    assert GeneralOk(m, b);
    assert m[a].General? ==> GeneralOk(m, a);
  }

  lemma PutBelongs(m: Files, nextId: int, roots: set<int>, root: int, dir: Path, name: Name, node: int)
    requires m in Sound(nextId, roots) && root in roots && AllBelong(m)
    ensures AllBelong(PutNew(m, nextId, root, dir, name, node).0)
  {
    PutCases(m, nextId, roots, root, dir, name, node);
    PairBelongs(m, nextId, name, node);
    var m', m2, d := PutNew(m, nextId, root, dir, name, node).0, RegisterPair(m, nextId, name, node), Resolve(m, root, dir);
    if d.Some? && Resolve(m, root, dir + [name]).None? {
      hide Sound, Resolve, RegisterPair;
      SameBelong(m2, m');
    }
  }

  lemma PairBelongs(m: Files, nextId: int, name: Name, node: int)
    requires IdsOk(m, nextId) && AllBelong(m)
    ensures AllBelong(RegisterPair(m, nextId, name, node))
  {
    var m' := RegisterPair(m, nextId, name, node);
    forall s | s in m' && m'[s].Storage?
      ensures exists g :: g in m' && m'[g].General? && m'[g].storageId == s
    {
      if s == nextId {
        assert m'[nextId + 1].storageId == s;
      } else {
        var g :| g in m && m[g].General? && m[g].storageId == s;
        assert g in m' && m'[g] == m[g];
      }
    }
  }

  lemma DoBelongs(t: Tree, op: Operation)
    requires TreeOk(t) && AllBelong(t.files)
    ensures AllBelong(Do(t, op).files)
  {
    match op
    case NewGroup(name) => SameBelong(t.files, Do(t, op).files);
    case MakePath(root, path) =>
      if root in t.roots && root in t.files {
        CreateKeepsContents(t.files, t.nextId, root, path);
        SameBelong(t.files, Do(t, op).files);
      }
    case PutFile(root, dir, name, node) =>
      if root in t.roots {
        PutBelongs(t.files, t.nextId, t.roots, root, dir, name, node);
      }
    case RemovePath(root, path) =>
      if root in t.roots {
        RemoveBelongs(t.files, t.nextId, t.roots, root, path);
      }
  }

  lemma {:induction false} RunBelongs(t: Tree, run: seq<Operation>)
    requires TreeOk(t) && AllBelong(t.files)
    ensures AllBelong(After(t, run).files)
    decreases |run|
  {
    hide Do, TreeOk, AllBelong;
    if run != [] {
      DoBelongs(t, run[0]);
      DoKeepsSound(t, run[0]);
      RunBelongs(Do(t, run[0]), run[1..]);
    }
  }

  /** After every run each storage file in the table belongs to exactly one general file in it: no
      removal and no failure leaves one behind alone. */
  lemma EachStorageBelongs(run: seq<Operation>, s: int)
    requires var m := After(EMPTY_TREE, run).files; s in m && m[s].Storage?
    ensures var m := After(EMPTY_TREE, run).files;
            && m[s].useCounting == 1
            && (exists g :: g in m && m[g].General? && m[g].storageId == s)
            && (forall g, h | g in m && m[g].General? && m[g].storageId == s && h in m && m[h].General? && m[h].storageId == s :: g == h)
  {
    RunKeepsSound(EMPTY_TREE, run);
    RunBelongs(EMPTY_TREE, run);
    var m := After(EMPTY_TREE, run).files;
    var g :| g in m && m[g].General? && m[g].storageId == s;
    assert GeneralOk(m, g);
  }
  /** A general file and its storage file that no directory lists. */
  ghost predicate LeftBehind(t: Tree, g: int) {
    && g in t.files && t.files[g].General? && t.files[g].storageId in t.files
    && forall d :: !Lists(t.files, d, g)
  }

  lemma {:induction false} CreateLists(m: Files, nextId: int, parent: int, path: Path, d: int, x: int)
    requires IdsOk(m, nextId) && parent in m && Lists(Create(m, nextId, parent, path).files, d, x)
    ensures Lists(m, d, x) || x >= nextId
    decreases |path|
  {
    if path != [] && m[parent].Directory? {
      var id := Find(m, m[parent].list, path[0]);
      if id == INVALID_ID {
        CreateLists(AddChild(m, parent, nextId, Directory(path[0], [])), nextId + 1, nextId, path[1..], d, x);
      } else {
        CreateLists(m, nextId, id, path[1..], d, x);
      }
    }
  }

  lemma MakePathLeaves(t: Tree, root: int, path: Path, g: int)
    requires TreeOk(t) && LeftBehind(t, g)
    ensures LeftBehind(Do(t, MakePath(root, path)), g) && Do(t, MakePath(root, path)).files[g] == t.files[g]
  {
    if root in t.roots && root in t.files {
      var m' := Create(t.files, t.nextId, root, path).files;
      assert GeneralOk(t.files, g);
      CreateKeepsContents(t.files, t.nextId, root, path);
      forall d
        ensures !Lists(m', d, g)
      {
        if Lists(m', d, g) {
          CreateLists(t.files, t.nextId, root, path, d, g);
        }
      }
    }
  }

  lemma RemovePathLeaves(t: Tree, root: int, path: Path, g: int)
    requires TreeOk(t) && LeftBehind(t, g)
    ensures LeftBehind(Do(t, RemovePath(root, path)), g) && Do(t, RemovePath(root, path)).files[g] == t.files[g]
  {
    if root in t.roots {
      RemoveOutcome(t.files, t.nextId, t.roots, root, path);
      if Remove(t.files, root, path).1.Done? {
        RemoveErases(t.files, t.nextId, t.roots, root, path);
        var m', id, dir := Remove(t.files, root, path).0, Resolve(t.files, root, path).value, Resolve(t.files, root, path[..|path| - 1]).value;
        StorageOfOne(t.files, t.nextId, t.roots, id, g);
        hide Remove, Resolve, Sound;
        assert Lists(t.files, dir, id) && id != g;
        assert id != t.files[g].storageId by {
          ListedIsNoStorage(t.files, t.nextId, t.roots, dir, id);
        }
        assert forall d | Lists(m', d, g) :: Lists(t.files, d, g);
      }
    }
  }

  lemma ListedIsNoStorage(m: Files, nextId: int, roots: set<int>, dir: int, id: int)
    requires m in Sound(nextId, roots) && Lists(m, dir, id)
    ensures id in m && !m[id].Storage?
  {
    assert DirectoryOk(m, dir);
  }

  lemma DoLeaves(t: Tree, op: Operation, g: int)
    requires TreeOk(t) && LeftBehind(t, g)
    ensures LeftBehind(Do(t, op), g) && Do(t, op).files[g] == t.files[g]
  {
    match op
    case NewGroup(name) => NewGroupLeaves(t, name, g);
    case MakePath(root, path) => MakePathLeaves(t, root, path, g);
    case PutFile(root, dir, name, node) => PutFileLeaves(t, root, dir, name, node, g);
    case RemovePath(root, path) => RemovePathLeaves(t, root, path, g);
  }

  lemma NewGroupLeaves(t: Tree, name: Name, g: int)
    requires TreeOk(t) && LeftBehind(t, g)
    ensures LeftBehind(Do(t, NewGroup(name)), g) && Do(t, NewGroup(name)).files[g] == t.files[g]
  {
    var t' := Do(t, NewGroup(name));
    assert forall d | Lists(t'.files, d, g) :: Lists(t.files, d, g);
  }

  lemma PutFileLeaves(t: Tree, root: int, dir: Path, name: Name, node: int, g: int)
    requires TreeOk(t) && LeftBehind(t, g)
    ensures var t' := Do(t, PutFile(root, dir, name, node)); LeftBehind(t', g) && t'.files[g] == t.files[g]
  {
    var t' := Do(t, PutFile(root, dir, name, node));
    hide Resolve;
    assert forall d | Lists(t'.files, d, g) :: Lists(t.files, d, g);
  }

  lemma NewIsUnlisted(m: Files, nextId: int, roots: set<int>, x: int)
    requires m in Sound(nextId, roots) && x >= nextId
    ensures forall d :: !Lists(m, d, x)
  {
    forall d
      ensures !Lists(m, d, x)
    {
      if d in m && m[d].Directory? {
        assert DirectoryOk(m, d);
      }
    }
  }

  lemma {:induction false} RunLeaves(t: Tree, run: seq<Operation>, g: int)
    requires TreeOk(t) && LeftBehind(t, g)
    ensures LeftBehind(After(t, run), g) && After(t, run).files[g] == t.files[g]
    decreases |run|
  {
    hide Do, TreeOk, LeftBehind;
    if run != [] {
      DoLeaves(t, run[0], g);
      DoKeepsSound(t, run[0]);
      RunLeaves(Do(t, run[0]), run[1..], g);
    }
  }

  /** After every run: a put that fails leaves files behind exactly where the directory part leads to a
      file, and then they stay for good: no further run lists or removes them. */
  lemma LeftoversStay(run: seq<Operation>, root: int, dir: Path, name: Name, node: int, more: seq<Operation>)
    requires root in After(EMPTY_TREE, run).roots
    requires PutNew(After(EMPTY_TREE, run).files, After(EMPTY_TREE, run).nextId, root, dir, name, node).2.GroupNotDirectory?
    ensures var t := After(EMPTY_TREE, run);
            var m', storage, g := After(Do(t, PutFile(root, dir, name, node)), more).files, t.nextId, t.nextId + 1;
            && g in m' && m'[g] == General(name, storage) && storage in m' && m'[storage].Storage?
            && forall d :: !Lists(m', d, g) && !Lists(m', d, storage)
  {
    var t := After(EMPTY_TREE, run);
    RunKeepsSound(EMPTY_TREE, run);
    var t1 := Do(t, PutFile(root, dir, name, node));
    FailedPutLeaves(t, root, dir, name, node);
    DoKeepsSound(t, PutFile(root, dir, name, node));
    RunLeaves(t1, more, t.nextId + 1);
    RunKeepsSound(t1, more);
    StorageUnlisted(After(t1, more), t.nextId + 1);
    hide Do, Resolve, PutNew, TreeOk;
  }

  lemma FailedPutLeaves(t: Tree, root: int, dir: Path, name: Name, node: int)
    requires TreeOk(t) && root in t.roots && PutNew(t.files, t.nextId, root, dir, name, node).2.GroupNotDirectory?
    ensures var t' := Do(t, PutFile(root, dir, name, node));
            LeftBehind(t', t.nextId + 1) && t'.files[t.nextId + 1] == General(name, t.nextId)
  {
    PutCases(t.files, t.nextId, t.roots, root, dir, name, node);
    NewIsUnlisted(t.files, t.nextId, t.roots, t.nextId + 1);
    hide Resolve, Sound;
    var t', g := Do(t, PutFile(root, dir, name, node)), t.nextId + 1;
    assert forall d | Lists(t'.files, d, g) :: Lists(t.files, d, g);
  }

  lemma StorageUnlisted(t: Tree, g: int)
    requires TreeOk(t) && LeftBehind(t, g)
    ensures var s := t.files[g].storageId; s in t.files && t.files[s].Storage? && forall d :: !Lists(t.files, d, s)
  {
    var s := t.files[g].storageId;
    assert GeneralOk(t.files, g);
    forall d
      ensures !Lists(t.files, d, s)
    {
      if Lists(t.files, d, s) {
        ListedIsNoStorage(t.files, t.nextId, t.roots, d, s);
      }
    }
  }
}
