/** Directories, general files and storage files in one table, and what path operations do to it. */
module Forest {
  import opened Wire

  type Name = string
  type Path = seq<Name>

  const INVALID_ID := 0

  /** A directory lists the ids of what it holds. A general file stands for a storage file on a
      node. */
  datatype File = Directory(name: Name, list: seq<int>)
                | General(name: Name, storageId: int)
                | Storage(name: Name, nodeId: int, useCounting: int)

  type Files = map<int, File>

  /** The first listed file with this name; ids without a file are passed over. */
  function Find(m: Files, list: seq<int>, name: Name): (id: int)
    ensures id == INVALID_ID || (id in list && id in m && m[id].name == name)
  {
    if list == [] then INVALID_ID
    else if list[0] in m && m[list[0]].name == name then list[0]
    else Find(m, list[1..], name)
  }

  /** Where a path leads from a directory; `None` if nowhere. */
  function Resolve(m: Files, from: int, path: Path): Option<int>
    decreases |path|
  {
    if path == [] then Some(from)
    else if from !in m || !m[from].Directory? then None
    else
      var id := Find(m, m[from].list, path[0]);
      if id == INVALID_ID then None else Resolve(m, id, path[1..])
  }

  predicate Lists(m: Files, dir: int, id: int) {
    dir in m && m[dir].Directory? && id in m[dir].list
  }

  // --------------------------------------------------------------- invariant

  /** Listed files exist, were created after their directory, and are no storage files. */
  predicate ListedOk(m: Files, dir: int)
    requires dir in m && m[dir].Directory?
  {
    forall i | 0 <= i < |m[dir].list| ::
      var id := m[dir].list[i];
      id in m && dir < id && !m[id].Storage?
  }

  /** Names in a directory differ. */
  predicate NamesDiffer(m: Files, dir: int)
    requires dir in m && m[dir].Directory? && ListedOk(m, dir)
  {
    forall i, j | 0 <= i < j < |m[dir].list| :: m[m[dir].list[i]].name != m[m[dir].list[j]].name
  }

  predicate DirectoryOk(m: Files, dir: int)
    requires dir in m && m[dir].Directory?
  {
    ListedOk(m, dir) && NamesDiffer(m, dir)
  }

  /** A general file has a storage file of its own, in use once. */
  predicate GeneralOk(m: Files, id: int)
    requires id in m && m[id].General?
  {
    var s := m[id].storageId;
    s in m && m[s].Storage? && m[s].useCounting == 1
  }

  predicate OneParent(m: Files) {
    forall a, b, id | a in m && b in m && id in m && Lists(m, a, id) && Lists(m, b, id) :: a == b
  }

  predicate OwnStorage(m: Files) {
    forall a, b | a in m && b in m && m[a].General? && m[b].General? && m[a].storageId == m[b].storageId :: a == b
  }

  predicate IdsOk(m: Files, nextId: int) {
    nextId > 0 && forall id | id in m :: 0 < id < nextId
  }

  predicate RootsOk(m: Files, roots: set<int>) {
    forall r | r in roots :: r in m && m[r].Directory? && forall d | d in m :: !Lists(m, d, r)
  }

  ghost function Sound(nextId: int, roots: set<int>): iset<Files> {
    iset m: Files |
      && IdsOk(m, nextId) && OneParent(m) && OwnStorage(m) && RootsOk(m, roots)
      && (forall id | id in m && m[id].Directory? :: DirectoryOk(m, id))
      && (forall id | id in m && m[id].General? :: GeneralOk(m, id))
  }

  // ------------------------------------------------------------ facts on paths

  lemma {:induction false} FindListed(m: Files, list: seq<int>, i: nat)
    requires i < |list| && list[i] in m
    requires forall a, b | 0 <= a < b < |list| && list[a] in m && list[b] in m :: m[list[a]].name != m[list[b]].name
    ensures Find(m, list, m[list[i]].name) == list[i]
  {
    if i > 0 {
      FindListed(m, list[1..], i - 1);
    }
  }

  /** A path can be followed in two parts. */
  lemma {:induction false} ResolveSplit(m: Files, from: int, a: Path, b: Path)
    ensures Resolve(m, from, a + b)
         == (var mid := Resolve(m, from, a); if mid.None? then None else Resolve(m, mid.value, b))
    decreases |a|
  {
    if a == [] {
      assert a + b == b;
    } else {
      assert (a + b)[1..] == a[1..] + b;
      if from in m && m[from].Directory? {
        ResolveSplit(m, Find(m, m[from].list, a[0]), a[1..], b);
      }
    }
  }

  lemma ResolveStep(m: Files, from: int, path: Path, name: Name)
    ensures var dir := Resolve(m, from, path);
            Resolve(m, from, path + [name])
            == if dir.None? || dir.value !in m || !m[dir.value].Directory? then None
               else var id := Find(m, m[dir.value].list, name); if id == INVALID_ID then None else Some(id)
  {
    ResolveSplit(m, from, path, [name]);
    assert [name][1..] == [];
  }

  /** What a path of at least one name leads to exists and is listed by what its front leads to. */
  lemma ResolvedIsListed(m: Files, from: int, path: Path)
    requires path != [] && Resolve(m, from, path).Some?
    ensures var front := path[..|path| - 1];
            && Resolve(m, from, front).Some? && Lists(m, Resolve(m, from, front).value, Resolve(m, from, path).value)
            && Resolve(m, from, path).value in m
            && m[Resolve(m, from, path).value].name == path[|path| - 1]
  {
    var front := path[..|path| - 1];
    assert path == front + [path[|path| - 1]];
    ResolveStep(m, from, front, path[|path| - 1]);
  }

  lemma ResolveNothing(m: Files, from: int)
    ensures Resolve(m, from, []) == Some(from)
  {
  }

  lemma ParentsAgree(m: Files, nextId: int, roots: set<int>, a: int, b: int, id: int)
    requires m in Sound(nextId, roots) && Lists(m, a, id) && Lists(m, b, id) && id in m
    ensures a == b
  {
  }

  lemma RootIsUnlisted(m: Files, nextId: int, roots: set<int>, r: int, d: int)
    requires m in Sound(nextId, roots) && r in roots
    ensures !Lists(m, d, r)
  {
  }

  /** No file is reached in two ways, from whatever roots. */
  lemma {:induction false} PathsAreUnique(m: Files, nextId: int, roots: set<int>, r: int, p: Path, r': int, p': Path)
    requires m in Sound(nextId, roots) && r in roots && r' in roots
    requires Resolve(m, r, p).Some? && Resolve(m, r', p') == Resolve(m, r, p)
    ensures r == r' && p == p'
    decreases |p|
  {
    hide Resolve, Sound, Lists;
    var id := Resolve(m, r, p).value;
    ResolveNothing(m, r);
    ResolveNothing(m, r');
    if p == [] {
      if p' != [] {
        ResolvedIsListed(m, r', p');
        RootIsUnlisted(m, nextId, roots, r, Resolve(m, r', p'[..|p'| - 1]).value);
      }
    } else if p' == [] {
      ResolvedIsListed(m, r, p);
      RootIsUnlisted(m, nextId, roots, r', Resolve(m, r, p[..|p| - 1]).value);
    } else {
      ResolvedIsListed(m, r, p);
      ResolvedIsListed(m, r', p');
      var f, f' := p[..|p| - 1], p'[..|p'| - 1];
      ParentsAgree(m, nextId, roots, Resolve(m, r, f).value, Resolve(m, r', f').value, id);
      PathsAreUnique(m, nextId, roots, r, f, r', f');
      assert p == f + [m[id].name] && p' == f' + [m[id].name];
    }
  }

  // ------------------------------------------------------------------ additions

  /** A new file joins a directory that has no file of that name. */
  function AddChild(m: Files, dir: int, id: int, f: File): Files
    requires dir in m && m[dir].Directory?
  {
    m[id := f][dir := Directory(m[dir].name, m[dir].list + [id])]
  }

  predicate MayAdd(m: Files, dir: int, id: int, f: File) {
    && dir in m && m[dir].Directory? && id !in m && id != INVALID_ID
    && (f.Directory? ==> f.list == []) && !f.Storage?
    && Find(m, m[dir].list, f.name) == INVALID_ID
    && (forall d | d in m :: !Lists(m, d, id))
  }

  lemma {:induction false} FindInLarger(m: Files, m': Files, list: seq<int>, name: Name)
    requires forall i | 0 <= i < |list| :: list[i] in m && list[i] in m' && m'[list[i]].name == m[list[i]].name
    ensures Find(m', list, name) == Find(m, list, name)
  {
    if list != [] {
      FindInLarger(m, m', list[1..], name);
    }
  }

  lemma {:induction false} FindAppended(m: Files, list: seq<int>, id: int, name: Name)
    ensures Find(m, list + [id], name)
         == if Find(m, list, name) != INVALID_ID then Find(m, list, name)
            else if id in m && m[id].name == name then id else INVALID_ID
    requires INVALID_ID !in list
  {
    if list == [] {
      assert [id][1..] == [];
    } else {
      assert (list + [id])[1..] == list[1..] + [id];
      FindAppended(m, list[1..], id, name);
    }
  }

  /** In a directory, only the new name leads anywhere new. */
  lemma FindAfterAdd(m: Files, nextId: int, roots: set<int>, dir: int, id: int, f: File, d: int, name: Name)
    requires m in Sound(nextId, roots) && MayAdd(m, dir, id, f) && d in m && m[d].Directory?
    ensures var m' := AddChild(m, dir, id, f);
            Find(m', m'[d].list, name)
            == if d == dir && name == f.name then id else Find(m, m[d].list, name)
  {
    var m' := AddChild(m, dir, id, f);
    assert DirectoryOk(m, d);
    assert forall i | 0 <= i < |m[d].list| :: m[d].list[i] in m && m[d].list[i] != INVALID_ID;
    FindInLarger(m, m', m[d].list, name);
    if d == dir {
      FindAppended(m', m[dir].list, id, name);
    }
  }

  /** Every path that led somewhere still leads there, and besides these only the path of the new
      file does. */
  lemma {:induction false} ResolveAfterAdd(m: Files, nextId: int, roots: set<int>, dir: int, id: int, f: File, from: int, path: Path)
    requires m in Sound(nextId, roots) && MayAdd(m, dir, id, f) && from in m
    ensures var m' := AddChild(m, dir, id, f);
            Resolve(m', from, path)
            == if Resolve(m, from, path).Some? then Resolve(m, from, path)
               else if path != [] && Resolve(m, from, path[..|path| - 1]) == Some(dir) && path[|path| - 1] == f.name then Some(id)
               else None
    decreases |path|
  {
    var m' := AddChild(m, dir, id, f);
    if path != [] && m[from].Directory? {
      var child, rest := Find(m, m[from].list, path[0]), path[1..];
      FindAfterAdd(m, nextId, roots, dir, id, f, from, path[0]);
      if child != INVALID_ID {
        ResolveAfterAdd(m, nextId, roots, dir, id, f, child, rest);
        if rest != [] {
          assert path[..|path| - 1][1..] == rest[..|rest| - 1];
        }
      } else if from == dir && path[0] == f.name {
        NewLeaf(m', id, rest);
        if rest != [] {
          assert path[..|path| - 1][0] == path[0];
        }
      }
    }
  }

  /** Nothing is below a new file. */
  lemma NewLeaf(m: Files, id: int, path: Path)
    requires id in m && (m[id].Directory? ==> m[id].list == [])
    ensures Resolve(m, id, path) == if path == [] then Some(id) else None
  {
  }

  lemma AddedDirectoryOk(m: Files, nextId: int, roots: set<int>, dir: int, id: int, f: File, d: int)
    requires m in Sound(nextId, roots) && MayAdd(m, dir, id, f) && dir < id && id == nextId
    requires d in m && m[d].Directory?
    ensures DirectoryOk(AddChild(m, dir, id, f), d)
  {
    assert DirectoryOk(m, d);
    if d == dir {
      forall i | 0 <= i < |m[dir].list|
        ensures m[m[dir].list[i]].name != f.name
      {
        assert m[dir].list[i] in m;
        if m[m[dir].list[i]].name == f.name {
          FindListed(m, m[dir].list, i);
        }
      }
    }
  }

  lemma AddKeepsSound(m: Files, nextId: int, roots: set<int>, dir: int, id: int, f: File)
    requires m in Sound(nextId, roots) && MayAdd(m, dir, id, f) && dir < id && id == nextId
    requires f.General? ==> f.storageId in m && m[f.storageId].Storage? && m[f.storageId].useCounting == 1
                            && forall g | g in m && m[g].General? :: m[g].storageId != f.storageId
    ensures AddChild(m, dir, id, f) in Sound(id + 1, roots)
  {
    var m' := AddChild(m, dir, id, f);
    forall d | d in m' && m'[d].Directory?
      ensures DirectoryOk(m', d)
    {
      if d != id {
        AddedDirectoryOk(m, nextId, roots, dir, id, f, d);
      }
    }
    forall g | g in m' && m'[g].General?
      ensures GeneralOk(m', g)
    {
      assert g != id ==> GeneralOk(m, g);
    }
    AddedLists(m, nextId, roots, dir, id, f);
    assert IdsOk(m', id + 1) && OwnStorage(m');
    hide DirectoryOk, GeneralOk, OneParent, RootsOk, OwnStorage, MayAdd;
  }

  lemma AddedLists(m: Files, nextId: int, roots: set<int>, dir: int, id: int, f: File)
    requires m in Sound(nextId, roots) && MayAdd(m, dir, id, f) && dir < id && id == nextId
    ensures RootsOk(AddChild(m, dir, id, f), roots) && OneParent(AddChild(m, dir, id, f))
  {
    var m' := AddChild(m, dir, id, f);
    forall d, x | d in m' && Lists(m', d, x)
      ensures Lists(m, d, x) || (d == dir && x == id)
    {
    }
  }

  /** A file nobody lists does not matter to paths. */
  lemma {:induction false} UnlistedDoesNotMatter(m: Files, nextId: int, roots: set<int>, id: int, f: File, from: int, path: Path)
    requires m in Sound(nextId, roots) && id !in m && from in m
    ensures Resolve(m[id := f], from, path) == Resolve(m, from, path)
    decreases |path|
  {
    if path != [] && m[from].Directory? {
      assert DirectoryOk(m, from);
      FindInLarger(m, m[id := f], m[from].list, path[0]);
      var child := Find(m, m[from].list, path[0]);
      if child != INVALID_ID {
        UnlistedDoesNotMatter(m, nextId, roots, id, f, child, path[1..]);
      }
    }
  }

  lemma StorageKeepsSound(m: Files, nextId: int, roots: set<int>, name: Name, node: int)
    requires m in Sound(nextId, roots)
    ensures m[nextId := Storage(name, node, 1)] in Sound(nextId + 1, roots)
  {
    var m' := m[nextId := Storage(name, node, 1)];
    forall d | d in m' && m'[d].Directory?
      ensures DirectoryOk(m', d)
    {
      assert DirectoryOk(m, d);
    }
    forall g | g in m' && m'[g].General?
      ensures GeneralOk(m', g)
    {
      assert GeneralOk(m, g);
    }
  }

  // ------------------------------------------------------------------ creation

  datatype Result = Done(id: int) | NotDirectory | FileNotExist | CannotRemoveRoot

  datatype Outcome = Outcome(files: Files, nextId: int, result: Result)

  /** create_path from the directory `parent` on. */
  function Create(m: Files, nextId: int, parent: int, path: Path): Outcome
    requires parent in m
    decreases |path|
  {
    if path == [] then Outcome(m, nextId, Done(parent))
    else if !m[parent].Directory? then Outcome(m, nextId, NotDirectory)
    else
      var id := Find(m, m[parent].list, path[0]);
      if id == INVALID_ID then
        Create(AddChild(m, parent, nextId, Directory(path[0], [])), nextId + 1, nextId, path[1..])
      else Create(m, nextId, id, path[1..])
  }

  lemma NewDirectory(m: Files, nextId: int, roots: set<int>, parent: int, name: Name)
    requires m in Sound(nextId, roots) && parent in m && m[parent].Directory?
    requires Find(m, m[parent].list, name) == INVALID_ID
    ensures MayAdd(m, parent, nextId, Directory(name, []))
    ensures AddChild(m, parent, nextId, Directory(name, [])) in Sound(nextId + 1, roots)
  {
    forall d | d in m
      ensures !Lists(m, d, nextId)
    {
      if m[d].Directory? {
        assert DirectoryOk(m, d);
      }
    }
    AddKeepsSound(m, nextId, roots, parent, nextId, Directory(name, []));
  }

  /** The table stays sound, the path leads to the result, and a failure changes nothing. */
  lemma {:induction false} CreateWorks(m: Files, nextId: int, roots: set<int>, parent: int, path: Path)
    requires m in Sound(nextId, roots) && parent in m
    ensures var o := Create(m, nextId, parent, path);
            && o.files in Sound(o.nextId, roots) && parent in o.files
            && (o.result.Done? || (o.result.NotDirectory? && o.files == m && o.nextId == nextId))
            && (o.result.Done? ==> Resolve(o.files, parent, path) == Some(o.result.id))
    ensures m[parent].Directory? && m[parent].list == [] ==> Create(m, nextId, parent, path).result.Done?
    decreases |path|
  {
    if path != [] && m[parent].Directory? {
      var id := Find(m, m[parent].list, path[0]);
      if id == INVALID_ID {
        var m1 := AddChild(m, parent, nextId, Directory(path[0], []));
        NewDirectory(m, nextId, roots, parent, path[0]);
        FindAfterAdd(m, nextId, roots, parent, nextId, Directory(path[0], []), parent, path[0]);
        CreateWorks(m1, nextId + 1, roots, nextId, path[1..]);
        CreateKeepsListing(m1, nextId + 1, roots, nextId, path[1..], parent, path[0]);
      } else {
        CreateWorks(m, nextId, roots, id, path[1..]);
        CreateKeepsListing(m, nextId, roots, id, path[1..], parent, path[0]);
      }
    }
  }

  /** What a directory leads to by a name stays. */
  lemma {:induction false} CreateKeepsListing(m: Files, nextId: int, roots: set<int>, parent: int, path: Path, d: int, name: Name)
    requires m in Sound(nextId, roots) && parent in m
    requires d in m && m[d].Directory? && Find(m, m[d].list, name) != INVALID_ID
    ensures var o := Create(m, nextId, parent, path);
            d in o.files && o.files[d].Directory? && Find(o.files, o.files[d].list, name) == Find(m, m[d].list, name)
    decreases |path|
  {
    if path != [] && m[parent].Directory? {
      var id := Find(m, m[parent].list, path[0]);
      if id == INVALID_ID {
        NewDirectory(m, nextId, roots, parent, path[0]);
        FindAfterAdd(m, nextId, roots, parent, nextId, Directory(path[0], []), d, name);
        CreateKeepsListing(AddChild(m, parent, nextId, Directory(path[0], [])), nextId + 1, roots, nextId, path[1..], d, name);
      } else {
        CreateKeepsListing(m, nextId, roots, id, path[1..], d, name);
      }
    }
  }

  /** One directory more. */
  lemma OneMore(m: Files, nextId: int, roots: set<int>, root: int, done: Path, parent: int, name: Name, r: int, p: Path)
    requires m in Sound(nextId, roots) && root in roots && r in roots
    requires parent in m && m[parent].Directory? && Resolve(m, root, done) == Some(parent)
    requires Find(m, m[parent].list, name) == INVALID_ID
    ensures var m1 := AddChild(m, parent, nextId, Directory(name, []));
            && m1 in Sound(nextId + 1, roots) && Resolve(m1, root, done + [name]) == Some(nextId)
            && (Resolve(m, r, p).Some? ==> Resolve(m1, r, p) == Resolve(m, r, p))
            && (Resolve(m, r, p).None? && Resolve(m1, r, p).Some? ==> r == root && p == done + [name])
  {
    hide Resolve;
    var f := Directory(name, []);
    var m1 := AddChild(m, parent, nextId, f);
    NewDirectory(m, nextId, roots, parent, name);
    ResolveAfterAdd(m, nextId, roots, parent, nextId, f, r, p);
    ResolveAfterAdd(m, nextId, roots, parent, nextId, f, root, done);
    FindAfterAdd(m, nextId, roots, parent, nextId, f, parent, name);
    ResolveStep(m1, root, done, name);
    if Resolve(m, r, p).None? && Resolve(m1, r, p).Some? {
      PathsAreUnique(m, nextId, roots, root, done, r, p[..|p| - 1]);
      assert p == done + [name];
    }
  }

  /** Every path keeps its file, and the only new paths are fronts of the created one. `done` is
      the part of the path that leads to `parent`. */
  lemma {:induction false} CreateKeepsPaths(m: Files, nextId: int, roots: set<int>, root: int, done: Path, parent: int, path: Path,
                                            r: int, p: Path)
    requires m in Sound(nextId, roots) && root in roots && r in roots
    requires parent in m && Resolve(m, root, done) == Some(parent)
    ensures var o := Create(m, nextId, parent, path);
            && (Resolve(m, r, p).Some? ==> Resolve(o.files, r, p) == Resolve(m, r, p))
            && (Resolve(m, r, p).None? && Resolve(o.files, r, p).Some? ==> r == root && p <= done + path)
    decreases |path|
  {
    hide Resolve, Sound;
    if path != [] && m[parent].Directory? {
      var id := Find(m, m[parent].list, path[0]);
      assert done + [path[0]] + path[1..] == done + path;
      if id == INVALID_ID {
        OneMore(m, nextId, roots, root, done, parent, path[0], r, p);
        CreateKeepsPaths(AddChild(m, parent, nextId, Directory(path[0], [])), nextId + 1, roots,
                         root, done + [path[0]], nextId, path[1..], r, p);
      } else {
        ResolveStep(m, root, done, path[0]);
        CreateKeepsPaths(m, nextId, roots, root, done + [path[0]], id, path[1..], r, p);
      }
    }
  }

  /** create_path: afterwards the path leads somewhere, every path that led somewhere leads to the
      same file, nothing else appears; if it fails nothing changes. */
  lemma CreatePath(m: Files, nextId: int, roots: set<int>, root: int, path: Path, r: int, p: Path)
    requires m in Sound(nextId, roots) && root in roots && r in roots
    ensures var o := Create(m, nextId, root, path);
            && o.files in Sound(o.nextId, roots)
            && (o.result.Done? ==> Resolve(o.files, root, path) == Some(o.result.id))
            && (!o.result.Done? ==> o.result == NotDirectory && o.files == m && o.nextId == nextId)
            && (Resolve(m, r, p).Some? ==> Resolve(o.files, r, p) == Resolve(m, r, p))
            && (Resolve(m, r, p).None? && Resolve(o.files, r, p).Some? ==> r == root && p <= path)
  {
    CreateWorks(m, nextId, roots, root, path);
    ResolveNothing(m, root);
    assert [] + path == path;
    CreateKeepsPaths(m, nextId, roots, root, [], root, path, r, p);
  }

  /** A file that is as it was, or a directory with more in its list. */
  predicate SameOrGrown(a: File, b: File) {
    a == b || (a.Directory? && b.Directory? && a.name == b.name && a.list <= b.list)
  }

  predicate FrontLeadsTo(m: Files, root: int, path: Path, id: int) {
    exists k | 0 < k <= |path| :: Resolve(m, root, path[..k]) == Some(id)
  }

  /** The first `n` names of the path have been dealt with. */
  lemma {:induction false} CreateRegistersFrom(m: Files, nextId: int, roots: set<int>, root: int, path: Path, n: nat, parent: int, x: int)
    requires m in Sound(nextId, roots) && root in roots && n <= |path|
    requires parent in m && Resolve(m, root, path[..n]) == Some(parent)
    ensures var o := Create(m, nextId, parent, path[n..]);
            && (x in m ==> x in o.files && SameOrGrown(m[x], o.files[x]))
            && (x in o.files && x !in m ==> o.files[x].Directory? && FrontLeadsTo(o.files, root, path, x))
    decreases |path| - n
  {
    hide Resolve, Sound;
    if n < |path| && m[parent].Directory? {
      var id, name := Find(m, m[parent].list, path[n]), path[n];
      assert path[n..][0] == name && path[n..][1..] == path[n + 1..] && path[..n] + [name] == path[..n + 1];
      if id == INVALID_ID {
        var m1 := AddChild(m, parent, nextId, Directory(name, []));
        OneMore(m, nextId, roots, root, path[..n], parent, name, root, path[..n + 1]);
        NewDirectory(m, nextId, roots, parent, name);
        CreateRegistersFrom(m1, nextId + 1, roots, root, path, n + 1, nextId, x);
        CreateKeepsPaths(m1, nextId + 1, roots, root, path[..n + 1], nextId, path[n + 1..], root, path[..n + 1]);
      } else {
        ResolveStep(m, root, path[..n], name);
        CreateRegistersFrom(m, nextId, roots, root, path, n + 1, id, x);
      }
    }
  }

  /** What creation enters: directories, and only those the fronts of the path lead to. Everything else
      is as it was, apart from directories that list more at the end. */
  lemma CreateRegisters(m: Files, nextId: int, roots: set<int>, root: int, path: Path, x: int)
    requires m in Sound(nextId, roots) && root in roots
    ensures var o := Create(m, nextId, root, path);
            && (x in m ==> x in o.files && SameOrGrown(m[x], o.files[x]))
            && (x in o.files && x !in m ==> o.files[x].Directory? && FrontLeadsTo(o.files, root, path, x))
  {
    ResolveNothing(m, root);
    assert path[0..] == path && path[..0] == [];
    CreateRegistersFrom(m, nextId, roots, root, path, 0, root, x);
  }

  /** The first `k` names of the path lead to something that is no directory. */
  predicate Blocked(m: Files, from: int, path: Path, k: nat)
    requires k <= |path|
  {
    var f := Resolve(m, from, path[..k]);
    f.Some? && f.value in m && !m[f.value].Directory?
  }

  lemma BlockedNext(m: Files, from: int, path: Path, k: nat)
    requires from in m && m[from].Directory? && 0 < k <= |path|
    ensures Blocked(m, from, path, k)
        <==> Find(m, m[from].list, path[0]) != INVALID_ID && Blocked(m, Find(m, m[from].list, path[0]), path[1..], k - 1)
  {
    assert path[..k][0] == path[0] && path[..k][1..] == path[1..][..k - 1];
  }

  lemma BlockedHere(m: Files, from: int, path: Path)
    requires from in m
    ensures Blocked(m, from, path, 0) <==> !m[from].Directory?
  {
    assert path[..0] == [];
  }

  predicate BlockedBefore(m: Files, from: int, path: Path) {
    exists k | 0 <= k < |path| :: Blocked(m, from, path, k)
  }

  lemma BlockedSplit(m: Files, from: int, path: Path)
    requires from in m && m[from].Directory? && path != []
    ensures var id := Find(m, m[from].list, path[0]);
            BlockedBefore(m, from, path) <==> id != INVALID_ID && BlockedBefore(m, id, path[1..])
  {
    var id, rest := Find(m, m[from].list, path[0]), path[1..];
    BlockedHere(m, from, path);
    if k :| 0 <= k < |path| && Blocked(m, from, path, k) {
      BlockedNext(m, from, path, k);
      assert Blocked(m, id, rest, k - 1);
    }
    if k :| id != INVALID_ID && 0 <= k < |rest| && Blocked(m, id, rest, k) {
      BlockedNext(m, from, path, k + 1);
      assert Blocked(m, from, path, k + 1);
    }
  }

  /** It fails exactly if a proper front of the path leads to something that is no directory. */
  lemma {:induction false} CreateFailsIff(m: Files, nextId: int, roots: set<int>, parent: int, path: Path)
    requires m in Sound(nextId, roots) && parent in m
    ensures Create(m, nextId, parent, path).result.NotDirectory? <==> exists k | 0 <= k < |path| :: Blocked(m, parent, path, k)
    decreases |path|
  {
    assert BlockedBefore(m, parent, path) <==> exists k | 0 <= k < |path| :: Blocked(m, parent, path, k);
    if path != [] {
      BlockedHere(m, parent, path);
      if m[parent].Directory? {
        var id, rest := Find(m, m[parent].list, path[0]), path[1..];
        BlockedSplit(m, parent, path);
        hide Blocked, Resolve;
        if id == INVALID_ID {
          NewPathWorks(m, nextId, roots, parent, path);
        } else {
          FoundExists(m, nextId, roots, parent, path[0]);
          hide Sound;
          CreateFailsIff(m, nextId, roots, id, rest);
        }
      }
    }
  }

  lemma NewPathWorks(m: Files, nextId: int, roots: set<int>, parent: int, path: Path)
    requires m in Sound(nextId, roots) && parent in m && m[parent].Directory? && path != []
    requires Find(m, m[parent].list, path[0]) == INVALID_ID
    ensures Create(m, nextId, parent, path).result.Done?
  {
    hide Sound;
    NewDirectory(m, nextId, roots, parent, path[0]);
    CreateWorks(AddChild(m, parent, nextId, Directory(path[0], [])), nextId + 1, roots, nextId, path[1..]);
  }

  lemma FoundExists(m: Files, nextId: int, roots: set<int>, dir: int, name: Name)
    requires m in Sound(nextId, roots) && dir in m && m[dir].Directory? && Find(m, m[dir].list, name) != INVALID_ID
    ensures Find(m, m[dir].list, name) in m
  {
  }
}
