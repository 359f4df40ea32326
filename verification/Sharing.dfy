/** The file manager and a sharing group as objects; each operation is proved against Forest and
    ForestChanges. */
module Sharing {
  import opened Wire
  import opened Forest
  import opened ForestChanges

  datatype FileType = DirectoryType | GeneralType | StorageType

  predicate HasStorage(m: Files, id: int)
    requires id in m && m[id].General?
  {
    m[id].storageId in m && m[m[id].storageId].Storage?
  }

  class SharingFileManager {
    var fileList: Files
    var nextId: int

    ghost predicate Valid()
      reads this
    {
      IdsOk(fileList, nextId)
    }

    constructor ()
      ensures Valid() && fileList == map[] && nextId == 1
    {
      fileList, nextId := map[], 1;
    }

    /** A general file counts as a use of its storage file; without one the call throws (`None`) and
        nothing is registered. */
    method RegisterFile(fileType: FileType, name: Name, arg: int) returns (result: Option<int>)
      requires Valid()
      modifies this
      ensures Valid()
      ensures result.None? <==> fileType.GeneralType? && !(arg in old(fileList) && old(fileList)[arg].Storage?)
      ensures result.None? ==> fileList == old(fileList) && nextId == old(nextId)
      ensures result.Some? ==> result.value == old(nextId) && nextId == old(nextId) + 1
      ensures fileType.DirectoryType? ==> fileList == old(fileList)[old(nextId) := Directory(name, [])]
      ensures fileType.StorageType? ==> fileList == old(fileList)[old(nextId) := Storage(name, arg, 0)]
      ensures fileType.GeneralType? && result.Some? ==>
                var s := old(fileList)[arg];
                fileList == old(fileList)[arg := s.(useCounting := s.useCounting + 1)][old(nextId) := General(name, arg)]
    {
      var file;
      match fileType {
        case DirectoryType =>
          file := Directory(name, []);
        case GeneralType =>
          file := General(name, arg);
          if arg !in fileList || !fileList[arg].Storage? {
            return None;
          }
          fileList := fileList[arg := fileList[arg].(useCounting := fileList[arg].useCounting + 1)];
        case StorageType =>
          file := Storage(name, arg, 0);
      }
      result := Some(nextId);
      fileList := fileList[nextId := file];
      nextId := nextId + 1;
    }

    /** A general file takes its storage file with it, whatever the count of its uses; without one the
        call throws when the general file has already been erased. */
    method RemoveFile(id: int) returns (thrown: bool)
      requires Valid()
      modifies this`fileList
      ensures Valid()
      ensures thrown <==> id in old(fileList) && old(fileList)[id].General? && !HasStorage(old(fileList), id)
      ensures id in old(fileList) && old(fileList)[id].General? && !thrown ==>
                fileList == old(fileList) - {id, old(fileList)[id].storageId}
      ensures !(id in old(fileList) && old(fileList)[id].General?) || thrown ==> fileList == old(fileList) - {id}
    {
      if id !in fileList {
        assert fileList == fileList - {id};
        return false;
      }
      var file := fileList[id];
      fileList := fileList - {id};
      if file.General? {
        if file.storageId !in fileList || !fileList[file.storageId].Storage? {
          return true;
        }
        var storage := fileList[file.storageId];
        fileList := fileList[file.storageId := storage.(useCounting := storage.useCounting - 1)];
        fileList := fileList - {file.storageId};
      }
      return false;
    }

    /** SharingDirectory::find_file. */
    method FindIn(list: seq<int>, name: Name) returns (id: int)
      ensures id == Find(fileList, list, name)
    {
      var i := 0;
      assert list[0..] == list;
      while i < |list|
        invariant 0 <= i <= |list| && Find(fileList, list, name) == Find(fileList, list[i..], name)
      {
        assert list[i..][0] == list[i] && list[i..][1..] == list[i + 1..];
        if list[i] in fileList && fileList[list[i]].name == name {
          return list[i];
        }
        i := i + 1;
      }
      return INVALID_ID;
    }

    /** Adds an id to a directory's list. */
    method PushBack(dir: int, id: int)
      requires Valid() && dir in fileList && fileList[dir].Directory?
      modifies this`fileList
      ensures Valid()
      ensures fileList == old(fileList)[dir := Directory(old(fileList)[dir].name, old(fileList)[dir].list + [id])]
    {
      var d := fileList[dir];
      fileList := fileList[dir := Directory(d.name, d.list + [id])];
    }

    /** SharingDirectory::remove_file. */
    method RemoveFrom(dir: int, id: int)
      requires Valid() && dir in fileList && fileList[dir].Directory?
      modifies this`fileList
      ensures Valid()
      ensures fileList == old(fileList)[dir := Directory(old(fileList)[dir].name, Filter(old(fileList)[dir].list, id))]
    {
      var d := fileList[dir];
      var kept, i := [], 0;
      assert d.list[0..] == d.list;
      while i < |d.list|
        invariant 0 <= i <= |d.list| && kept + Filter(d.list[i..], id) == Filter(d.list, id)
        invariant fileList == old(fileList)
      {
        FilterNext(kept, d.list, i, id);
        if d.list[i] != id {
          kept := kept + [d.list[i]];
        }
        i := i + 1;
      }
      assert d.list[i..] == [] && kept + [] == kept;
      assert kept == Filter(d.list, id);
      fileList := fileList[dir := Directory(d.name, kept)];
    }
  }

  lemma FilterNext(kept: seq<int>, list: seq<int>, i: nat, id: int)
    requires i < |list|
    ensures kept + Filter(list[i..], id) == (if list[i] == id then kept else kept + [list[i]]) + Filter(list[i + 1..], id)
  {
    assert list[i..][0] == list[i] && list[i..][1..] == list[i + 1..];
  }

  /** What get_file_id does, also on tables in which a directory is missing. */
  function Lookup(m: Files, from: int, path: Path): Result
    decreases |path|
  {
    if path == [] then Done(from)
    else if from !in m then FileNotExist
    else if !m[from].Directory? then Done(INVALID_ID)
    else
      var id := Find(m, m[from].list, path[0]);
      if id == INVALID_ID then Done(INVALID_ID) else Lookup(m, id, path[1..])
  }

  /** With a directory to start from, the result is where the path leads, or the invalid id. */
  lemma {:induction false} LookupResolves(m: Files, from: int, path: Path)
    requires from in m
    ensures Lookup(m, from, path)
         == Done(if Resolve(m, from, path).Some? then Resolve(m, from, path).value else INVALID_ID)
    decreases |path|
  {
    if path != [] && m[from].Directory? {
      var id := Find(m, m[from].list, path[0]);
      if id != INVALID_ID {
        LookupResolves(m, id, path[1..]);
      }
    }
  }

  class SharingGroup {
    const rootDirId: int
    const manager: SharingFileManager

    ghost predicate Valid()
      reads manager
    {
      manager.Valid()
    }

    constructor (rootDirId: int, manager: SharingFileManager)
      ensures this.rootDirId == rootDirId && this.manager == manager
    {
      this.rootDirId, this.manager := rootDirId, manager;
    }

    method GetFileId(path: Path) returns (result: Result)
      ensures result == Lookup(manager.fileList, rootDirId, path)
    {
      var parent, i := rootDirId, 0;
      assert path[0..] == path;
      while i < |path|
        invariant 0 <= i <= |path|
        invariant Lookup(manager.fileList, parent, path[i..]) == Lookup(manager.fileList, rootDirId, path)
      {
        assert path[i..][0] == path[i] && path[i..][1..] == path[i + 1..];
        if parent !in manager.fileList {
          return FileNotExist;
        }
        if !manager.fileList[parent].Directory? {
          return Done(INVALID_ID);
        }
        var id := manager.FindIn(manager.fileList[parent].list, path[i]);
        if id == INVALID_ID {
          return Done(INVALID_ID);
        }
        parent := id;
        i := i + 1;
      }
      return Done(parent);
    }

    method ExistPath(path: Path) returns (exist: bool)
      requires rootDirId in manager.fileList && Valid()
      ensures exist == Resolve(manager.fileList, rootDirId, path).Some?
    {
      LookupResolves(manager.fileList, rootDirId, path);
      var result := GetFileId(path);
      exist := result != Done(INVALID_ID);
      NeverInvalid(manager.fileList, rootDirId, path);
    }

    /** Missing directories are made on the way. */
    method CreatePath(path: Path) returns (result: Result)
      requires Valid() && rootDirId in manager.fileList
      modifies manager
      ensures Valid()
      ensures Outcome(manager.fileList, manager.nextId, result)
           == Create(old(manager.fileList), old(manager.nextId), rootDirId, path)
    {
      var parent, i := rootDirId, 0;
      assert path[0..] == path;
      while i < |path|
        invariant 0 <= i <= |path| && Valid() && parent in manager.fileList
        invariant Create(manager.fileList, manager.nextId, parent, path[i..])
               == Create(old(manager.fileList), old(manager.nextId), rootDirId, path)
      {
        assert path[i..][0] == path[i] && path[i..][1..] == path[i + 1..];
        if !manager.fileList[parent].Directory? {
          return NotDirectory;
        }
        var id := manager.FindIn(manager.fileList[parent].list, path[i]);
        if id == INVALID_ID {
          var newDirectory := manager.RegisterFile(DirectoryType, path[i], 0);
          manager.PushBack(parent, newDirectory.value);
          parent := newDirectory.value;
        } else {
          parent := id;
        }
        i := i + 1;
      }
      return Done(parent);
    }

    /** Removes what the path leads to. */
    method RemovePath(path: Path, ghost roots: set<int>) returns (result: Result)
      requires manager.fileList in Sound(manager.nextId, roots) && rootDirId in roots
      modifies manager`fileList
      ensures manager.fileList in Sound(manager.nextId, roots)
      ensures (manager.fileList, result) == Remove(old(manager.fileList), rootDirId, path)
    {
      ghost var m := manager.fileList;
      RemovePathKeepsSound(m, manager.nextId, roots, rootDirId, path);
      LocateResolves(m, manager.nextId, roots, rootDirId, rootDirId, path);
      var previous, parent, i := rootDirId, rootDirId, 0;
      assert path[0..] == path;
      while i < |path|
        invariant 0 <= i <= |path| && parent in m && manager.fileList == m
        invariant Locate(m, previous, parent, path[i..]) == Locate(m, rootDirId, rootDirId, path)
      {
        assert path[i..][0] == path[i] && path[i..][1..] == path[i + 1..];
        if !manager.fileList[parent].Directory? {
          return NotDirectory;
        }
        var id := manager.FindIn(manager.fileList[parent].list, path[i]);
        previous := parent;
        if id == INVALID_ID {
          return FileNotExist;
        }
        parent := id;
        i := i + 1;
      }
      if parent == rootDirId {
        return CannotRemoveRoot;
      }
      Removable(m, manager.nextId, roots, previous, parent);
      var thrown := manager.RemoveFile(parent);
      manager.RemoveFrom(previous, parent);
      return Done(parent);
    }

    /** The file part of a put session for a new file: both files are registered before the directory
        is looked at. */
    method PutNewFile(dir: Path, name: Name, node: int) returns (result: PutResult)
      requires Valid() && rootDirId in manager.fileList
      modifies manager
      ensures Valid()
      ensures (manager.fileList, manager.nextId, result)
           == PutNew(old(manager.fileList), old(manager.nextId), rootDirId, dir, name, node)
    {
      ghost var m := manager.fileList;
      var dirExists := ExistPath(dir);
      if !dirExists {
        return PathNotExist;
      }
      var taken := ExistPath(dir + [name]);
      if taken {
        return PathAlreadyExist;
      }
      var found := GetFileId(dir);
      LookupResolves(m, rootDirId, dir);
      ResolvedExists(m, rootDirId, dir);
      var storageFile := manager.RegisterFile(StorageType, name, node);
      var generalFile := manager.RegisterFile(GeneralType, name, storageFile.value);
      assert manager.fileList == RegisterPair(m, old(manager.nextId), name, node);
      var d := found.id;
      if !manager.fileList[d].Directory? {
        return GroupNotDirectory;
      }
      manager.PushBack(d, generalFile.value);
      return Put(generalFile.value);
    }
  }

  lemma NeverInvalid(m: Files, root: int, path: Path)
    requires root in m && root != INVALID_ID && INVALID_ID !in m
    ensures Resolve(m, root, path).Some? ==> Resolve(m, root, path).value != INVALID_ID
  {
    if Resolve(m, root, path).Some? {
      ResolvedExists(m, root, path);
    }
  }

  /** What is listed can be removed, and its directory stays. */
  lemma Removable(m: Files, nextId: int, roots: set<int>, parent: int, id: int)
    requires m in Sound(nextId, roots) && Lists(m, parent, id)
    ensures id in m && (m[id].General? ==> GeneralOk(m, id)) && IdsOk(m, nextId)
    ensures var m1 := ForestChanges.RemoveFile(m, id);
            parent in m1 && m1[parent] == m[parent] && m1[parent].Directory?
  {
    assert DirectoryOk(m, parent);
    assert m[id].General? ==> GeneralOk(m, id);
  }
}
