/** The client's folder cache and the server's table, changed side by side by the
    actions of one client. */
module FileStore {
  import opened Text
  import opened FileModel
  import FT = FileTable
  import Upload

  /** The cached entries by folder id; the root is "", the bin has a key of its own. */
  type Store = map<string, seq<File>>

  const TRASH := "trash"

  /** Array.sort: some rearrangement of the entries. */
  type Sorter = seq<File> -> seq<File>

  ghost predicate Rearranges(order: Sorter) {
    forall s :: multiset(order(s)) == multiset(s)
  }

  // ------------------------------------------------------------ store actions

  function GetFiles(st: Store, key: string): seq<File> {
    if key in st then st[key] else []
  }

  function SetFiles(st: Store, key: string, answer: seq<File>): Store {
    if key in st then st else st[key := answer]
  }

  function AddFileResponse(order: Sorter, st: Store, f: File, key: string): Store {
    st[key := order(GetFiles(st, key) + [f])]
  }

  function Without(files: seq<File>, id: string): seq<File> {
    if |files| == 0 then [] else (if files[0].fileId != id then [files[0]] else []) + Without(files[1..], id)
  }

  function RemoveFile(st: Store, id: string, key: string): Store {
    if HasId(GetFiles(st, key), id) then st[key := Without(GetFiles(st, key), id)] else st
  }

  /** The first entry with f's id becomes f; without one f is appended. */
  function ReplaceFirst(files: seq<File>, f: File): seq<File> {
    if |files| == 0 then [f]
    else if files[0].fileId == f.fileId then [f] + files[1..]
    else [files[0]] + ReplaceFirst(files[1..], f)
  }

  function ReplaceFile(st: Store, f: File, key: string): Store
    requires key in st
  {
    st[key := ReplaceFirst(st[key], f)]
  }

  /** When the sort arranges the entries, a folder is arranged after every add. */
  lemma AddedIsArranged(order: Sorter, arranged: seq<File> -> bool, st: Store, f: File, key: string)
    requires Rearranges(order) && forall s :: arranged(order(s))
    ensures var entries := GetFiles(AddFileResponse(order, st, f, key), key);
            arranged(entries) && multiset(entries) == multiset(if key in st then st[key] else []) + multiset{f}
  {
  }

  lemma {:induction false} ReplacedAt(files: seq<File>, f: File, i: nat)
    requires i < |files| && files[i].fileId == f.fileId && forall j :: 0 <= j < i ==> files[j].fileId != f.fileId
    ensures ReplaceFirst(files, f) == files[i := f]
  {
    if i > 0 {
      ReplacedAt(files[1..], f, i - 1);
      assert [files[0]] + files[1..][i - 1 := f] == files[i := f];
    }
  }

  lemma {:induction false} ReplacedNowhere(files: seq<File>, f: File)
    requires !HasId(files, f.fileId)
    ensures ReplaceFirst(files, f) == files + [f]
  {
    if |files| > 0 {
      forall j | 0 <= j < |files[1..]| ensures files[1..][j].fileId != f.fileId {
        assert files[j + 1].fileId != f.fileId;
      }
      ReplacedNowhere(files[1..], f);
      assert files + [f] == [files[0]] + (files[1..] + [f]);
    }
  }

  /** f is the first entry with its id. */
  ghost predicate FirstWithId(files: seq<File>, f: File) {
    exists i :: 0 <= i < |files| && files[i] == f && forall j :: 0 <= j < i ==> files[j].fileId != f.fileId
  }

  /** The store as it is kept: each action replaces the record of files. */
  class FileStore {
    var files: Store

    constructor ()
      ensures files == map[]
    {
      files := map[];
    }

    method SetFolder(key: string, answer: seq<File>)
      modifies this
      ensures files == SetFiles(old(files), key, answer)
    {
      if key in files {
        return;
      }
      files := files[key := answer];
    }

    method AddResponse(order: Sorter, f: File, key: string)
      modifies this
      ensures files == AddFileResponse(order, old(files), f, key)
    {
      var copied := GetFiles(files, key);
      copied := copied + [f];
      copied := order(copied);
      files := files[key := copied];
    }

    method Replace(f: File, key: string)
      requires key in files
      modifies this
      ensures files == ReplaceFile(old(files), f, key)
    {
      var copied := files[key];
      var found := false;
      var i := 0;
      while i < |copied|
        invariant 0 <= i <= |copied| && !found && copied == files[key]
        invariant forall j :: 0 <= j < i ==> copied[j].fileId != f.fileId
      {
        if copied[i].fileId == f.fileId {
          ReplacedAt(copied, f, i);
          found := true;
          copied := copied[i := f];
          break;
        }
        i := i + 1;
      }
      if !found {
        ReplacedNowhere(copied, f);
        copied := copied + [f];
      }
      files := files[key := copied];
    }

    method Remove(id: string, key: string) returns (target: Option<File>)
      modifies this
      ensures files == RemoveFile(old(files), id, key)
      ensures target.Some? <==> HasId(GetFiles(old(files), key), id)
      ensures target.Some? ==> target.value.fileId == id && FirstWithId(GetFiles(old(files), key), target.value)
    {
      var entries := GetFiles(files, key);
      target := None;
      var i := 0;
      while i < |entries| && target.None?
        invariant 0 <= i <= |entries|
        invariant if target.None? then forall j :: 0 <= j < i ==> entries[j].fileId != id
                  else target.value.fileId == id && FirstWithId(entries, target.value)
      {
        if entries[i].fileId == id {
          assert entries[i].fileId == id && forall j :: 0 <= j < i ==> entries[j].fileId != entries[i].fileId;
          target := Some(entries[i]);
        }
        i := i + 1;
      }
      if target.Some? {
        files := files[key := Without(entries, id)];
      }
    }
  }
}
