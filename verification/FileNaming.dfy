/** Exactly when file names stay unique. The index compares hashes, so it does not see a
    row whose hash went stale when a restore moved it; what such a row can break is
    decided here for every statement and for whole runs. */
module FileNaming {
  import opened Text
  import opened FileModel
  import opened FileTable
  import opened FileUniqueness

  /** A counted row whose hash is not that of its own fields. */
  predicate Stale(sha: Sha, f: File) {
    Counted(f) && !HashOk(sha, f)
  }

  /** A row that the restore moves to the root. */
  predicate Moved(t: Table, owner: string, ids: seq<string>, id: string) {
    Owned(t, owner, id) && id in ids && RestoredParent(t, t[id]) != t[id].parentId
  }

  predicate SameFileName(f: File, g: File) {
    f.ownerId == g.ownerId && f.name == g.name && f.extension == g.extension
  }

  /** No counted row that moves meets a counted namesake that is in the root afterwards. */
  ghost predicate RestoreSafe(t: Table, owner: string, ids: seq<string>) {
    forall a, b ::
      (a in t && b in t && a != b && Counted(t[a]) && Counted(t[b])
       && Moved(t, owner, ids, a) && (t[b].parentId == "" || Moved(t, owner, ids, b)))
      ==> !SameFileName(t[a], t[b])
  }

  /** A restore keeps names unique exactly when it is safe. */
  lemma RestoreUniqueIff(t: Table, owner: string, ids: seq<string>)
    requires UniqueNames(t)
    ensures UniqueNames(Restore(t, owner, ids)) <==> RestoreSafe(t, owner, ids)
  {
    var u := Restore(t, owner, ids);
    if RestoreSafe(t, owner, ids) {
      forall a, b | a in u && b in u && a != b && Counted(u[a]) && Counted(u[b]) ensures !SameName(u[a], u[b]) {
        assert a in t && b in t && !SameName(t[a], t[b]);
      }
    }
    if UniqueNames(u) {
      forall a, b | a in t && b in t && a != b && Counted(t[a]) && Counted(t[b]) && Moved(t, owner, ids, a)
        && (t[b].parentId == "" || Moved(t, owner, ids, b)) ensures !SameFileName(t[a], t[b])
      {
        assert a in u && b in u && !SameName(u[a], u[b]);
      }
    }
  }

  /** Counted and up-to-date namesakes have the same hash, so the index sees them. */
  lemma NamesakesClash(sha: Sha, f: File, g: File)
    requires Counted(f) && Counted(g) && SameName(f, g) && HashOk(sha, f) && HashOk(sha, g)
    ensures Clash(f, g)
  {
  }

  /** No counted row beside id has g's name with one of the two hashes stale. */
  ghost predicate NoStaleNamesake(sha: Sha, t: Table, id: string, g: File) {
    forall k :: k in t && k != id && Counted(t[k]) && (Stale(sha, t[k]) || Stale(sha, g)) ==> !SameName(t[k], g)
  }

  /** A row that the index lets in keeps names unique exactly when it has no namesake
      that the index could not see. */
  lemma ReplaceUniqueIff(sha: Sha, t: Table, g: File)
    requires UniqueNames(t) && KeysMatch(t) && !Rejected(t, g)
    ensures UniqueNames(t[g.fileId := g]) <==> Counted(g) ==> NoStaleNamesake(sha, t, g.fileId, g)
  {
    var u := t[g.fileId := g];
    if Counted(g) ==> NoStaleNamesake(sha, t, g.fileId, g) {
      forall a, b | a in u && b in u && a != b && Counted(u[a]) && Counted(u[b]) ensures !SameName(u[a], u[b]) {
        if a == g.fileId {
          NotNamesake(sha, t, g, b);
        } else if b == g.fileId {
          NotNamesake(sha, t, g, a);
        } else {
          assert !SameName(t[a], t[b]);
        }
      }
    }
    if UniqueNames(u) && Counted(g) {
      forall k | k in t && k != g.fileId && Counted(t[k]) ensures !SameName(t[k], g) {
        assert k in u && g.fileId in u && !SameName(u[k], u[g.fileId]);
      }
    }
  }

  lemma NotNamesake(sha: Sha, t: Table, g: File, k: string)
    requires !Rejected(t, g) && Counted(g) && NoStaleNamesake(sha, t, g.fileId, g) && k in t && k != g.fileId && Counted(t[k])
    ensures !SameName(g, t[k]) && !SameName(t[k], g)
  {
    if HashOk(sha, g) && HashOk(sha, t[k]) && SameName(g, t[k]) {
      NamesakesClash(sha, g, t[k]);
    }
  }

  /** No counted file of the batch has the name of a stale row. */
  ghost predicate BatchSafe(sha: Sha, t: Table, files: seq<File>) {
    forall i, k :: 0 <= i < |files| && k in t && Counted(files[i]) && Stale(sha, t[k]) ==> !SameName(t[k], files[i])
  }

  /** An accepted batch keeps names unique exactly when it is safe. */
  lemma {:induction false} InsertUniqueIff(sha: Sha, t: Table, files: seq<File>)
    requires KeysMatch(t) && FreshRows(t, files) && Insert(t, files).Some?
    requires forall i :: 0 <= i < |files| ==> HashOk(sha, files[i])
    requires UniqueNames(t)
    ensures UniqueNames(Insert(t, files).value) <==> BatchSafe(sha, t, files)
    decreases |files|
  {
    if |files| > 0 {
      var f, rest := files[0], files[1..];
      var u := t[f.fileId := f];
      ReplaceUniqueIff(sha, t, f);
      if UniqueNames(u) {
        InsertUniqueIff(sha, u, rest);
        BatchSplit(sha, t, f, rest);
        assert files == [f] + rest;
      } else {
        InsertKeepsRows(u, rest);
        StaysShared(u, Insert(u, rest).value);
        var k :| k in t && k != f.fileId && Counted(t[k]) && Stale(sha, t[k]) && SameName(t[k], f);
        assert !BatchSafe(sha, t, files) by { assert files[0] == f; }
      }
    }
  }

  lemma BatchSplit(sha: Sha, t: Table, f: File, rest: seq<File>)
    requires f.fileId !in t && HashOk(sha, f) && (Counted(f) ==> NoStaleNamesake(sha, t, f.fileId, f))
    ensures BatchSafe(sha, t[f.fileId := f], rest) <==> BatchSafe(sha, t, [f] + rest)
  {
    var u, all := t[f.fileId := f], [f] + rest;
    if BatchSafe(sha, u, rest) {
      forall i, k | 0 <= i < |all| && k in t && Counted(all[i]) && Stale(sha, t[k]) ensures !SameName(t[k], all[i]) {
        if i > 0 {
          assert all[i] == rest[i - 1] && u[k] == t[k];
        }
      }
    }
    if BatchSafe(sha, t, all) {
      forall i, k | 0 <= i < |rest| && k in u && Counted(rest[i]) && Stale(sha, u[k]) ensures !SameName(u[k], rest[i]) {
        assert all[i + 1] == rest[i];
      }
    }
  }

  lemma InsertKeepsRows(t: Table, files: seq<File>)
    requires Insert(t, files).Some?
    ensures forall id :: id in t ==> id in Insert(t, files).value && Insert(t, files).value[id] == t[id]
  {
    InsertConserves(t, files);
  }

  lemma StaysShared(t: Table, u: Table)
    requires !UniqueNames(t) && forall id :: id in t ==> id in u && u[id] == t[id]
    ensures !UniqueNames(u)
  {
    var a, b :| a in t && b in t && a != b && Counted(t[a]) && Counted(t[b]) && SameName(t[a], t[b]);
    assert a in u && b in u;
  }

  // --------------------------------------------------------------- whole runs

  /** What a caller can check on the table before a statement. */
  ghost predicate SafeStep(sha: Sha, t: Table, s: Step) {
    match s
    case AddFiles(files) => Insert(t, files).Some? ==> BatchSafe(sha, t, files)
    case RenameFile(owner, id, newName, now) =>
      Owned(t, owner, id) && Counted(t[id]) && !Rejected(t, Renamed(sha, t[id], newName, now)) ==>
        forall k :: k in t && k != id && Stale(sha, t[k]) ==> !SameName(t[k], t[id].(name := newName))
    case DeleteFiles(_, _, _) => true
    case RestoreFiles(owner, ids) => RestoreSafe(t, owner, ids)
    case UpdateStatus(owner, id, status, _) =>
      Owned(t, owner, id) && status != Failed && !Rejected(t, t[id].(uploadStatus := status)) ==>
        Counted(t[id].(uploadStatus := status)) ==> NoStaleNamesake(sha, t, id, t[id].(uploadStatus := status))
  }

  /** Every statement keeps names unique exactly when it is safe. */
  lemma StepUniqueIff(sha: Sha, t: Table, s: Step)
    requires UniqueNames(t) && KeysMatch(t) && FreshStep(t, s) && HashedStep(sha, s)
    ensures UniqueNames(Apply(sha, t, s)) <==> SafeStep(sha, t, s)
  {
    match s
    case AddFiles(files) =>
      if Insert(t, files).Some? {
        InsertUniqueIff(sha, t, files);
      }
    case RenameFile(owner, id, newName, now) => RenameUniqueIff(sha, t, owner, id, newName, now);
    case DeleteFiles(owner, ids, at) => DeleteUnique(t, Apply(sha, t, s));
    case RestoreFiles(owner, ids) =>
      RestoreUniqueIff(t, owner, ids);
    case UpdateStatus(owner, id, status, touched) => StatusUniqueIff(sha, t, owner, id, status, touched);
  }

  lemma RenameUniqueIff(sha: Sha, t: Table, owner: string, id: string, newName: string, now: int)
    requires UniqueNames(t) && KeysMatch(t)
    ensures UniqueNames(Apply(sha, t, RenameFile(owner, id, newName, now)))
       <==> SafeStep(sha, t, RenameFile(owner, id, newName, now))
  {
    if Owned(t, owner, id) && !Rejected(t, Renamed(sha, t[id], newName, now)) {
      ReplaceUniqueIff(sha, t, Renamed(sha, t[id], newName, now));
    }
  }

  lemma DeleteUnique(t: Table, u: Table)
    requires UniqueNames(t) && t.Keys == u.Keys && forall id :: id in t ==> u[id].(deletedOn := None) == t[id].(deletedOn := None)
    ensures UniqueNames(u)
  {
    forall a, b | a in u && b in u && a != b && Counted(u[a]) && Counted(u[b]) ensures !SameName(u[a], u[b]) {
      assert a in t && b in t && !SameName(t[a], t[b]);
    }
  }

  lemma StatusUniqueIff(sha: Sha, t: Table, owner: string, id: string, status: UploadStatus, touched: Option<int>)
    requires UniqueNames(t) && KeysMatch(t)
    ensures UniqueNames(Apply(sha, t, UpdateStatus(owner, id, status, touched)))
       <==> SafeStep(sha, t, UpdateStatus(owner, id, status, touched))
  {
    if Owned(t, owner, id) {
      var f := t[id].(uploadStatus := status);
      var g := if touched.Some? then f.(modifiedOn := touched.value) else f;
      assert Rejected(t, g) == Rejected(t, f);
      if !Rejected(t, g) {
        ReplaceUniqueIff(sha, t, g);
      }
    }
  }

  /** Names are unique now and after every later statement. */
  ghost predicate AlwaysUnique(sha: Sha, t: Table, steps: seq<Step>)
    decreases |steps|
  {
    UniqueNames(t) && (|steps| > 0 ==> AlwaysUnique(sha, Apply(sha, t, steps[0]), steps[1..]))
  }

  ghost predicate AlwaysSafe(sha: Sha, t: Table, steps: seq<Step>)
    decreases |steps|
  {
    |steps| > 0 ==> SafeStep(sha, t, steps[0]) && AlwaysSafe(sha, Apply(sha, t, steps[0]), steps[1..])
  }

  ghost predicate HashedRun(sha: Sha, steps: seq<Step>) {
    forall k :: 0 <= k < |steps| ==> HashedStep(sha, steps[k])
  }

  /** Over every run, moving restores included, names are unique all along exactly when
      every statement was safe when it came. */
  lemma {:induction false} RunUniqueIff(sha: Sha, t: Table, steps: seq<Step>)
    requires UniqueNames(t) && KeysMatch(t) && Indexed(t) && FreshRun(sha, t, steps) && HashedRun(sha, steps)
    ensures AlwaysUnique(sha, t, steps) <==> AlwaysSafe(sha, t, steps)
    decreases |steps|
  {
    if |steps| > 0 {
      var u := Apply(sha, t, steps[0]);
      StepUniqueIff(sha, t, steps[0]);
      StepKeepsIndex(sha, t, steps[0]);
      if UniqueNames(u) {
        RunUniqueIff(sha, u, steps[1..]);
      }
    }
  }
}
