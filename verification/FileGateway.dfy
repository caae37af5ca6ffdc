/** The file gateway: the File table as a mutable object. Each operation is one
    statement of FileTable, with the error it reports. */
module FileGateway {
  import opened Text
  import opened FileModel
  import opened FileTable
  import FileForest
  import FileListing
  import FileOutcomes

  datatype GatewayError = NoFileArgs | Duplicate | NotFound | NoAffectedRows | SqlError | ServerError | FileDoesNotExist
  datatype Outcome<+T> = Ok(value: T) | Err(error: GatewayError)

  class Gateway {
    const sha: Sha
    var rows: Table

    /** What every operation keeps, whatever its arguments. */
    ghost predicate Valid()
      reads this
    {
      KeysMatch(rows) && Indexed(rows) && FileForest.Acyclic(rows)
    }

    constructor (sha: Sha)
      ensures this.sha == sha && rows == map[] && Valid()
    {
      this.sha, rows := sha, map[];
      new;
      assert FileForest.Ranked(rows, map[]);
    }

    /** One INSERT for the whole batch: all rows or none. */
    method AddFile(files: seq<File>) returns (r: Outcome<()>)
      requires Valid() && FreshRows(rows, files)
      modifies this
      ensures Valid() && rows == Apply(sha, old(rows), AddFiles(files))
      ensures r == if |files| == 0 then Err(NoFileArgs)
                   else if Insert(old(rows), files).None? then Err(Duplicate) else Ok(())
    {
      Kept(AddFiles(files));
      if |files| == 0 {
        return Err(NoFileArgs);
      }
      var added := rows;
      for i := 0 to |files|
        invariant rows == old(rows)
        invariant Insert(added, files[i..]) == Insert(rows, files)
      {
        assert files[i..][1..] == files[i + 1..];
        if files[i].fileId in added || Rejected(added, files[i]) {
          return Err(Duplicate);
        }
        added := added[files[i].fileId := files[i]];
      }
      rows := added;
      r := Ok(());
    }

    lemma Kept(s: Step)
      requires Valid() && FreshStep(rows, s)
      ensures var t := Apply(sha, rows, s); KeysMatch(t) && Indexed(t) && FileForest.Acyclic(t)
    {
      StepKeepsIndex(sha, rows, s);
      FileForest.StepKeepsAcyclic(sha, rows, s);
    }

    function GetFile(owner: string, id: string): Option<File>
      reads this
    {
      if Owned(rows, owner, id) then Some(rows[id]) else None
    }

    method RenameFile(owner: string, id: string, newName: string, now: int) returns (r: Outcome<File>)
      requires Valid()
      modifies this
      ensures Valid() && rows == Apply(sha, old(rows), FileTable.RenameFile(owner, id, newName, now))
      ensures r == if !Owned(old(rows), owner, id) then Err(NotFound)
                   else if Rename(sha, old(rows), owner, id, newName, now).None? then Err(Duplicate)
                   else Ok(rows[id])
      ensures r.Ok? ==>
                && FileOutcomes.OnlyRow(old(rows), rows, id) && FileOutcomes.SameButName(old(rows)[id], r.value)
                && r.value.name == newName && r.value.modifiedOn == now
    {
      Kept(FileTable.RenameFile(owner, id, newName, now));
      if Owned(rows, owner, id) {
        var f := rows[id].(name := newName, modifiedOn := now,
                           uniqueHash := sha(owner + newName + rows[id].extension + rows[id].parentId));
        if Rejected(rows, f) {
          return Err(Duplicate);
        }
        rows := rows[id := f];
      }
      var fi := GetFile(owner, id);
      r := if fi.None? then Err(NotFound) else Ok(fi.value);
    }

    /** The number of rows really changed. */
    method DeleteFiles(owner: string, ids: seq<string>, at: int) returns (r: Outcome<int>)
      requires Valid()
      modifies this
      ensures Valid() && rows == Apply(sha, old(rows), FileTable.DeleteFiles(owner, ids, at))
      ensures r == if |ids| == 0 then Err(ServerError) else Ok(|FileOutcomes.Marked(old(rows), owner, ids, at)|)
    {
      Kept(FileTable.DeleteFiles(owner, ids, at));
      if |ids| == 0 {
        return Err(ServerError);
      }
      var before := rows;
      rows := Delete(rows, owner, ids, at);
      FileOutcomes.DeleteOutcome(sha, before, owner, ids, at);
      r := Ok(|ChangedRows(before, rows)|);
    }

    /** The committed UPDATE and its number of affected rows. */
    method ExecuteRestore(owner: string, ids: seq<string>) returns (n: int)
      requires Valid() && |ids| > 0
      modifies this
      ensures Valid() && rows == Apply(sha, old(rows), RestoreFiles(owner, ids))
      ensures n == |ChangedRows(old(rows), rows)|
    {
      var before := rows;
      RestoreRows(owner, ids);
      n := |ChangedRows(before, rows)|;
    }

    method RestoreRows(owner: string, ids: seq<string>)
      requires Valid() && |ids| > 0
      modifies this
      ensures Valid() && rows == Apply(sha, old(rows), RestoreFiles(owner, ids))
    {
      Kept(RestoreFiles(owner, ids));
      assert Apply(sha, rows, RestoreFiles(owner, ids)) == Restore(rows, owner, ids);
      rows := Restore(rows, owner, ids);
    }

    /** The rows are restored and committed before their number is compared with the
        number of ids: an error does not mean that nothing was restored. */
    method RestoreDeletedFiles(owner: string, ids: seq<string>) returns (r: Outcome<map<string, File>>)
      requires Valid()
      modifies this
      ensures Valid() && rows == Apply(sha, old(rows), RestoreFiles(owner, ids))
      ensures r == RestoreAnswer(old(rows), owner, ids)
    {
      if |ids| == 0 {
        return Err(SqlError);
      }
      var n := ExecuteRestore(owner, ids);
      if n != |ids| {
        return Err(NoAffectedRows);
      }
      r := Ok(RowsAmong(rows, owner, ids));
    }

    /** A single-row UPDATE, unless the index refuses it. */
    method UpdateRow(f: File) returns (ok: bool)
      modifies this
      ensures ok == !Rejected(old(rows), f)
      ensures rows == if ok then old(rows)[f.fileId := f] else old(rows)
    {
      ok := !Rejected(rows, f);
      if ok {
        rows := rows[f.fileId := f];
      }
    }

    method UpdateUploadStatus(owner: string, id: string, status: UploadStatus, touched: Option<int>) returns (r: Outcome<()>)
      requires Valid()
      modifies this
      ensures Valid() && rows == Apply(sha, old(rows), UpdateStatus(owner, id, status, touched))
      ensures r == if SetStatus(old(rows), owner, id, status, touched).Some? then Ok(()) else Err(SqlError)
    {
      Kept(UpdateStatus(owner, id, status, touched));
      var ok := true;
      if Owned(rows, owner, id) {
        var f := rows[id].(uploadStatus := status);
        f := if touched.Some? then f.(modifiedOn := touched.value) else f;
        ok := UpdateRow(f);
      }
      r := if ok then Ok(()) else Err(SqlError);
    }

    /** The rows of a folder, each once; there is an answer exactly for the root and for
        the rows of the account, and a live row is in one answer at most. */
    method GetFilesByParent(owner: string, parent: string) returns (r: Outcome<seq<File>>)
      requires Valid()
      ensures r.Ok? <==> parent == "" || Owned(rows, owner, parent)
      ensures r.Err? ==> r.error == FileDoesNotExist
      ensures r.Ok? ==> AnswerOf(r.value, Listing(rows, owner, parent), rows)
      ensures r.Ok? ==> forall id :: HasId(r.value, id) <==> FileListing.ListedIn(rows, owner, parent, id)
    {
      if parent != "" && !Owned(rows, owner, parent) {
        return Err(FileDoesNotExist);
      }
      var files := FileListing.SelectRows(rows, owner, parent);
      r := Ok(files);
    }

    method GetBreadcrumbs(owner: string, folder: string) returns (crumbs: seq<FileForest.Crumb>)
      requires Valid()
      ensures if Owned(rows, owner, folder) && rows[folder].fileType == Dir
              then FileForest.PathTo(rows, crumbs, folder) else crumbs == []
    {
      crumbs := FileForest.GetBreadcrumbs(rows, owner, folder);
    }
  }

  /** What RestoreDeletedFiles reports. */
  function RestoreAnswer(t: Table, owner: string, ids: seq<string>): Outcome<map<string, File>> {
    var u := Restore(t, owner, ids);
    if |ids| == 0 then Err(SqlError)
    else if |ChangedRows(t, u)| != |ids| then Err(NoAffectedRows)
    else Ok(RowsAmong(u, owner, ids))
  }

  /** The id names a row of the owner that was deleted or loses its parent. */
  predicate Restorable(t: Table, owner: string, id: string) {
    Owned(t, owner, id) && (t[id].deletedOn.Some? || RestoredParent(t, t[id]) != t[id].parentId)
  }

  predicate Distinct(ids: seq<string>) {
    forall i, j :: 0 <= i < j < |ids| ==> ids[i] != ids[j]
  }

  lemma RestoredChanges(t: Table, owner: string, ids: seq<string>)
    ensures ChangedRows(t, Restore(t, owner, ids)) == set id | id in ids && Restorable(t, owner, id)
  {
  }

  /** A restore reports success exactly when the ids are distinct and each names a row of
      the owner that was deleted or loses its parent. */
  lemma RestoreSucceedsIff(t: Table, owner: string, ids: seq<string>)
    ensures RestoreAnswer(t, owner, ids).Ok? <==>
            ids != [] && Distinct(ids) && forall i :: 0 <= i < |ids| ==> Restorable(t, owner, ids[i])
    ensures RestoreAnswer(t, owner, ids).Err? ==>
              RestoreAnswer(t, owner, ids).error == if ids == [] then SqlError else NoAffectedRows
  {
    var changed, named := ChangedRows(t, Restore(t, owner, ids)), set id | id in ids;
    RestoredChanges(t, owner, ids);
    NamesSize(ids);
    assert named == changed + (named - changed);
    if |changed| == |ids| {
      SubsetOfSameSize(changed, named);
      forall i | 0 <= i < |ids| ensures Restorable(t, owner, ids[i]) {
        assert ids[i] in changed;
      }
    }
    if forall i :: 0 <= i < |ids| ==> Restorable(t, owner, ids[i]) {
      assert changed == named;
    }
  }

  /** When it succeeds a restore answers with the named rows, each once: as they are in the
      table now, live, in the root or in a live row, and otherwise as they were deleted. */
  lemma RestoreAnswers(sha: Sha, t: Table, owner: string, ids: seq<string>)
    requires KeysMatch(t) && RestoreAnswer(t, owner, ids).Ok?
    ensures var answer, u := RestoreAnswer(t, owner, ids).value, Apply(sha, t, RestoreFiles(owner, ids));
            && (forall id :: id in answer <==> id in ids)
            && forall id :: id in answer ==> id in t && id in u && answer[id] == u[id] && Restored(t, u, owner, answer[id])
  {
    RestoreSucceedsIff(t, owner, ids);
    forall id | id in ids ensures Owned(t, owner, id) && Restored(t, Restore(t, owner, ids), owner, Restore(t, owner, ids)[id]) {
      var i :| 0 <= i < |ids| && ids[i] == id;
      assert Restorable(t, owner, id);
      RestoredRow(sha, t, owner, ids, id);
    }
  }

  /** The row f as a restore of t to u leaves it. */
  ghost predicate Restored(t: Table, u: Table, owner: string, f: File) {
    && f.fileId in t && f == t[f.fileId].(deletedOn := None, parentId := f.parentId)
    && f.ownerId == owner && f.deletedOn == None
    && (f.parentId == "" || (f.parentId in u && u[f.parentId].deletedOn == None))
    && (f.parentId == t[f.fileId].parentId || f.parentId == "")
  }

  lemma RestoredRow(sha: Sha, t: Table, owner: string, ids: seq<string>, id: string)
    requires KeysMatch(t) && Owned(t, owner, id) && id in ids
    ensures Restored(t, Restore(t, owner, ids), owner, Restore(t, owner, ids)[id])
  {
    FileOutcomes.RestoreOutcome(sha, t, owner, ids);
  }

  /** A restore leaves the table as it was exactly when no id names such a row. */
  lemma RestoreUnchangedIff(t: Table, owner: string, ids: seq<string>)
    ensures Restore(t, owner, ids) == t <==> forall i :: 0 <= i < |ids| ==> !Restorable(t, owner, ids[i])
  {
    var u := Restore(t, owner, ids);
    RestoredChanges(t, owner, ids);
    if forall i :: 0 <= i < |ids| ==> !Restorable(t, owner, ids[i]) {
      assert ChangedRows(t, u) == {};
      forall id | id in t ensures u[id] == t[id] {
        assert id !in ChangedRows(t, u);
      }
    } else {
      var i :| 0 <= i < |ids| && Restorable(t, owner, ids[i]);
      assert ids[i] in ChangedRows(t, u);
    }
  }

  /** An error is reported and rows were restored all the same exactly when some id names
      such a row, and an id is repeated or another does not. */
  lemma ErrorRestoresIff(sha: Sha, t: Table, owner: string, ids: seq<string>)
    ensures RestoreAnswer(t, owner, ids).Err? && Apply(sha, t, RestoreFiles(owner, ids)) != t <==>
            && (exists i :: 0 <= i < |ids| && Restorable(t, owner, ids[i]))
            && (!Distinct(ids) || exists i :: 0 <= i < |ids| && !Restorable(t, owner, ids[i]))
  {
    RestoreSucceedsIff(t, owner, ids);
    RestoreUnchangedIff(t, owner, ids);
  }

  /** Naming a deleted file twice is such a call: it comes back, and an error is reported. */
  lemma RepeatedIdRestores(sha: Sha, t: Table, owner: string, id: string)
    requires Owned(t, owner, id) && t[id].deletedOn.Some?
    ensures var u := Apply(sha, t, RestoreFiles(owner, [id, id]));
            RestoreAnswer(t, owner, [id, id]) == Err(NoAffectedRows) && u != t && Live(u, id)
  {
    var ids := [id, id];
    assert ids[0] == ids[1] == id && Restorable(t, owner, ids[0]);
    ErrorRestoresIff(sha, t, owner, ids);
  }

  lemma {:induction false} NamesSize(ids: seq<string>)
    ensures |(set id | id in ids)| <= |ids| && (|(set id | id in ids)| == |ids| <==> Distinct(ids))
  {
    if |ids| > 0 {
      var rest := ids[1..];
      NamesSize(rest);
      assert (set id | id in ids) == (set id | id in rest) + {ids[0]};
      if ids[0] in rest {
        var j :| 0 <= j < |rest| && rest[j] == ids[0];
        assert ids[j + 1] == ids[0];
        assert (set id | id in ids) == (set id | id in rest);
      } else {
        DistinctTail(ids);
      }
    }
  }

  lemma DistinctTail(ids: seq<string>)
    requires |ids| > 0 && ids[0] !in ids[1..]
    ensures Distinct(ids) <==> Distinct(ids[1..])
  {
    if Distinct(ids[1..]) {
      forall i, j | 0 <= i < j < |ids| ensures ids[i] != ids[j] {
        assert ids[j] == ids[1..][j - 1];
      }
    } else {
      var i, j :| 0 <= i < j < |ids[1..]| && ids[1..][i] == ids[1..][j];
      assert ids[i + 1] == ids[j + 1];
    }
  }

  lemma SubsetOfSameSize(a: set<string>, b: set<string>)
    requires a <= b && |a| == |b|
    ensures a == b
  {
    assert b == a + (b - a);
    assert |b - a| == 0;
  }
}
