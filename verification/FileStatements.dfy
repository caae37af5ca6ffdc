/** The statements that the file gateway builds, on the rows of a File table in whatever
    order the database holds them: running one gives the rows of the table afterwards. */
module FileStatements {
  import opened Text
  import opened FileModel
  import opened FileTable
  import opened SqlGrammar
  import FileSql

  /** The rows of the table, each once, in some order. */
  ghost predicate Holds(files: seq<File>, t: Table) {
    KeysMatch(t) && AnswerOf(files, t.Keys, t)
  }

  /** In whatever order: the rows determine the table. */
  lemma HeldTable(files: seq<File>, t: Table, u: Table)
    requires Holds(files, t) && Holds(files, u)
    ensures t == u
  {
    forall id | id in t.Keys ensures id in u.Keys && t[id] == u[id] {
      assert HasId(files, id);
    }
    forall id | id in u.Keys ensures id in t.Keys {
      assert HasId(files, id);
    }
  }

  /** Rows changed in place are the rows of the changed table. */
  lemma ChangedInPlace(files: seq<File>, after: seq<File>, t: Table, u: Table)
    requires Holds(files, t) && u.Keys == t.Keys && |after| == |files|
    requires forall i :: 0 <= i < |files| ==> after[i].fileId == files[i].fileId && after[i] == u[files[i].fileId]
    ensures Holds(after, u)
  {
    forall id | id in u ensures u[id].fileId == id && id != "" && HasId(after, id) {
      assert HasId(files, id);
      var i :| 0 <= i < |files| && files[i].fileId == id;
      assert after[i].fileId == id;
    }
  }

  /** DeleteFiles */
  method RunDelete(owner: string, ids: seq<string>, at: int, files: seq<File>, ghost t: Table) returns (after: seq<File>)
    requires |ids| > 0 && Holds(files, t)
    ensures Holds(after, Delete(t, owner, ids, at))
  {
    after := FileSql.ExecuteDelete(owner, ids, at, files);
    ChangedInPlace(files, after, t, Delete(t, owner, ids, at));
  }

  /** UpdateUploadStatus and, with a time, the completion's UpdateFile: what the statement
      makes of the rows, the index refuses or the table holds afterwards. */
  method RunStatus(owner: string, id: string, status: UploadStatus, touched: Option<int>, files: seq<File>, ghost t: Table)
    returns (after: seq<File>)
    requires Holds(files, t)
    ensures SetStatus(t, owner, id, status, touched).Some? ==> Holds(after, SetStatus(t, owner, id, status, touched).value)
    ensures SetStatus(t, owner, id, status, touched).None? ==>
              Owned(t, owner, id) && Rejected(t, FileSql.WithStatus(t[id], status, touched))
              && Holds(after, t[id := FileSql.WithStatus(t[id], status, touched)])
  {
    after := FileSql.ExecuteStatus(owner, id, status, touched, files);
    ghost var u := if Owned(t, owner, id) then t[id := FileSql.WithStatus(t[id], status, touched)] else t;
    ChangedInPlace(files, after, t, u);
  }

  /** Appending rows with new ids is inserting them one by one. */
  lemma {:induction false} InsertHolds(files: seq<File>, added: seq<File>, t: Table)
    requires Holds(files, t) && Insert(t, added).Some? && forall i :: 0 <= i < |added| ==> added[i].fileId != ""
    ensures Holds(files + added, Insert(t, added).value)
    decreases |added|
  {
    if |added| == 0 {
      assert files + added == files;
    } else {
      OneMoreHolds(files, added[0], t);
      InsertHolds(files + [added[0]], added[1..], t[added[0].fileId := added[0]]);
      assert files + [added[0]] + added[1..] == files + added;
    }
  }

  lemma OneMoreHolds(files: seq<File>, f: File, t: Table)
    requires Holds(files, t) && f.fileId !in t && f.fileId != ""
    ensures Holds(files + [f], t[f.fileId := f])
  {
    var all, u := files + [f], t[f.fileId := f];
    forall id | id in u.Keys ensures HasId(all, id) {
      if id == f.fileId {
        assert all[|files|].fileId == id;
      } else {
        assert HasId(files, id);
        var i :| 0 <= i < |files| && files[i].fileId == id;
        assert all[i].fileId == id;
      }
    }
  }

  /** AddFile: the batch statement of a call that the table does not refuse, run and
      scanned, adds its rows to those that were there. */
  method RunAdd(added: seq<File>, files: seq<File>, ghost t: Table) returns (after: seq<File>)
    requires |added| > 0 && Holds(files, t) && forall i :: 0 <= i < |added| ==> added[i].fileId != ""
    requires Insert(t, added).Some?
    ensures Holds(after, Insert(t, added).value)
  {
    var text, args := FileSql.BuildAddFile(added);
    var rows := RunInsert(text, args);
    FileSql.BatchInsertIsFaithful(added);
    var scanned := FileSql.ScanAll(rows.value, added);
    after := files + scanned;
    InsertHolds(files, added, t);
  }
}
