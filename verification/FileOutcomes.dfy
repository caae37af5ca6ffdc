/** What each statement leaves in the File table, column by column, and when the table
    refuses it. */
module FileOutcomes {
  import opened Text
  import opened FileModel
  import opened FileTable

  /** Every row but id is as before, and id still has its row. */
  ghost predicate OnlyRow(t: Table, u: Table, id: string) {
    id in t && u.Keys == t.Keys && forall k :: k in t && k != id ==> u[k] == t[k]
  }

  /** The columns that no rename touches. */
  predicate SameButName(f: File, g: File) {
    && g.ownerId == f.ownerId && g.fileType == f.fileType && g.fileId == f.fileId && g.extension == f.extension
    && g.parentId == f.parentId && g.path == f.path && g.size == f.size && g.deletedOn == f.deletedOn
    && g.uploadStatus == f.uploadStatus
  }

  /** Some other row is a pending or completed file with this hash. */
  ghost predicate HashTaken(t: Table, id: string, hash: string) {
    exists k :: k in t && k != id && t[k].fileType == Regular && t[k].uploadStatus != Failed && t[k].uniqueHash == hash
  }

  /** A rename of a file or a folder of the account gives the row the new name, the time
      and the hash of its new parts, and changes nothing else; it is refused exactly when
      the row is a pending or completed file and another such file has that hash. */
  lemma RenameOutcome(sha: Sha, t: Table, owner: string, id: string, newName: string, now: int)
    requires KeysMatch(t) && id in t && t[id].ownerId == owner
    ensures var f := t[id]; var u := Apply(sha, t, RenameFile(owner, id, newName, now));
            var hash := sha(f.ownerId + newName + f.extension + f.parentId);
            if f.fileType == Regular && f.uploadStatus != Failed && HashTaken(t, id, hash)
            then Rename(sha, t, owner, id, newName, now).None? && u == t
            else
              && Rename(sha, t, owner, id, newName, now).Some? && OnlyRow(t, u, id)
              && u[id].name == newName && u[id].modifiedOn == now && u[id].uniqueHash == hash && SameButName(f, u[id])
  {
    var f := t[id];
    var g := Renamed(sha, f, newName, now);
    assert g.fileId == id;
    if f.fileType == Regular && f.uploadStatus != Failed && HashTaken(t, id, g.uniqueHash) {
      var k :| k in t && k != id && t[k].fileType == Regular && t[k].uploadStatus != Failed && t[k].uniqueHash == g.uniqueHash;
      assert Clash(g, t[k]);
    }
  }

  /** Two accepted renames of one row end alike only when name and time were the same. */
  lemma RenameTellsApart(sha: Sha, t: Table, owner: string, id: string, a: string, b: string, now: int, later: int)
    requires KeysMatch(t) && id in t && t[id].ownerId == owner
    requires Rename(sha, t, owner, id, a, now).Some? && Rename(sha, t, owner, id, b, later).Some?
    ensures Apply(sha, t, RenameFile(owner, id, a, now)) == Apply(sha, t, RenameFile(owner, id, b, later)) <==> a == b && now == later
  {
    RenameOutcome(sha, t, owner, id, a, now);
    RenameOutcome(sha, t, owner, id, b, later);
  }

  lemma RenameForeign(sha: Sha, t: Table, owner: string, id: string, newName: string, now: int)
    requires id in t ==> t[id].ownerId != owner
    ensures Apply(sha, t, RenameFile(owner, id, newName, now)) == t
  {
  }

  /** The ids that a delete really changes. */
  function Marked(t: Table, owner: string, ids: seq<string>, at: int): set<string> {
    set id | id in ids && id in t && t[id].ownerId == owner && t[id].deletedOn != Some(at)
  }

  /** A delete sets the time in the named rows of the account, whether they were deleted
      before or not, and changes nothing else. */
  lemma DeleteOutcome(sha: Sha, t: Table, owner: string, ids: seq<string>, at: int)
    ensures var u := Apply(sha, t, DeleteFiles(owner, ids, at));
            && u.Keys == t.Keys && ChangedRows(t, u) == Marked(t, owner, ids, at)
            && forall id :: id in t ==>
                 u[id] == if id in ids && t[id].ownerId == owner then t[id].(deletedOn := Some(at)) else t[id]
  {
    var u := Apply(sha, t, DeleteFiles(owner, ids, at));
    forall id | id in t ensures t[id] != u[id] <==> id in Marked(t, owner, ids, at) {
    }
  }

  /** A restore makes the named rows of the account live; each keeps its parent when that
      is a live row, and goes to the root otherwise; nothing else changes. */
  lemma RestoreOutcome(sha: Sha, t: Table, owner: string, ids: seq<string>)
    ensures var u := Apply(sha, t, RestoreFiles(owner, ids));
            && u.Keys == t.Keys
            && forall id :: id in t ==>
                 if id in ids && t[id].ownerId == owner
                 then u[id] == t[id].(deletedOn := None,
                                      parentId := if t[id].parentId in t && t[t[id].parentId].deletedOn == None then t[id].parentId else "")
                 else u[id] == t[id]
  {
  }

  /** A status change sets the status of one row of the account and, when given, its time;
      it is refused exactly when the row would count and another file has its hash. */
  lemma StatusOutcome(sha: Sha, t: Table, owner: string, id: string, status: UploadStatus, touched: Option<int>)
    requires KeysMatch(t) && id in t && t[id].ownerId == owner
    ensures var f := t[id]; var u := Apply(sha, t, UpdateStatus(owner, id, status, touched));
            if f.fileType == Regular && status != Failed && HashTaken(t, id, f.uniqueHash)
            then SetStatus(t, owner, id, status, touched).None? && u == t
            else
              && SetStatus(t, owner, id, status, touched).Some? && OnlyRow(t, u, id)
              && u[id] == f.(uploadStatus := status, modifiedOn := if touched.Some? then touched.value else f.modifiedOn)
  {
    var f := t[id].(uploadStatus := status);
    var g := if touched.Some? then f.(modifiedOn := touched.value) else f;
    if f.fileType == Regular && status != Failed && HashTaken(t, id, f.uniqueHash) {
      var k :| k in t && k != id && t[k].fileType == Regular && t[k].uploadStatus != Failed && t[k].uniqueHash == f.uniqueHash;
      assert Clash(g, t[k]);
    }
  }

  // -------------------------------------------------------------- new rows

  /** Two rows that the table does not hold beside each other: one id, or one hash of
      pending or completed files. */
  predicate Excludes(f: File, g: File) {
    f.fileId == g.fileId
    || (f.fileType == Regular && f.uploadStatus != Failed && g.fileType == Regular && g.uploadStatus != Failed
        && f.uniqueHash == g.uniqueHash)
  }

  ghost predicate FitsTable(t: Table, files: seq<File>) {
    forall i, k :: 0 <= i < |files| && k in t ==> !Excludes(files[i], t[k])
  }

  ghost predicate FitsTogether(files: seq<File>) {
    forall i, j :: 0 <= i < j < |files| ==> !Excludes(files[i], files[j])
  }

  /** A batch is accepted exactly when none of its files excludes a row or another of the
      batch; then its files are the new rows, and the others are as before. */
  lemma {:induction false} InsertOutcome(t: Table, files: seq<File>)
    requires KeysMatch(t) && forall i :: 0 <= i < |files| ==> files[i].fileId != ""
    ensures Insert(t, files).Some? <==> FitsTable(t, files) && FitsTogether(files)
    ensures Insert(t, files).Some? ==>
            var u := Insert(t, files).value;
            && (forall k :: k in u <==> k in t || HasId(files, k)) && (forall k :: k in t ==> u[k] == t[k])
            && forall i :: 0 <= i < |files| ==> u[files[i].fileId] == files[i]
    decreases |files|
  {
    if |files| > 0 {
      var f, rest := files[0], files[1..];
      var u := t[f.fileId := f];
      RefusedIff(t, f);
      if f.fileId !in t && !Rejected(t, f) {
        InsertOutcome(u, rest);
        RestFits(t, files, u);
        RestHasId(files);
      } else {
        var k :| k in t && Excludes(f, t[k]);
        assert Excludes(files[0], t[k]);
      }
    }
  }

  lemma RestHasId(files: seq<File>)
    requires |files| > 0
    ensures forall k :: HasId(files, k) <==> k == files[0].fileId || HasId(files[1..], k)
  {
    forall k | HasId(files[1..], k) ensures HasId(files, k) {
      var i :| 0 <= i < |files[1..]| && files[1..][i].fileId == k;
      assert files[i + 1].fileId == k;
    }
    forall k | HasId(files, k) && k != files[0].fileId ensures HasId(files[1..], k) {
      var i :| 0 <= i < |files| && files[i].fileId == k;
      assert files[1..][i - 1].fileId == k;
    }
  }

  lemma RefusedIff(t: Table, f: File)
    requires KeysMatch(t)
    ensures f.fileId in t || Rejected(t, f) <==> exists k :: k in t && Excludes(f, t[k])
  {
    if f.fileId in t {
      assert Excludes(f, t[f.fileId]);
    } else if Rejected(t, f) {
      var k :| k in t && k != f.fileId && Clash(f, t[k]);
      assert Excludes(f, t[k]);
    } else if k :| k in t && Excludes(f, t[k]) {
      assert Clash(f, t[k]);
    }
  }

  /** The rest of a batch fits beside the first file's row when the whole fits. */
  lemma RestFits(t: Table, files: seq<File>, u: Table)
    requires |files| > 0 && u == t[files[0].fileId := files[0]] && files[0].fileId !in t
    requires forall k :: k in t ==> !Excludes(files[0], t[k])
    ensures FitsTable(u, files[1..]) && FitsTogether(files[1..]) <==> FitsTable(t, files) && FitsTogether(files)
  {
    var rest := files[1..];
    if FitsTable(t, files) && FitsTogether(files) {
      assert FitsTable(u, rest) by {
        forall i, k | 0 <= i < |rest| && k in u ensures !Excludes(rest[i], u[k]) {
          assert !Excludes(files[0], files[i + 1]);
        }
      }
    }
    if FitsTable(u, rest) && FitsTogether(rest) {
      WholeFits(t, files, u);
    }
  }

  lemma WholeFits(t: Table, files: seq<File>, u: Table)
    requires |files| > 0 && u == t[files[0].fileId := files[0]] && files[0].fileId !in t
    requires forall k :: k in t ==> !Excludes(files[0], t[k])
    requires FitsTable(u, files[1..]) && FitsTogether(files[1..])
    ensures FitsTable(t, files) && FitsTogether(files)
  {
    var rest := files[1..];
    forall i, k | 0 <= i < |files| && k in t ensures !Excludes(files[i], t[k]) {
      if i > 0 {
        assert !Excludes(rest[i - 1], u[k]);
      }
    }
    forall i, j | 0 <= i < j < |files| ensures !Excludes(files[i], files[j]) {
      if i > 0 {
        assert !Excludes(rest[i - 1], rest[j - 1]);
      } else {
        assert !Excludes(rest[j - 1], u[files[0].fileId]);
      }
    }
  }
}
