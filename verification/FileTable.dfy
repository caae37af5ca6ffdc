/** The File table: what each statement of the file gateway does to it. */
module FileTable {
  import opened Text
  import opened FileModel

  /** Rows by primary key. */
  type Table = map<string, File>

  ghost predicate KeysMatch(t: Table) {
    forall id :: id in t ==> t[id].fileId == id && id != ""
  }

  /** FileUniqueIndex: the hash of a regular file that is completed or pending. */
  function IndexKey(f: File): Option<string> {
    if f.fileType == Regular && f.uploadStatus != Failed then Some(f.uniqueHash) else None
  }

  predicate Clash(f: File, g: File) {
    IndexKey(f).Some? && IndexKey(f) == IndexKey(g)
  }

  /** No two rows share an index key. */
  ghost predicate Indexed(t: Table) {
    forall a, b :: a in t && b in t && a != b ==> !Clash(t[a], t[b])
  }

  /** The index rejects f as the row with key f.fileId. */
  predicate Rejected(t: Table, f: File) {
    exists id :: id in t && id != f.fileId && Clash(f, t[id])
  }

  // -------------------------------------------------------------- statements

  /** Inserting rows one by one; None rolls the whole statement back. */
  function Insert(t: Table, files: seq<File>): Option<Table>
    decreases |files|
  {
    if |files| == 0 then Some(t)
    else if files[0].fileId in t || Rejected(t, files[0]) then None
    else Insert(t[files[0].fileId := files[0]], files[1..])
  }

  lemma InsertOne(t: Table, f: File)
    ensures Insert(t, [f]) == if f.fileId in t || Rejected(t, f) then None else Some(t[f.fileId := f])
  {
    assert [f][1..] == [];
  }

  predicate Owned(t: Table, owner: string, id: string) {
    id in t && t[id].ownerId == owner
  }

  function Renamed(sha: Sha, f: File, newName: string, now: int): File {
    f.(name := newName, uniqueHash := sha(HashInput(f.ownerId, newName, f.extension, f.parentId)), modifiedOn := now)
  }

  /** A single-row update; None is a duplicate error and changes nothing. */
  function Replace(t: Table, f: File): Option<Table> {
    if Rejected(t, f) then None else Some(t[f.fileId := f])
  }

  function Rename(sha: Sha, t: Table, owner: string, id: string, newName: string, now: int): Option<Table> {
    if Owned(t, owner, id) then Replace(t, Renamed(sha, t[id], newName, now)) else Some(t)
  }

  function SetStatus(t: Table, owner: string, id: string, status: UploadStatus, now: Option<int>): Option<Table> {
    if Owned(t, owner, id) then
      var f := t[id].(uploadStatus := status);
      Replace(t, if now.Some? then f.(modifiedOn := now.value) else f)
    else Some(t)
  }

  function Delete(t: Table, owner: string, ids: seq<string>, at: int): Table {
    map id | id in t :: if t[id].ownerId == owner && id in ids then t[id].(deletedOn := Some(at)) else t[id]
  }

  predicate Live(t: Table, id: string) {
    id in t && t[id].deletedOn == None
  }

  /** The joined row p is looked up in the table as it was before the update. */
  function RestoredParent(t: Table, f: File): string {
    if Live(t, f.parentId) then f.parentId else ""
  }

  function Restore(t: Table, owner: string, ids: seq<string>): Table {
    map id | id in t ::
      if t[id].ownerId == owner && id in ids then t[id].(deletedOn := None, parentId := RestoredParent(t, t[id])) else t[id]
  }

  /** Rows that an update really changed (RowsAffected). */
  function ChangedRows(t: Table, u: Table): set<string> {
    set id | id in t && id in u && t[id] != u[id]
  }

  // ------------------------------------------------------------------ queries

  function Trash(t: Table, owner: string): set<string> {
    set id | id in t && t[id].ownerId == owner && t[id].deletedOn.Some?
  }

  /** GetFiles: the owner's rows among the given ids. */
  function RowsAmong(t: Table, owner: string, ids: seq<string>): map<string, File> {
    map id | id in t && t[id].ownerId == owner && id in ids :: t[id]
  }

  function Listing(t: Table, owner: string, parent: string): set<string> {
    set id | id in t && t[id].ownerId == owner && t[id].parentId == parent && t[id].deletedOn == None
  }

  /** A query's answer: each of these rows once, in some order. */
  ghost predicate AnswerOf(files: seq<File>, ids: set<string>, t: Table) {
    && DistinctIds(files)
    && (forall i :: 0 <= i < |files| ==> files[i].fileId in ids && files[i].fileId in t && files[i] == t[files[i].fileId])
    && (forall id :: id in ids ==> HasId(files, id))
  }

  // --------------------------------------------------------------------- runs

  datatype Step =
    | AddFiles(files: seq<File>)
    | RenameFile(owner: string, id: string, newName: string, now: int)
    | DeleteFiles(owner: string, ids: seq<string>, at: int)
    | RestoreFiles(owner: string, ids: seq<string>)
    | UpdateStatus(owner: string, id: string, status: UploadStatus, touched: Option<int>)

  /** A rejected statement leaves the table as it was. */
  function Apply(sha: Sha, t: Table, s: Step): Table {
    match s
    case AddFiles(files) => var r := Insert(t, files); if r.Some? then r.value else t
    case RenameFile(o, id, name, now) => var r := Rename(sha, t, o, id, name, now); if r.Some? then r.value else t
    case DeleteFiles(o, ids, at) => if |ids| == 0 then t else Delete(t, o, ids, at)
    case RestoreFiles(o, ids) => if |ids| == 0 then t else Restore(t, o, ids)
    case UpdateStatus(o, id, st, now) => var r := SetStatus(t, o, id, st, now); if r.Some? then r.value else t
  }

  function Run(sha: Sha, t: Table, steps: seq<Step>): Table
    decreases |steps|
  {
    if |steps| == 0 then t else Run(sha, Apply(sha, t, steps[0]), steps[1..])
  }

  /** The id of a new row was drawn freshly: nothing mentions it yet. */
  ghost predicate FreshRow(t: Table, f: File) {
    f.fileId != "" && f.fileId !in t && f.fileId != f.parentId
    && forall id :: id in t ==> t[id].parentId != f.fileId
  }

  ghost predicate FreshRows(t: Table, files: seq<File>)
    decreases |files|
  {
    |files| > 0 ==> FreshRow(t, files[0]) && FreshRows(t[files[0].fileId := files[0]], files[1..])
  }

  ghost predicate FreshStep(t: Table, s: Step) {
    s.AddFiles? ==> FreshRows(t, s.files)
  }

  /** Every id added along the run is fresh when it is added. */
  ghost predicate FreshRun(sha: Sha, t: Table, steps: seq<Step>)
    decreases |steps|
  {
    |steps| > 0 ==> FreshStep(t, steps[0]) && FreshRun(sha, Apply(sha, t, steps[0]), steps[1..])
  }

  // -------------------------------------------------------- the index, always

  lemma {:induction false} InsertKeepsIndex(t: Table, files: seq<File>)
    requires Indexed(t) && KeysMatch(t) && FreshRows(t, files) && Insert(t, files).Some?
    ensures Indexed(Insert(t, files).value) && KeysMatch(Insert(t, files).value)
    decreases |files|
  {
    if |files| > 0 {
      var f := files[0];
      ReplaceKeepsIndex(t, f);
      InsertKeepsIndex(t[f.fileId := f], files[1..]);
    }
  }

  lemma ReplaceKeepsIndex(t: Table, f: File)
    requires Indexed(t) && KeysMatch(t) && f.fileId != "" && !Rejected(t, f)
    ensures Indexed(t[f.fileId := f]) && KeysMatch(t[f.fileId := f])
  {
    var u := t[f.fileId := f];
    forall a, b | a in u && b in u && a != b ensures !Clash(u[a], u[b]) {
      if a == f.fileId {
        assert b in t && b != f.fileId;
      } else if b == f.fileId {
        assert a in t && u[a] == t[a];
      }
    }
  }

  /** Every statement keeps the unique index and the primary key. */
  lemma StepKeepsIndex(sha: Sha, t: Table, s: Step)
    requires Indexed(t) && KeysMatch(t) && FreshStep(t, s)
    ensures Indexed(Apply(sha, t, s)) && KeysMatch(Apply(sha, t, s))
  {
    match s
    case AddFiles(files) =>
      if Insert(t, files).Some? {
        InsertKeepsIndex(t, files);
      }
    case RenameFile(o, id, name, now) =>
      if Owned(t, o, id) && !Rejected(t, Renamed(sha, t[id], name, now)) {
        ReplaceKeepsIndex(t, Renamed(sha, t[id], name, now));
      }
    case DeleteFiles(o, ids, at) => SameKeysIndexed(t, Delete(t, o, ids, at));
    case RestoreFiles(o, ids) => SameKeysIndexed(t, Restore(t, o, ids));
    case UpdateStatus(o, id, st, now) =>
      if Owned(t, o, id) {
        var f := t[id].(uploadStatus := st);
        var g := if now.Some? then f.(modifiedOn := now.value) else f;
        if !Rejected(t, g) {
          ReplaceKeepsIndex(t, g);
        }
      }
  }

  /** The index looks at type, status and hash only. */
  lemma SameKeysIndexed(t: Table, u: Table)
    requires Indexed(t) && t.Keys == u.Keys
    requires forall id :: id in t ==> IndexKey(t[id]) == IndexKey(u[id])
    ensures Indexed(u)
  {
    forall a, b | a in u && b in u && a != b ensures !Clash(u[a], u[b]) {
      assert !Clash(t[a], t[b]);
    }
  }

  lemma {:induction false} RunKeepsIndex(sha: Sha, t: Table, steps: seq<Step>)
    requires Indexed(t) && KeysMatch(t) && FreshRun(sha, t, steps)
    ensures Indexed(Run(sha, t, steps)) && KeysMatch(Run(sha, t, steps))
    decreases |steps|
  {
    if |steps| > 0 {
      StepKeepsIndex(sha, t, steps[0]);
      RunKeepsIndex(sha, Apply(sha, t, steps[0]), steps[1..]);
    }
  }

  // ------------------------------------------------------------- conservation

  /** Every row is still there with its owner and its type. */
  ghost predicate Conserved(t: Table, u: Table) {
    forall id :: id in t ==> id in u && u[id].ownerId == t[id].ownerId && u[id].fileType == t[id].fileType
  }

  lemma {:induction false} InsertConserves(t: Table, files: seq<File>)
    requires Insert(t, files).Some?
    ensures forall id :: id in t ==> id in Insert(t, files).value && Insert(t, files).value[id] == t[id]
    decreases |files|
  {
    if |files| > 0 {
      InsertConserves(t[files[0].fileId := files[0]], files[1..]);
    }
  }

  lemma StepConserves(sha: Sha, t: Table, s: Step)
    requires KeysMatch(t)
    ensures Conserved(t, Apply(sha, t, s))
  {
    match s
    case AddFiles(files) =>
      if Insert(t, files).Some? {
        InsertConserves(t, files);
      }
    case RenameFile(o, id, name, now) =>
    case DeleteFiles(o, ids, at) =>
    case RestoreFiles(o, ids) =>
    case UpdateStatus(o, id, st, touched) =>
  }

  lemma ConservedTransitive(t: Table, u: Table, w: Table)
    requires Conserved(t, u) && Conserved(u, w)
    ensures Conserved(t, w)
  {
  }

  /** No step ever removes a row or changes its owner or type. */
  lemma {:induction false} RunConserves(sha: Sha, t: Table, steps: seq<Step>)
    requires KeysMatch(t) && Indexed(t) && FreshRun(sha, t, steps)
    ensures Conserved(t, Run(sha, t, steps))
    decreases |steps|
  {
    if |steps| > 0 {
      var u := Apply(sha, t, steps[0]);
      StepConserves(sha, t, steps[0]);
      StepKeepsIndex(sha, t, steps[0]);
      RunConserves(sha, u, steps[1..]);
      ConservedTransitive(t, u, Run(sha, t, steps));
    }
  }

  /** After a restore every named row is live, in the root or in a live row. */
  lemma RestoreMakesLive(t: Table, owner: string, ids: seq<string>)
    ensures var u := Restore(t, owner, ids);
            forall id :: Owned(t, owner, id) && id in ids ==>
              Live(u, id) && (u[id].parentId == "" || Live(u, u[id].parentId))
  {
  }

  lemma DeletedOne(t: Table, owner: string, id: string, at: int)
    requires Owned(t, owner, id)
    ensures Delete(t, owner, [id], at) == t[id := t[id].(deletedOn := Some(at))]
  {
  }

  lemma RestoredOne(t: Table, owner: string, id: string)
    requires Owned(t, owner, id)
    ensures Restore(t, owner, [id]) == t[id := t[id].(deletedOn := None, parentId := RestoredParent(t, t[id]))]
  {
  }

  /** Deleting a live row and restoring it gives the row back exactly when it was in
      the root or its parent is live. */
  lemma DeleteThenRestore(t: Table, owner: string, id: string, at: int)
    requires Owned(t, owner, id) && Live(t, id) && t[id].parentId != id && "" !in t
    ensures Restore(Delete(t, owner, [id], at), owner, [id]) == t
       <==> t[id].parentId == "" || Live(t, t[id].parentId)
  {
    DeletedOne(t, owner, id, at);
    var d := t[id := t[id].(deletedOn := Some(at))];
    RestoredOne(d, owner, id);
    var row := t[id].(parentId := RestoredParent(d, d[id]));
    assert Live(d, t[id].parentId) <==> Live(t, t[id].parentId);
    assert d[id := row] == t[id := row];
    assert t[id := row] == t <==> row == t[id];
  }
}
