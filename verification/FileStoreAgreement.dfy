/** The folder cache and the server agree: one client acting alone, over any sequence
    of its actions. */
module FileStoreAgreement {
  import opened Text
  import opened FileModel
  import FT = FileTable
  import opened FileStore
  import Upload

  /** pending holds the files being uploaded, lost those whose upload was given up;
      neither is put in the cache. */
  datatype Both = Both(store: Store, loaded: set<string>, rows: FT.Table, pending: map<string, File>, lost: set<string>)

  datatype Action =
    | Visit(folder: string, answer: seq<File>)
    | VisitTrash(answer: seq<File>)
    | AddFolder(folder: string, entry: File)
    | BeginUpload(folder: string, entry: File)
    | FinishUpload(id: string, at: int)
    | GiveUp(id: string)
    | RenameFile(folder: string, id: string, newName: string, at: int)
    | DeleteFile(folder: string, entry: File, at: int)
    | RestoreFile(entry: File)

  function Stored(r: Option<FT.Table>, t: FT.Table): FT.Table {
    if r.Some? then r.value else t
  }

  function Act(order: Sorter, sha: Sha, owner: string, b: Both, a: Action): Both {
    match a
    case Visit(folder, answer) => b.(store := SetFiles(b.store, folder, answer), loaded := b.loaded + {folder})
    case VisitTrash(answer) => b.(store := b.store[TRASH := answer])
    case AddFolder(folder, entry) =>
      var r := FT.Insert(b.rows, [entry]);
      if r.Some? then b.(rows := r.value, store := AddFileResponse(order, b.store, entry, folder)) else b
    case BeginUpload(folder, entry) =>
      var r := FT.Insert(b.rows, [entry]);
      if r.Some? then b.(rows := r.value, pending := b.pending[entry.fileId := entry]) else b
    case FinishUpload(id, at) =>
      if id !in b.pending then b
      else
        var done := b.pending[id].(uploadStatus := Completed);
        b.(rows := Stored(FT.SetStatus(b.rows, owner, id, Completed, Some(at)), b.rows),
           store := AddFileResponse(order, b.store, done, done.parentId), pending := b.pending - {id})
    case GiveUp(id) =>
      if id !in b.pending then b
      else
        b.(rows := Stored(FT.SetStatus(b.rows, owner, id, Failed, None), b.rows),
           pending := b.pending - {id}, lost := b.lost + {id})
    case RenameFile(folder, id, newName, at) =>
      var r := FT.Rename(sha, b.rows, owner, id, newName, at);
      if Upload.IsBlank(newName) || r.None? || id !in r.value then b
      else if folder in b.store then b.(rows := r.value, store := ReplaceFile(b.store, r.value[id], folder))
      else b.(rows := r.value)
    case DeleteFile(folder, entry, at) =>
      b.(rows := FT.Delete(b.rows, owner, [entry.fileId], at), store := RemoveFile(b.store, entry.fileId, entry.parentId))
    case RestoreFile(entry) =>
      var rows := FT.Restore(b.rows, owner, [entry.fileId]);
      if entry.fileId in rows then
        b.(rows := rows,
           store := AddFileResponse(order, RemoveFile(b.store, entry.fileId, TRASH), rows[entry.fileId], rows[entry.fileId].parentId))
      else b
  }

  // --------------------------------------------------------------- agreement

  /** What a listing shows of a file. */
  predicate SameEntry(f: File, g: File) {
    f.fileId == g.fileId && f.name == g.name && f.fileType == g.fileType && f.parentId == g.parentId
    && f.uploadStatus == g.uploadStatus
  }

  /** The entries are one for each visible row, and show it as it is. */
  ghost predicate Shows(files: seq<File>, visible: set<string>, t: FT.Table) {
    && DistinctIds(files)
    && (forall i :: 0 <= i < |files| ==> files[i].fileId in visible && files[i].fileId in t && SameEntry(files[i], t[files[i].fileId]))
    && (forall id :: id in visible ==> HasId(files, id))
  }

  /** The rows a loaded folder should show. */
  function Visible(b: Both, owner: string, folder: string): set<string> {
    FT.Listing(b.rows, owner, folder) - b.pending.Keys - b.lost
  }

  // ---------------------------------------------------- one entry at a time

  lemma ShowsSame(files: seq<File>, visible: set<string>, t: FT.Table, u: FT.Table)
    requires Shows(files, visible, t) && forall id :: id in visible && id in t ==> id in u && u[id] == t[id]
    ensures Shows(files, visible, u)
  {
  }

  lemma {:induction false} WithoutSpec(files: seq<File>, id: string)
    requires DistinctIds(files)
    ensures DistinctIds(Without(files, id))
    ensures forall f :: f in Without(files, id) <==> f in files && f.fileId != id
  {
    if |files| > 0 {
      WithoutSpec(files[1..], id);
      var rest := Without(files[1..], id);
      assert files == [files[0]] + files[1..];
      if files[0].fileId != id {
        var all := [files[0]] + rest;
        forall j | 0 <= j < |rest| ensures rest[j].fileId != files[0].fileId {
          assert rest[j] in files[1..];
          var k :| 0 <= k < |files[1..]| && files[1..][k] == rest[j];
          assert files[k + 1] == rest[j];
        }
        assert all[0] == files[0] && forall j :: 0 < j < |all| ==> all[j] == rest[j - 1];
      }
    }
  }

  lemma ShowsRemoved(files: seq<File>, visible: set<string>, t: FT.Table, u: FT.Table, id: string)
    requires Shows(files, visible, t)
    requires forall k :: k in visible && k != id && k in t ==> k in u && u[k] == t[k]
    ensures Shows(Without(files, id), visible - {id}, u)
  {
    WithoutSpec(files, id);
    var rest := Without(files, id);
    forall i | 0 <= i < |rest|
      ensures rest[i].fileId in visible - {id} && rest[i].fileId in u && SameEntry(rest[i], u[rest[i].fileId])
    {
      assert rest[i] in files;
    }
    forall k | k in visible - {id} ensures HasId(rest, k) {
      var i :| 0 <= i < |files| && files[i].fileId == k;
      assert files[i] in rest;
    }
  }

  lemma OnceAtMost(s: seq<File>, x: File)
    requires DistinctIds(s)
    ensures multiset(s)[x] <= 1
  {
    if x in s {
      var k :| 0 <= k < |s| && s[k] == x;
      assert s == s[..k] + [x] + s[k + 1..];
      assert x !in s[..k] && x !in s[k + 1..];
    }
  }

  lemma TwiceAtLeast(t: seq<File>, i: nat, j: nat)
    requires i < j < |t| && t[i] == t[j]
    ensures multiset(t)[t[i]] >= 2
  {
    assert t == t[..j] + t[j..];
    assert t[..j][i] == t[i] && t[j..][0] == t[i];
    assert t[i] in multiset(t[..j]) && t[i] in multiset(t[j..]);
  }

  /** Sorting neither repeats nor loses an entry. */
  lemma Rearranged(s: seq<File>, t: seq<File>)
    requires multiset(s) == multiset(t) && DistinctIds(s)
    ensures DistinctIds(t) && forall f :: f in t <==> f in s
  {
    forall f ensures f in t <==> f in s {
      assert f in multiset(t) <==> f in multiset(s);
    }
    forall i, j | 0 <= i < j < |t| ensures t[i].fileId != t[j].fileId {
      assert t[i] in s && t[j] in s;
      OnceAtMost(s, t[i]);
      if t[i] == t[j] {
        TwiceAtLeast(t, i, j);
      }
    }
  }

  lemma ShowsAdded(order: Sorter, files: seq<File>, visible: set<string>, t: FT.Table, u: FT.Table, f: File)
    requires Rearranges(order) && Shows(files, visible, t) && f.fileId !in visible && f.fileId in u && SameEntry(f, u[f.fileId])
    requires forall k :: k in visible && k in t ==> k in u && u[k] == t[k]
    ensures Shows(order(files + [f]), visible + {f.fileId}, u)
  {
    var all := files + [f];
    assert DistinctIds(all);
    Rearranged(all, order(all));
    forall i | 0 <= i < |order(all)|
      ensures order(all)[i].fileId in visible + {f.fileId} && order(all)[i].fileId in u && SameEntry(order(all)[i], u[order(all)[i].fileId])
    {
      assert order(all)[i] in all;
    }
    forall k | k in visible + {f.fileId} ensures HasId(order(all), k) {
      if k == f.fileId {
        assert all[|files|] == f;
        assert f in order(all);
      } else {
        var i :| 0 <= i < |files| && files[i].fileId == k;
        assert all[i] == files[i];
        assert files[i] in order(all);
      }
    }
  }

  lemma {:induction false} ReplacedSpec(files: seq<File>, f: File)
    requires HasId(files, f.fileId)
    ensures |ReplaceFirst(files, f)| == |files|
    ensures DistinctIds(files) ==> forall i :: 0 <= i < |files| ==>
              ReplaceFirst(files, f)[i] == if files[i].fileId == f.fileId then f else files[i]
  {
    if files[0].fileId != f.fileId {
      var k :| 0 <= k < |files| && files[k].fileId == f.fileId;
      assert files[1..][k - 1].fileId == f.fileId;
      ReplacedSpec(files[1..], f);
    }
  }

  lemma ShowsReplaced(files: seq<File>, visible: set<string>, t: FT.Table, u: FT.Table, f: File)
    requires Shows(files, visible, t) && f.fileId in visible && f.fileId in u && SameEntry(f, u[f.fileId])
    requires forall k :: k in visible && k != f.fileId && k in t ==> k in u && u[k] == t[k]
    ensures Shows(ReplaceFirst(files, f), visible, u)
  {
    ReplacedSpec(files, f);
    var g := ReplaceFirst(files, f);
    assert forall i :: 0 <= i < |g| ==> g[i].fileId == files[i].fileId;
    forall k | k in visible ensures HasId(g, k) {
      var i :| 0 <= i < |files| && files[i].fileId == k;
      assert g[i].fileId == k;
    }
  }

  // ------------------------------------------------------------- what is kept

  /** A row the cache does not show yet: live, the owner's, in a loaded folder. */
  ghost predicate Unshown(b: Both, owner: string, id: string, status: UploadStatus) {
    && FT.Owned(b.rows, owner, id) && FT.Live(b.rows, id) && b.rows[id].fileType == Regular
    && b.rows[id].uploadStatus == status && b.rows[id].parentId in b.loaded
  }

  ghost predicate PendingOk(b: Both, owner: string) {
    forall id :: id in b.pending ==> Unshown(b, owner, id, Pending) && SameEntry(b.pending[id], b.rows[id])
  }

  ghost predicate LostOk(b: Both, owner: string) {
    forall id :: id in b.lost ==> Unshown(b, owner, id, Failed)
  }

  ghost predicate BinOk(b: Both, owner: string) {
    TRASH in b.store ==>
      forall i :: 0 <= i < |b.store[TRASH]| ==>
        FT.Owned(b.rows, owner, b.store[TRASH][i].fileId) && b.rows[b.store[TRASH][i].fileId].deletedOn.Some?
  }

  ghost predicate FoldersOk(b: Both, owner: string) {
    forall p :: p in b.loaded ==> p in b.store && Shows(b.store[p], Visible(b, owner, p), b.rows)
  }

  ghost predicate Inv(owner: string, b: Both) {
    && FT.KeysMatch(b.rows) && FT.Indexed(b.rows) && TRASH !in b.rows && TRASH !in b.loaded
    && b.store.Keys <= b.loaded + {TRASH}
    && PendingOk(b, owner) && LostOk(b, owner) && BinOk(b, owner) && FoldersOk(b, owner)
  }

  ghost predicate NewRow(b: Both, owner: string, folder: string, entry: File) {
    && folder in b.loaded && entry.parentId == folder && entry.ownerId == owner && entry.deletedOn == None
    && FT.FreshRow(b.rows, entry) && entry.fileId != TRASH
  }

  /** What the client does: it visits folders it owns, adds to and renames and deletes
      from a folder it has loaded, and restores into one. */
  ghost predicate Acts(owner: string, b: Both, a: Action) {
    match a
    case Visit(folder, answer) =>
      (folder == "" || FT.Owned(b.rows, owner, folder)) && FT.AnswerOf(answer, FT.Listing(b.rows, owner, folder), b.rows)
    case VisitTrash(answer) => FT.AnswerOf(answer, FT.Trash(b.rows, owner), b.rows)
    case AddFolder(folder, entry) => NewRow(b, owner, folder, entry) && entry.fileType == Dir
    case BeginUpload(folder, entry) =>
      NewRow(b, owner, folder, entry) && entry.fileType == Regular && entry.uploadStatus == Pending
    case FinishUpload(id, _) => id in b.pending
    case GiveUp(id) => id in b.pending
    case RenameFile(folder, id, _, _) => folder in b.loaded && folder in b.store && HasId(b.store[folder], id)
    case DeleteFile(folder, entry, _) => folder in b.loaded && folder in b.store && entry in b.store[folder]
    case RestoreFile(entry) =>
      && TRASH in b.store && entry in b.store[TRASH]
      && entry.fileId in b.rows && FT.RestoredParent(b.rows, b.rows[entry.fileId]) in b.loaded
  }

  lemma VisitKeeps(order: Sorter, sha: Sha, owner: string, b: Both, folder: string, answer: seq<File>)
    requires Inv(owner, b) && Acts(owner, b, Visit(folder, answer))
    ensures Inv(owner, Act(order, sha, owner, b, Visit(folder, answer)))
  {
    var c := Act(order, sha, owner, b, Visit(folder, answer));
    if folder !in b.loaded {
      assert Visible(c, owner, folder) == FT.Listing(b.rows, owner, folder);
    }
    forall p | p in c.loaded ensures p in c.store && Shows(c.store[p], Visible(c, owner, p), c.rows) {
      assert Visible(c, owner, p) == Visible(b, owner, p);
    }
  }

  lemma VisitTrashKeeps(order: Sorter, sha: Sha, owner: string, b: Both, answer: seq<File>)
    requires Inv(owner, b) && Acts(owner, b, VisitTrash(answer))
    ensures Inv(owner, Act(order, sha, owner, b, VisitTrash(answer)))
  {
    var c := Act(order, sha, owner, b, VisitTrash(answer));
    forall p | p in c.loaded ensures p in c.store && Shows(c.store[p], Visible(c, owner, p), c.rows) {
      assert Visible(c, owner, p) == Visible(b, owner, p);
    }
  }

  /** A new row in a loaded folder changes that folder's listing only. */
  lemma InsertedRow(b: Both, owner: string, folder: string, entry: File)
    requires Inv(owner, b) && NewRow(b, owner, folder, entry) && FT.Insert(b.rows, [entry]).Some?
    ensures FT.Insert(b.rows, [entry]).value == b.rows[entry.fileId := entry]
    ensures FT.KeysMatch(b.rows[entry.fileId := entry]) && FT.Indexed(b.rows[entry.fileId := entry])
    ensures entry.fileId !in b.rows
    ensures forall p ::
      FT.Listing(b.rows[entry.fileId := entry], owner, p)
      == FT.Listing(b.rows, owner, p) + (if p == folder then {entry.fileId} else {})
  {
    assert [entry][0] == entry && [entry][1..] == [];
    FT.ReplaceKeepsIndex(b.rows, entry);
  }

  /** From b to c only row x changes, and what is pending, lost or in the bin changes for
      x only. */
  ghost predicate OnlyRow(b: Both, c: Both, x: string) {
    && c.loaded == b.loaded && (forall k :: k in b.rows && k != x ==> k in c.rows && c.rows[k] == b.rows[k])
    && (forall k :: k in c.pending && k != x ==> k in b.pending && c.pending[k] == b.pending[k])
    && (forall k :: k in c.lost && k != x ==> k in b.lost)
    && (TRASH in c.store ==>
          TRASH in b.store && forall i :: 0 <= i < |c.store[TRASH]| ==> c.store[TRASH][i] in b.store[TRASH] && c.store[TRASH][i].fileId != x)
  }

  lemma RestKeeps(owner: string, b: Both, c: Both, x: string)
    requires Inv(owner, b) && OnlyRow(b, c, x)
    requires x in c.pending ==> Unshown(c, owner, x, Pending) && SameEntry(c.pending[x], c.rows[x])
    requires x in c.lost ==> Unshown(c, owner, x, Failed)
    ensures PendingOk(c, owner) && LostOk(c, owner) && BinOk(c, owner)
  {
    forall k | k in c.pending ensures Unshown(c, owner, k, Pending) && SameEntry(c.pending[k], c.rows[k]) {
    }
    forall k | k in c.lost ensures Unshown(c, owner, k, Failed) {
    }
    if TRASH in c.store {
      forall i | 0 <= i < |c.store[TRASH]|
        ensures FT.Owned(c.rows, owner, c.store[TRASH][i].fileId) && c.rows[c.store[TRASH][i].fileId].deletedOn.Some?
      {
        assert c.store[TRASH][i] in b.store[TRASH];
      }
    }
  }

  /** A row that is not in the bin keeps the bin out of the change. */
  lemma NotInBin(owner: string, b: Both, x: string)
    requires Inv(owner, b) && (x !in b.rows || b.rows[x].deletedOn == None)
    ensures TRASH in b.store ==> forall i :: 0 <= i < |b.store[TRASH]| ==> b.store[TRASH][i].fileId != x
  {
  }

  /** A loaded folder that neither showed nor shows x. */
  lemma OtherFolder(owner: string, b: Both, c: Both, x: string, p: string)
    requires Inv(owner, b) && OnlyRow(b, c, x) && p in b.loaded && p in c.store && c.store[p] == b.store[p]
    requires Visible(c, owner, p) == Visible(b, owner, p) && x !in Visible(b, owner, p)
    ensures Shows(c.store[p], Visible(c, owner, p), c.rows)
  {
    ShowsSame(b.store[p], Visible(b, owner, p), b.rows, c.rows);
  }

  lemma AddFolderKeeps(order: Sorter, sha: Sha, owner: string, b: Both, folder: string, entry: File)
    requires Rearranges(order) && Inv(owner, b) && Acts(owner, b, AddFolder(folder, entry))
    ensures Inv(owner, Act(order, sha, owner, b, AddFolder(folder, entry)))
  {
    if FT.Insert(b.rows, [entry]).Some? {
      InsertedRow(b, owner, folder, entry);
      var c := Act(order, sha, owner, b, AddFolder(folder, entry));
      NotInBin(owner, b, entry.fileId);
      RestKeeps(owner, b, c, entry.fileId);
      forall p | p in c.loaded ensures p in c.store && Shows(c.store[p], Visible(c, owner, p), c.rows) {
        AddFolderShows(order, sha, owner, b, folder, entry, p);
      }
    }
  }

  lemma AddFolderShows(order: Sorter, sha: Sha, owner: string, b: Both, folder: string, entry: File, p: string)
    requires Rearranges(order) && Inv(owner, b) && Acts(owner, b, AddFolder(folder, entry))
    requires FT.Insert(b.rows, [entry]).Some? && p in b.loaded
    ensures var c := Act(order, sha, owner, b, AddFolder(folder, entry));
            p in c.store && Shows(c.store[p], Visible(c, owner, p), c.rows)
  {
    InsertedRow(b, owner, folder, entry);
    var c := Act(order, sha, owner, b, AddFolder(folder, entry));
    GainShows(order, owner, b, c, entry.fileId, entry, entry, p);
  }

  lemma BeginUploadKeeps(order: Sorter, sha: Sha, owner: string, b: Both, folder: string, entry: File)
    requires Inv(owner, b) && Acts(owner, b, BeginUpload(folder, entry))
    ensures Inv(owner, Act(order, sha, owner, b, BeginUpload(folder, entry)))
  {
    if FT.Insert(b.rows, [entry]).Some? {
      InsertedRow(b, owner, folder, entry);
      var c := Act(order, sha, owner, b, BeginUpload(folder, entry));
      NotInBin(owner, b, entry.fileId);
      assert entry.fileId !in b.lost;
      RestKeeps(owner, b, c, entry.fileId);
      forall p | p in c.loaded ensures p in c.store && Shows(c.store[p], Visible(c, owner, p), c.rows) {
        PendingStaysHidden(owner, b, c, folder, entry, p);
      }
    }
  }

  lemma PendingStaysHidden(owner: string, b: Both, c: Both, folder: string, entry: File, p: string)
    requires Inv(owner, b) && NewRow(b, owner, folder, entry) && OnlyRow(b, c, entry.fileId) && p in b.loaded
    requires c == b.(rows := b.rows[entry.fileId := entry], pending := b.pending[entry.fileId := entry])
    ensures Shows(c.store[p], Visible(c, owner, p), c.rows)
  {
    assert Visible(c, owner, p) == Visible(b, owner, p);
    OtherFolder(owner, b, c, entry.fileId, p);
  }

  // ------------------------------------------------------- ends of an upload

  /** A status change of a pending row is never refused. */
  lemma StatusRow(b: Both, owner: string, id: string, status: UploadStatus, touched: Option<int>, g: File)
    requires FT.KeysMatch(b.rows) && FT.Indexed(b.rows) && Unshown(b, owner, id, Pending)
    requires g == (var f := b.rows[id].(uploadStatus := status); if touched.Some? then f.(modifiedOn := touched.value) else f)
    ensures FT.SetStatus(b.rows, owner, id, status, touched) == Some(b.rows[id := g])
    ensures FT.KeysMatch(b.rows[id := g]) && FT.Indexed(b.rows[id := g])
  {
    forall k | k in b.rows && k != id ensures !FT.Clash(g, b.rows[k]) {
      assert !FT.Clash(b.rows[id], b.rows[k]);
    }
    FT.ReplaceKeepsIndex(b.rows, g);
  }

  lemma FinishUploadKeeps(order: Sorter, sha: Sha, owner: string, b: Both, id: string, at: int)
    requires Rearranges(order) && Inv(owner, b) && id in b.pending
    ensures Inv(owner, Act(order, sha, owner, b, FinishUpload(id, at)))
  {
    var c := Act(order, sha, owner, b, FinishUpload(id, at));
    var done := b.pending[id].(uploadStatus := Completed);
    var row := b.rows[id].(uploadStatus := Completed, modifiedOn := at);
    StatusRow(b, owner, id, Completed, Some(at), row);
    NotInBin(owner, b, id);
    assert id !in b.lost;
    RestKeeps(owner, b, c, id);
    forall p | p in c.loaded ensures p in c.store && Shows(c.store[p], Visible(c, owner, p), c.rows) {
      GainShows(order, owner, b, c, id, done, row, p);
    }
  }

  /** A row that was hidden everywhere is visible now, in its folder. */
  lemma VisibleGains(owner: string, b: Both, c: Both, x: string, row: File, p: string)
    requires x !in Visible(b, owner, p) && c.rows == b.rows[x := row] && row.ownerId == owner && row.deletedOn == None
    requires c.pending.Keys == b.pending.Keys - {x} && c.lost == b.lost && x !in b.lost
    ensures Visible(c, owner, p) == Visible(b, owner, p) + if p == row.parentId then {x} else {}
  {
  }

  lemma GainShows(order: Sorter, owner: string, b: Both, c: Both, x: string, f: File, row: File, p: string)
    requires Rearranges(order) && Inv(owner, b) && p in b.loaded && x !in Visible(b, owner, p) && x !in b.lost
    requires f.fileId == x && SameEntry(f, row) && row.ownerId == owner && row.deletedOn == None
    requires c.rows == b.rows[x := row] && c.pending.Keys == b.pending.Keys - {x} && c.lost == b.lost
    requires p in c.store && c.store[p] == if p == f.parentId then order(b.store[p] + [f]) else b.store[p]
    ensures Shows(c.store[p], Visible(c, owner, p), c.rows)
  {
    VisibleGains(owner, b, c, x, row, p);
    if p == f.parentId {
      ShowsAdded(order, b.store[p], Visible(b, owner, p), b.rows, c.rows, f);
    } else {
      ShowsSame(b.store[p], Visible(b, owner, p), b.rows, c.rows);
    }
  }

  lemma GiveUpKeeps(order: Sorter, sha: Sha, owner: string, b: Both, id: string)
    requires Inv(owner, b) && id in b.pending
    ensures Inv(owner, Act(order, sha, owner, b, GiveUp(id)))
  {
    var c := Act(order, sha, owner, b, GiveUp(id));
    StatusRow(b, owner, id, Failed, None, b.rows[id].(uploadStatus := Failed));
    NotInBin(owner, b, id);
    RestKeeps(owner, b, c, id);
    forall p | p in c.loaded ensures p in c.store && Shows(c.store[p], Visible(c, owner, p), c.rows) {
      assert Visible(c, owner, p) == Visible(b, owner, p);
      OtherFolder(owner, b, c, id, p);
    }
  }

  // -------------------------------------------- renaming, deleting, restoring

  /** An entry the cache shows is a live row of the owner in that folder. */
  lemma ShownIsLive(owner: string, b: Both, folder: string, id: string)
    requires Inv(owner, b) && folder in b.loaded && folder in b.store && HasId(b.store[folder], id)
    ensures FT.Owned(b.rows, owner, id) && FT.Live(b.rows, id) && b.rows[id].parentId == folder
    ensures id !in b.pending && id !in b.lost
  {
    var i :| 0 <= i < |b.store[folder]| && b.store[folder][i].fileId == id;
    assert b.store[folder][i].fileId in Visible(b, owner, folder);
  }

  lemma RenameKeeps(order: Sorter, sha: Sha, owner: string, b: Both, folder: string, id: string, newName: string, at: int)
    requires Inv(owner, b) && Acts(owner, b, RenameFile(folder, id, newName, at))
    ensures Inv(owner, Act(order, sha, owner, b, RenameFile(folder, id, newName, at)))
  {
    ShownIsLive(owner, b, folder, id);
    var row := FT.Renamed(sha, b.rows[id], newName, at);
    if !Upload.IsBlank(newName) && !FT.Rejected(b.rows, row) {
      FT.ReplaceKeepsIndex(b.rows, row);
      var c := b.(rows := b.rows[id := row], store := ReplaceFile(b.store, row, folder));
      assert c == Act(order, sha, owner, b, RenameFile(folder, id, newName, at));
      NotInBin(owner, b, id);
      RestKeeps(owner, b, c, id);
      forall p | p in c.loaded ensures p in c.store && Shows(c.store[p], Visible(c, owner, p), c.rows) {
        RenamedShows(owner, b, c, folder, id, row, p);
      }
    }
  }

  lemma RenamedShows(owner: string, b: Both, c: Both, folder: string, id: string, row: File, p: string)
    requires Inv(owner, b) && folder in b.loaded && HasId(b.store[folder], id) && OnlyRow(b, c, id) && p in b.loaded
    requires FT.Owned(b.rows, owner, id) && FT.Live(b.rows, id) && b.rows[id].parentId == folder && id !in b.pending && id !in b.lost
    requires row.fileId == id && row.parentId == folder && row.ownerId == owner && row.deletedOn == None
    requires c == b.(rows := b.rows[id := row], store := ReplaceFile(b.store, row, folder))
    ensures p in c.store && Shows(c.store[p], Visible(c, owner, p), c.rows)
  {
    assert Visible(c, owner, p) == Visible(b, owner, p);
    if p == folder {
      ShowsReplaced(b.store[p], Visible(b, owner, p), b.rows, c.rows, row);
    } else {
      OtherFolder(owner, b, c, id, p);
    }
  }

  lemma DeletedRow(t: FT.Table, owner: string, id: string, at: int)
    requires FT.KeysMatch(t) && FT.Indexed(t) && FT.Owned(t, owner, id)
    ensures var u := FT.Delete(t, owner, [id], at);
            u == t[id := t[id].(deletedOn := Some(at))] && FT.KeysMatch(u) && FT.Indexed(u)
  {
    FT.SameKeysIndexed(t, FT.Delete(t, owner, [id], at));
  }

  lemma RestoredRow(t: FT.Table, owner: string, id: string)
    requires FT.KeysMatch(t) && FT.Indexed(t) && FT.Owned(t, owner, id)
    ensures var u := FT.Restore(t, owner, [id]);
            u == t[id := t[id].(deletedOn := None, parentId := FT.RestoredParent(t, t[id]))] && FT.KeysMatch(u) && FT.Indexed(u)
  {
    FT.SameKeysIndexed(t, FT.Restore(t, owner, [id]));
  }

  lemma DeleteKeeps(order: Sorter, sha: Sha, owner: string, b: Both, folder: string, entry: File, at: int)
    requires Inv(owner, b) && Acts(owner, b, DeleteFile(folder, entry, at))
    ensures Inv(owner, Act(order, sha, owner, b, DeleteFile(folder, entry, at)))
  {
    var id := entry.fileId;
    ShownIsLive(owner, b, folder, id);
    assert entry.parentId == folder;
    DeletedRow(b.rows, owner, id, at);
    var row := b.rows[id].(deletedOn := Some(at));
    var c := b.(rows := b.rows[id := row], store := RemoveFile(b.store, id, folder));
    NotInBin(owner, b, id);
    RestKeeps(owner, b, c, id);
    forall p | p in c.loaded ensures p in c.store && Shows(c.store[p], Visible(c, owner, p), c.rows) {
      DeletedShows(owner, b, c, folder, id, row, p);
    }
  }

  lemma DeletedShows(owner: string, b: Both, c: Both, folder: string, id: string, row: File, p: string)
    requires Inv(owner, b) && folder in b.loaded && p in b.loaded && HasId(b.store[folder], id)
    requires id in b.rows && b.rows[id].parentId == folder && row.deletedOn.Some?
    requires c == b.(rows := b.rows[id := row], store := RemoveFile(b.store, id, folder))
    ensures p in c.store && Shows(c.store[p], Visible(c, owner, p), c.rows)
  {
    if p == folder {
      ShowsRemoved(b.store[p], Visible(b, owner, p), b.rows, c.rows, id);
      assert Visible(c, owner, p) == Visible(b, owner, p) - {id};
    } else {
      assert Visible(c, owner, p) == Visible(b, owner, p);
      ShowsSame(b.store[p], Visible(b, owner, p), b.rows, c.rows);
    }
  }

  lemma RestoreKeeps(order: Sorter, sha: Sha, owner: string, b: Both, entry: File)
    requires Rearranges(order) && Inv(owner, b) && Acts(owner, b, RestoreFile(entry))
    ensures Inv(owner, Act(order, sha, owner, b, RestoreFile(entry)))
  {
    var id := entry.fileId;
    var i :| 0 <= i < |b.store[TRASH]| && b.store[TRASH][i] == entry;
    assert FT.Owned(b.rows, owner, id) && b.rows[id].deletedOn.Some? && id !in b.pending && id !in b.lost;
    RestoredRow(b.rows, owner, id);
    var row := b.rows[id].(deletedOn := None, parentId := FT.RestoredParent(b.rows, b.rows[id]));
    RestoredKeeps(order, owner, b, id, row);
  }

  lemma RestoredKeeps(order: Sorter, owner: string, b: Both, id: string, row: File)
    requires Rearranges(order) && Inv(owner, b) && TRASH in b.store && HasId(b.store[TRASH], id)
    requires FT.Owned(b.rows, owner, id) && b.rows[id].deletedOn.Some? && id !in b.pending && id !in b.lost
    requires row.fileId == id && row.ownerId == owner && row.deletedOn == None && row.parentId in b.loaded
    requires FT.KeysMatch(b.rows[id := row]) && FT.Indexed(b.rows[id := row])
    ensures Inv(owner, b.(rows := b.rows[id := row],
                          store := AddFileResponse(order, RemoveFile(b.store, id, TRASH), row, row.parentId)))
  {
    var c := b.(rows := b.rows[id := row], store := AddFileResponse(order, RemoveFile(b.store, id, TRASH), row, row.parentId));
    RestoredStore(order, b, id, row);
    RestoredRest(owner, b, c, id, row);
    forall p | p in c.loaded ensures p in c.store && Shows(c.store[p], Visible(c, owner, p), c.rows) {
      RestoredShows(order, owner, b, c, id, row, p);
    }
  }

  lemma RestoredShows(order: Sorter, owner: string, b: Both, c: Both, id: string, row: File, p: string)
    requires Rearranges(order) && Inv(owner, b) && TRASH in b.store && p in b.loaded && id !in b.pending && id !in b.lost
    requires id in b.rows && b.rows[id].deletedOn.Some?
    requires row.fileId == id && row.ownerId == owner && row.deletedOn == None && row.parentId in b.loaded
    requires c == b.(rows := b.rows[id := row], store := b.store[TRASH := Without(b.store[TRASH], id)][row.parentId := order(b.store[row.parentId] + [row])])
    ensures p in c.store && Shows(c.store[p], Visible(c, owner, p), c.rows)
  {
    assert id !in Visible(b, owner, p) && c.pending.Keys == b.pending.Keys - {id};
    assert p != TRASH && c.store[p] == if p == row.parentId then order(b.store[p] + [row]) else b.store[p];
    GainShows(order, owner, b, c, id, row, row, p);
  }

  lemma RestoredStore(order: Sorter, b: Both, id: string, row: File)
    requires TRASH in b.store && HasId(b.store[TRASH], id) && row.parentId in b.store && row.parentId != TRASH
    ensures AddFileResponse(order, RemoveFile(b.store, id, TRASH), row, row.parentId)
         == b.store[TRASH := Without(b.store[TRASH], id)][row.parentId := order(b.store[row.parentId] + [row])]
  {
  }

  lemma RestoredRest(owner: string, b: Both, c: Both, id: string, row: File)
    requires Inv(owner, b) && TRASH in b.store && TRASH in c.store && c.store[TRASH] == Without(b.store[TRASH], id)
    requires id !in b.pending && id !in b.lost && c == b.(rows := b.rows[id := row], store := c.store)
    ensures PendingOk(c, owner) && LostOk(c, owner) && BinOk(c, owner)
  {
    BinWithout(b.store[TRASH], id);
    RestKeeps(owner, b, c, id);
  }

  lemma {:induction false} BinWithout(files: seq<File>, id: string)
    ensures forall f :: f in Without(files, id) <==> f in files && f.fileId != id
  {
    if |files| > 0 {
      BinWithout(files[1..], id);
      assert files == [files[0]] + files[1..];
    }
  }

  lemma ActKeeps(order: Sorter, sha: Sha, owner: string, b: Both, a: Action)
    requires Rearranges(order) && Inv(owner, b) && Acts(owner, b, a)
    ensures Inv(owner, Act(order, sha, owner, b, a))
  {
    match a
    case Visit(folder, answer) => VisitKeeps(order, sha, owner, b, folder, answer);
    case VisitTrash(answer) => VisitTrashKeeps(order, sha, owner, b, answer);
    case AddFolder(folder, entry) => AddFolderKeeps(order, sha, owner, b, folder, entry);
    case BeginUpload(folder, entry) => BeginUploadKeeps(order, sha, owner, b, folder, entry);
    case FinishUpload(id, at) => FinishUploadKeeps(order, sha, owner, b, id, at);
    case GiveUp(id) => GiveUpKeeps(order, sha, owner, b, id);
    case RenameFile(folder, id, newName, at) => RenameKeeps(order, sha, owner, b, folder, id, newName, at);
    case DeleteFile(folder, entry, at) => DeleteKeeps(order, sha, owner, b, folder, entry, at);
    case RestoreFile(entry) => RestoreKeeps(order, sha, owner, b, entry);
  }

  // -------------------------------------------------------------- whole runs

  function Run(order: Sorter, sha: Sha, owner: string, b: Both, acts: seq<Action>): Both
    decreases |acts|
  {
    if |acts| == 0 then b else Run(order, sha, owner, Act(order, sha, owner, b, acts[0]), acts[1..])
  }

  ghost predicate ActsAll(order: Sorter, sha: Sha, owner: string, b: Both, acts: seq<Action>)
    decreases |acts|
  {
    |acts| > 0 ==> Acts(owner, b, acts[0]) && ActsAll(order, sha, owner, Act(order, sha, owner, b, acts[0]), acts[1..])
  }

  lemma {:induction false} RunKeeps(order: Sorter, sha: Sha, owner: string, b: Both, acts: seq<Action>)
    requires Rearranges(order) && Inv(owner, b) && ActsAll(order, sha, owner, b, acts)
    ensures Inv(owner, Run(order, sha, owner, b, acts))
    decreases |acts|
  {
    if |acts| > 0 {
      ActKeeps(order, sha, owner, b, acts[0]);
      RunKeeps(order, sha, owner, Act(order, sha, owner, b, acts[0]), acts[1..]);
    }
  }

  /** What the two sides say of a file: its id, name, type and parent. */
  function Shown(f: File): (string, string, FileType, string) {
    (f.fileId, f.name, f.fileType, f.parentId)
  }

  function CachedCompleted(b: Both, folder: string): set<(string, string, FileType, string)> {
    set i | 0 <= i < |GetFiles(b.store, folder)| && GetFiles(b.store, folder)[i].uploadStatus == Completed
      :: Shown(GetFiles(b.store, folder)[i])
  }

  function ServerCompleted(b: Both, owner: string, folder: string): set<(string, string, FileType, string)> {
    set id | id in FT.Listing(b.rows, owner, folder) && b.rows[id].uploadStatus == Completed :: Shown(b.rows[id])
  }

  /** Starting with an empty cache on any table, after any sequence of the client's
      actions every folder it has loaded shows exactly the completed files that the
      server lists there, by id, name, type and parent. */
  lemma CacheAgrees(order: Sorter, sha: Sha, owner: string, t: FT.Table, acts: seq<Action>, folder: string)
    requires Rearranges(order) && FT.KeysMatch(t) && FT.Indexed(t) && TRASH !in t
    requires ActsAll(order, sha, owner, Both(map[], {}, t, map[], {}), acts)
    requires folder in Run(order, sha, owner, Both(map[], {}, t, map[], {}), acts).loaded
    ensures var b := Run(order, sha, owner, Both(map[], {}, t, map[], {}), acts);
            CachedCompleted(b, folder) == ServerCompleted(b, owner, folder)
  {
    var b0 := Both(map[], {}, t, map[], {});
    assert Inv(owner, b0);
    RunKeeps(order, sha, owner, b0, acts);
    InvAgrees(owner, Run(order, sha, owner, b0, acts), folder);
  }

  lemma InvAgrees(owner: string, b: Both, folder: string)
    requires Inv(owner, b) && folder in b.loaded
    ensures CachedCompleted(b, folder) == ServerCompleted(b, owner, folder)
  {
    var files := b.store[folder];
    assert Shows(files, Visible(b, owner, folder), b.rows);
    forall x | x in CachedCompleted(b, folder) ensures x in ServerCompleted(b, owner, folder) {
      var i :| 0 <= i < |files| && files[i].uploadStatus == Completed && x == Shown(files[i]);
      assert files[i].fileId in Visible(b, owner, folder);
      assert Shown(files[i]) == Shown(b.rows[files[i].fileId]);
    }
    forall x | x in ServerCompleted(b, owner, folder) ensures x in CachedCompleted(b, folder) {
      var id :| id in FT.Listing(b.rows, owner, folder) && b.rows[id].uploadStatus == Completed && x == Shown(b.rows[id]);
      assert id in Visible(b, owner, folder);
      var i :| 0 <= i < |files| && files[i].fileId == id;
      assert GetFiles(b.store, folder) == files && files[i].uploadStatus == Completed && Shown(files[i]) == x;
    }
  }

  // --------------------------------------------- what breaks the agreement

  /** A folder whose cache is the one entry of row id shows what the server lists there
      exactly when no other completed row is there. */
  lemma OneEntryIff(owner: string, t: FT.Table, c: Both, f: File, row: File)
    requires FT.KeysMatch(t) && SameEntry(f, row) && row.ownerId == owner && row.deletedOn == None
    requires c.rows == t[row.fileId := row] && GetFiles(c.store, row.parentId) == [f]
    ensures CachedCompleted(c, row.parentId) == ServerCompleted(c, owner, row.parentId) <==>
            forall k :: k in FT.Listing(t, owner, row.parentId) && k != row.fileId ==> t[k].uploadStatus != Completed
  {
    var folder, id := row.parentId, row.fileId;
    var cached, there := CachedCompleted(c, folder), ServerCompleted(c, owner, folder);
    assert cached == if row.uploadStatus == Completed then {Shown(row)} else {} by {
      assert GetFiles(c.store, folder)[0] == f && Shown(f) == Shown(row);
    }
    forall k | k in FT.Listing(t, owner, folder) && k != id && t[k].uploadStatus == Completed
      ensures Shown(t[k]) in there && Shown(t[k]) !in cached
    {
      assert k in FT.Listing(c.rows, owner, folder) && c.rows[k] == t[k];
    }
    assert row.uploadStatus == Completed ==> id in FT.Listing(c.rows, owner, folder) && Shown(row) in there;
    if forall k :: k in FT.Listing(t, owner, folder) && k != id ==> t[k].uploadStatus != Completed {
      forall k | k in FT.Listing(c.rows, owner, folder) && c.rows[k].uploadStatus == Completed ensures k == id {
        assert k != id ==> k in FT.Listing(t, owner, folder);
      }
    }
  }

  lemma OneEntry(order: Sorter, f: File)
    requires Rearranges(order)
    ensures order([] + [f]) == [f]
  {
    assert [] + [f] == [f];
    assert multiset(order([f])) == multiset{f};
    assert |order([f])| == |multiset(order([f]))| == 1;
    assert order([f])[0] in multiset(order([f]));
  }

  /** Restoring into a folder that was never loaded leaves a cache of that one file,
      which visiting the folder does not refresh: it agrees with the server exactly when
      no completed file is there already. */
  lemma RestoreUnloadedIff(order: Sorter, sha: Sha, owner: string, b: Both, entry: File, answer: seq<File>)
    requires Rearranges(order) && Inv(owner, b) && TRASH in b.store && entry in b.store[TRASH] && entry.fileId in b.rows
    requires FT.RestoredParent(b.rows, b.rows[entry.fileId]) !in b.store
    ensures var folder := FT.RestoredParent(b.rows, b.rows[entry.fileId]);
            var c := Act(order, sha, owner, Act(order, sha, owner, b, RestoreFile(entry)), Visit(folder, answer));
            && folder in c.loaded && |GetFiles(c.store, folder)| == 1
            && (CachedCompleted(c, folder) == ServerCompleted(c, owner, folder) <==>
                forall id :: id in FT.Listing(b.rows, owner, folder) ==> b.rows[id].uploadStatus != Completed)
  {
    var id := entry.fileId;
    var i :| 0 <= i < |b.store[TRASH]| && b.store[TRASH][i] == entry;
    assert FT.Owned(b.rows, owner, id) && b.rows[id].deletedOn.Some?;
    RestoredRow(b.rows, owner, id);
    var folder := FT.RestoredParent(b.rows, b.rows[id]);
    var row := b.rows[id].(deletedOn := None, parentId := folder);
    OneEntry(order, row);
    var c := Act(order, sha, owner, Act(order, sha, owner, b, RestoreFile(entry)), Visit(folder, answer));
    assert c.rows == b.rows[id := row] && GetFiles(c.store, folder) == [row];
    OneEntryIff(owner, b.rows, c, row, row);
    assert id !in FT.Listing(b.rows, owner, folder);
  }

  /** The bin's page is no folder, so a new folder made there goes to the root: before the
      root is loaded that leaves a listing of one entry, right exactly when the root holds
      no completed row. */
  lemma AddUnloadedIff(order: Sorter, sha: Sha, owner: string, b: Both, entry: File, answer: seq<File>)
    requires Rearranges(order) && FT.KeysMatch(b.rows) && FT.FreshRow(b.rows, entry) && FT.Insert(b.rows, [entry]).Some?
    requires entry.ownerId == owner && entry.deletedOn == None && entry.parentId !in b.store
    ensures var folder := entry.parentId;
            var c := Act(order, sha, owner, Act(order, sha, owner, b, AddFolder(folder, entry)), Visit(folder, answer));
            && folder in c.loaded && |GetFiles(c.store, folder)| == 1
            && (CachedCompleted(c, folder) == ServerCompleted(c, owner, folder) <==>
                forall id :: id in FT.Listing(b.rows, owner, folder) ==> b.rows[id].uploadStatus != Completed)
  {
    FT.InsertOne(b.rows, entry);
    OneEntry(order, entry);
    var folder := entry.parentId;
    var c := Act(order, sha, owner, Act(order, sha, owner, b, AddFolder(folder, entry)), Visit(folder, answer));
    OneEntryIff(owner, b.rows, c, entry, entry);
    assert entry.fileId !in FT.Listing(b.rows, owner, folder);
  }

  /** An upload begun there likewise. */
  lemma UploadUnloadedIff(order: Sorter, sha: Sha, owner: string, b: Both, id: string, at: int, answer: seq<File>)
    requires Rearranges(order) && FT.KeysMatch(b.rows) && FT.Indexed(b.rows) && id in b.pending
    requires Unshown(b.(loaded := b.loaded + {b.pending[id].parentId}), owner, id, Pending) && SameEntry(b.pending[id], b.rows[id])
    requires b.pending[id].parentId !in b.store
    ensures var folder := b.pending[id].parentId;
            var c := Act(order, sha, owner, Act(order, sha, owner, b, FinishUpload(id, at)), Visit(folder, answer));
            && folder in c.loaded && |GetFiles(c.store, folder)| == 1
            && (CachedCompleted(c, folder) == ServerCompleted(c, owner, folder) <==>
                forall k :: k in FT.Listing(b.rows, owner, folder) && k != id ==> b.rows[k].uploadStatus != Completed)
  {
    var done := b.pending[id].(uploadStatus := Completed);
    var row := b.rows[id].(uploadStatus := Completed, modifiedOn := at);
    StatusRow(b.(loaded := b.loaded + {b.pending[id].parentId}), owner, id, Completed, Some(at), row);
    OneEntry(order, done);
    var folder := b.pending[id].parentId;
    var c := Act(order, sha, owner, Act(order, sha, owner, b, FinishUpload(id, at)), Visit(folder, answer));
    OneEntryIff(owner, b.rows, c, done, row);
  }

  /** Renaming a row of the bin on the bin's page puts it into the root's listing: the
      loaded root still shows what the server lists exactly when the row is no completed
      file. */
  lemma RenameInBinIff(order: Sorter, sha: Sha, owner: string, b: Both, id: string, newName: string, at: int)
    requires Inv(owner, b) && "" in b.loaded && FT.Owned(b.rows, owner, id) && b.rows[id].deletedOn.Some?
    requires !Upload.IsBlank(newName) && FT.Rename(sha, b.rows, owner, id, newName, at).Some?
    ensures var c := Act(order, sha, owner, b, RenameFile("", id, newName, at));
            CachedCompleted(c, "") == ServerCompleted(c, owner, "") <==> b.rows[id].uploadStatus != Completed
  {
    var row := FT.Renamed(sha, b.rows[id], newName, at);
    var c := Act(order, sha, owner, b, RenameFile("", id, newName, at));
    var files := b.store[""];
    assert Shows(files, Visible(b, owner, ""), b.rows) && !HasId(files, id);
    ReplacedNowhere(files, row);
    assert c.rows == b.rows[id := row] && GetFiles(c.store, "") == files + [row];
    InvAgrees(owner, b, "");
    BinRowAppended(owner, b, c, id, row, files);
  }

  lemma BinRowAppended(owner: string, b: Both, c: Both, id: string, row: File, files: seq<File>)
    requires id in b.rows && b.rows[id].deletedOn.Some? && row.deletedOn.Some? && row.fileId == id && FT.KeysMatch(b.rows)
    requires c.rows == b.rows[id := row] && GetFiles(b.store, "") == files && GetFiles(c.store, "") == files + [row]
    requires CachedCompleted(b, "") == ServerCompleted(b, owner, "")
    ensures CachedCompleted(c, "") == ServerCompleted(c, owner, "") <==> row.uploadStatus != Completed
  {
    assert FT.Listing(c.rows, owner, "") == FT.Listing(b.rows, owner, "");
    assert ServerCompleted(c, owner, "") == ServerCompleted(b, owner, "");
    var more := if row.uploadStatus == Completed then {Shown(row)} else {};
    forall x ensures x in CachedCompleted(c, "") <==> x in CachedCompleted(b, "") + more {
      AppendedCompleted(files, row, b, c, x);
    }
    assert Shown(row) !in ServerCompleted(c, owner, "");
  }

  lemma AppendedCompleted(files: seq<File>, row: File, b: Both, c: Both, x: (string, string, FileType, string))
    requires GetFiles(b.store, "") == files && GetFiles(c.store, "") == files + [row]
    ensures x in CachedCompleted(c, "") <==> x in CachedCompleted(b, "") || (row.uploadStatus == Completed && x == Shown(row))
  {
    var all := files + [row];
    assert all[|files|] == row;
    if x in CachedCompleted(b, "") {
      var i :| 0 <= i < |files| && files[i].uploadStatus == Completed && x == Shown(files[i]);
      assert all[i] == files[i];
    }
    if x in CachedCompleted(c, "") {
      var i :| 0 <= i < |all| && all[i].uploadStatus == Completed && x == Shown(all[i]);
      assert i < |files| ==> all[i] == files[i];
    }
  }
}
