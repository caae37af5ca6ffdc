/** What the client's actions ask of the server, and when the cached bin shows the bin. */
module FileStoreBin {
  import opened Text
  import opened FileModel
  import FT = FileTable
  import FileNames
  import Upload
  import opened FileStore
  import opened FileStoreAgreement

  // -------------------------------------------------------- the server's side

  /** The statements that the action's requests execute. */
  function Requests(owner: string, b: Both, a: Action): seq<FT.Step> {
    match a
    case Visit(_, _) => []
    case VisitTrash(_) => []
    case AddFolder(_, entry) => [FT.AddFiles([entry])]
    case BeginUpload(_, entry) => [FT.AddFiles([entry])]
    case FinishUpload(id, at) => if id in b.pending then [FT.UpdateStatus(owner, id, Completed, Some(at))] else []
    case GiveUp(id) => if id in b.pending then [FT.UpdateStatus(owner, id, Failed, None)] else []
    case RenameFile(_, id, newName, at) =>
      if forall i :: 0 <= i < |newName| ==> FileNames.White(newName[i]) then [] else [FT.RenameFile(owner, id, newName, at)]
    case DeleteFile(_, entry, at) => [FT.DeleteFiles(owner, [entry.fileId], at)]
    case RestoreFile(entry) => [FT.RestoreFiles(owner, [entry.fileId])]
  }

  lemma RunOne(sha: Sha, t: FT.Table, s: FT.Step)
    ensures FT.Run(sha, t, [s]) == FT.Apply(sha, t, s)
  {
    assert [s][1..] == [];
  }

  /** The table after an action is the table after those statements. */
  lemma ServerDoes(order: Sorter, sha: Sha, owner: string, b: Both, a: Action)
    ensures Act(order, sha, owner, b, a).rows == FT.Run(sha, b.rows, Requests(owner, b, a))
  {
    if Requests(owner, b, a) != [] {
      RunOne(sha, b.rows, Requests(owner, b, a)[0]);
      assert Requests(owner, b, a) == [Requests(owner, b, a)[0]];
    }
    if a.RenameFile? {
      RenameDoes(sha, b.rows, owner, a.id, a.newName, a.at);
    } else if a.RestoreFile? && a.entry.fileId !in b.rows {
      assert FT.Restore(b.rows, owner, [a.entry.fileId]) == b.rows;
    }
  }

  lemma RenameDoes(sha: Sha, t: FT.Table, owner: string, id: string, newName: string, at: int)
    ensures var r := FT.Rename(sha, t, owner, id, newName, at); r.Some? && id !in r.value ==> r.value == t
    ensures Upload.IsBlank(newName) <==> forall i :: 0 <= i < |newName| ==> FileNames.White(newName[i])
  {
    FileNames.BlankIff(newName);
  }

  // -------------------------------------------------------------------- the bin

  /** The cached bin has one entry for each deleted row of the account. */
  ghost predicate BinShows(b: Both, owner: string) {
    TRASH in b.store && Shows(b.store[TRASH], FT.Trash(b.rows, owner), b.rows)
  }

  /** Visiting the bin shows it, whatever was cached before, and leaves every folder. */
  lemma VisitTrashShows(order: Sorter, sha: Sha, owner: string, b: Both, answer: seq<File>)
    requires Acts(owner, b, VisitTrash(answer))
    ensures var c := Act(order, sha, owner, b, VisitTrash(answer));
            BinShows(c, owner) && c.rows == b.rows && forall p :: p in b.store && p != TRASH ==> p in c.store && c.store[p] == b.store[p]
  {
  }

  /** A row that is not deleted, before or after, leaves the bin alone. */
  lemma LiveRow(owner: string, b: Both, c: Both, x: string)
    requires BinShows(b, owner) && TRASH in c.store && c.store[TRASH] == b.store[TRASH]
    requires x in c.rows && c.rows == b.rows[x := c.rows[x]] && c.rows[x].deletedOn == None && (x in b.rows ==> b.rows[x].deletedOn == None)
    ensures BinShows(c, owner)
  {
    assert FT.Trash(c.rows, owner) == FT.Trash(b.rows, owner);
    ShowsSame(b.store[TRASH], FT.Trash(b.rows, owner), b.rows, c.rows);
  }

  lemma NewRowKeepsBin(order: Sorter, sha: Sha, owner: string, b: Both, a: Action)
    requires Inv(owner, b) && Acts(owner, b, a) && BinShows(b, owner) && (a.AddFolder? || a.BeginUpload?)
    ensures BinShows(Act(order, sha, owner, b, a), owner)
  {
    if FT.Insert(b.rows, [a.entry]).Some? {
      InsertedRow(b, owner, a.folder, a.entry);
      LiveRow(owner, b, Act(order, sha, owner, b, a), a.entry.fileId);
    }
  }

  lemma EndKeepsBin(order: Sorter, sha: Sha, owner: string, b: Both, a: Action)
    requires Inv(owner, b) && Acts(owner, b, a) && BinShows(b, owner) && (a.FinishUpload? || a.GiveUp?)
    ensures BinShows(Act(order, sha, owner, b, a), owner)
  {
    assert b.pending[a.id].parentId == b.rows[a.id].parentId != TRASH;
    if a.FinishUpload? {
      StatusRow(b, owner, a.id, Completed, Some(a.at), b.rows[a.id].(uploadStatus := Completed, modifiedOn := a.at));
    } else {
      StatusRow(b, owner, a.id, Failed, None, b.rows[a.id].(uploadStatus := Failed));
    }
    LiveRow(owner, b, Act(order, sha, owner, b, a), a.id);
  }

  lemma RenameKeepsBin(order: Sorter, sha: Sha, owner: string, b: Both, a: Action)
    requires Inv(owner, b) && Acts(owner, b, a) && BinShows(b, owner) && a.RenameFile?
    ensures BinShows(Act(order, sha, owner, b, a), owner)
  {
    ShownIsLive(owner, b, a.folder, a.id);
    var c := Act(order, sha, owner, b, a);
    if c != b {
      LiveRow(owner, b, c, a.id);
    }
  }

  lemma RestoreActs(order: Sorter, sha: Sha, owner: string, b: Both, entry: File)
    requires FT.KeysMatch(b.rows) && FT.Indexed(b.rows) && TRASH in b.store && HasId(b.store[TRASH], entry.fileId)
    requires FT.Owned(b.rows, owner, entry.fileId) && b.rows[entry.fileId].deletedOn.Some?
    requires FT.RestoredParent(b.rows, b.rows[entry.fileId]) in b.store && FT.RestoredParent(b.rows, b.rows[entry.fileId]) != TRASH
    ensures var c := Act(order, sha, owner, b, RestoreFile(entry)); var id := entry.fileId;
            && TRASH in c.store && c.store[TRASH] == Without(b.store[TRASH], id)
            && id in c.rows && c.rows == b.rows[id := c.rows[id]] && c.rows[id].deletedOn == None
  {
    RestoredRow(b.rows, owner, entry.fileId);
    RestoredStore(order, b, entry.fileId,
                  b.rows[entry.fileId].(deletedOn := None, parentId := FT.RestoredParent(b.rows, b.rows[entry.fileId])));
  }

  lemma RestoreKeepsBin(order: Sorter, sha: Sha, owner: string, b: Both, entry: File)
    requires Inv(owner, b) && Acts(owner, b, RestoreFile(entry)) && BinShows(b, owner)
    ensures BinShows(Act(order, sha, owner, b, RestoreFile(entry)), owner)
  {
    var id := entry.fileId;
    var i :| 0 <= i < |b.store[TRASH]| && b.store[TRASH][i] == entry;
    assert id in FT.Trash(b.rows, owner);
    RestoreActs(order, sha, owner, b, entry);
    OneLess(owner, b, Act(order, sha, owner, b, RestoreFile(entry)), id);
  }

  /** A row that was deleted is live again, and its entry is gone. */
  lemma OneLess(owner: string, b: Both, c: Both, id: string)
    requires BinShows(b, owner) && id in FT.Trash(b.rows, owner) && TRASH in c.store && c.store[TRASH] == Without(b.store[TRASH], id)
    requires id in c.rows && c.rows == b.rows[id := c.rows[id]] && c.rows[id].deletedOn == None
    ensures BinShows(c, owner)
  {
    ShowsRemoved(b.store[TRASH], FT.Trash(b.rows, owner), b.rows, c.rows, id);
    assert FT.Trash(c.rows, owner) == FT.Trash(b.rows, owner) - {id};
  }

  /** A delete leaves its row out of the cached bin. */
  lemma DeleteLeavesBin(order: Sorter, sha: Sha, owner: string, b: Both, folder: string, entry: File, at: int)
    requires Inv(owner, b) && Acts(owner, b, DeleteFile(folder, entry, at)) && BinShows(b, owner)
    ensures !BinShows(Act(order, sha, owner, b, DeleteFile(folder, entry, at)), owner)
  {
    var id := entry.fileId;
    ShownIsLive(owner, b, folder, id);
    assert entry.parentId == folder != TRASH;
    DeletedRow(b.rows, owner, id, at);
    var c := Act(order, sha, owner, b, DeleteFile(folder, entry, at));
    assert id in FT.Trash(c.rows, owner) && id !in FT.Trash(b.rows, owner) && c.store[TRASH] == b.store[TRASH];
    assert !HasId(c.store[TRASH], id);
  }

  /** Once the cached bin shows the bin, every action keeps it so but a delete, which never
      does. */
  lemma BinKeptIff(order: Sorter, sha: Sha, owner: string, b: Both, a: Action)
    requires Inv(owner, b) && Acts(owner, b, a) && BinShows(b, owner)
    ensures BinShows(Act(order, sha, owner, b, a), owner) <==> !a.DeleteFile?
  {
    match a
    case Visit(folder, answer) => assert folder != TRASH;
    case VisitTrash(answer) => VisitTrashShows(order, sha, owner, b, answer);
    case AddFolder(_, _) => NewRowKeepsBin(order, sha, owner, b, a);
    case BeginUpload(_, _) => NewRowKeepsBin(order, sha, owner, b, a);
    case FinishUpload(_, _) => EndKeepsBin(order, sha, owner, b, a);
    case GiveUp(_) => EndKeepsBin(order, sha, owner, b, a);
    case RenameFile(_, _, _, _) => RenameKeepsBin(order, sha, owner, b, a);
    case DeleteFile(folder, entry, at) => DeleteLeavesBin(order, sha, owner, b, folder, entry, at);
    case RestoreFile(entry) => RestoreKeepsBin(order, sha, owner, b, entry);
  }

  /** From a visit of the bin on, the cached bin shows the bin until something is deleted. */
  lemma {:induction false} BinShowsAlong(order: Sorter, sha: Sha, owner: string, b: Both, acts: seq<Action>)
    requires Rearranges(order) && Inv(owner, b) && BinShows(b, owner) && ActsAll(order, sha, owner, b, acts)
    requires forall k :: 0 <= k < |acts| ==> !acts[k].DeleteFile?
    ensures BinShows(Run(order, sha, owner, b, acts), owner)
    decreases |acts|
  {
    if |acts| > 0 {
      ActKeeps(order, sha, owner, b, acts[0]);
      BinKeptIff(order, sha, owner, b, acts[0]);
      BinShowsAlong(order, sha, owner, Act(order, sha, owner, b, acts[0]), acts[1..]);
    }
  }
}
