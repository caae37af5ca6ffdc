/** What every reachable server state keeps: sessions match pending rows and their
    chunk files, and a completed row's file is its chunks in index order. */
module UploadRuns {
  import opened Text
  import opened FileModel
  import FT = FileTable
  import opened Upload

  /** The indexes are exactly 0, …, |m| - 1. */
  ghost predicate Whole(m: map<int, Bytes>) {
    forall i :: i in m <==> 0 <= i < |m|
  }

  predicate Uploaded(f: File) {
    f.fileType == Regular && f.uploadStatus == Completed
  }

  /** The recorded chunk files hold the accepted contents. */
  ghost predicate ChunksKept(temp: map<string, Bytes>, chunks: map<int, string>, m: map<int, Bytes>) {
    chunks.Keys == m.Keys && forall i :: i in chunks ==> chunks[i] in temp && temp[chunks[i]] == m[i]
  }

  /** The session's row is there, its owner's, and still waiting. */
  ghost predicate Waiting(rows: FT.Table, info: ChunkInfo) {
    var id := info.file.fileId;
    id in rows && rows[id].ownerId == info.accountId && rows[id].fileType == Regular && !Uploaded(rows[id])
  }

  ghost predicate SessionOk(w: World, info: ChunkInfo) {
    && Waiting(w.server.rows, info)
    && info.file.fileId in w.ledger
    && ChunksKept(w.server.temp, info.chunks, w.ledger[info.file.fileId])
    && forall i :: i in info.chunks ==> i < info.totalChunks
  }

  ghost predicate SessionsOk(w: World) {
    forall u :: u in w.server.sessions ==> SessionOk(w, w.server.sessions[u])
  }

  /** The file of a row is stored, whole and in order. */
  ghost predicate StoredOk(w: World, f: File) {
    var at := (f.ownerId, f.fileId);
    && f.fileId in w.ledger && Whole(w.ledger[f.fileId])
    && at in w.server.stored && w.server.stored[at] == Merged(w.ledger[f.fileId], |w.ledger[f.fileId]|)
  }

  ghost predicate CompletedStored(w: World) {
    forall id :: id in w.server.rows && Uploaded(w.server.rows[id]) ==> StoredOk(w, w.server.rows[id])
  }

  /** No two sessions upload the same file. */
  ghost predicate FilesApart(sessions: map<string, ChunkInfo>) {
    forall u, v :: u in sessions && v in sessions && u != v ==> sessions[u].file.fileId != sessions[v].file.fileId
  }

  /** No two sessions share a chunk file. */
  ghost predicate PathsApart(sessions: map<string, ChunkInfo>) {
    forall u, v, i, j :: u in sessions && v in sessions && u != v && i in sessions[u].chunks && j in sessions[v].chunks
      ==> sessions[u].chunks[i] != sessions[v].chunks[j]
  }

  /** No session uses a chunk file twice. */
  ghost predicate OwnPathsApart(sessions: map<string, ChunkInfo>) {
    forall u, i, j :: u in sessions && i in sessions[u].chunks && j in sessions[u].chunks && i != j
      ==> sessions[u].chunks[i] != sessions[u].chunks[j]
  }

  ghost predicate RowsOk(rows: FT.Table) {
    FT.KeysMatch(rows) && FT.Indexed(rows)
  }

  ghost predicate Inv(w: World) {
    && RowsOk(w.server.rows)
    && SessionsOk(w) && CompletedStored(w)
    && FilesApart(w.server.sessions) && PathsApart(w.server.sessions) && OwnPathsApart(w.server.sessions)
  }

  // ------------------------------------------------------------ opening an upload

  /** Rows stay and keep their owners. */
  ghost predicate OwnersStay(t: FT.Table, r: FT.Table) {
    forall id :: id in t ==> id in r && r[id].ownerId == t[id].ownerId
  }

  lemma GenerateRows(sha: Sha, s: Server, e: Event)
    requires RowsOk(s.rows) && e.GenerateId? && FreshEvent(sha, s, e)
    ensures var (t, r) := Upload.Apply(sha, s, e);
            && RowsOk(t.rows) && OwnersStay(s.rows, t.rows)
            && (r != Accepted ==> t == s)
            && (r == Accepted ==> t.rows == s.rows[e.fileId := Entry(sha, e.meta, e.account, e.fileId, e.at)])
  {
    var entry := Entry(sha, e.meta, e.account, e.fileId, e.at);
    FT.InsertOne(s.rows, entry);
    if FT.Insert(s.rows, [entry]).Some? {
      FT.ReplaceKeepsIndex(s.rows, entry);
    }
  }

  /** What the atomic events do to the set of sessions. */
  lemma OnlyGenerateOpens(sha: Sha, s: Server, e: Event)
    requires !e.SendChunk?
    ensures e.GenerateId? && e.u in Upload.Apply(sha, s, e).0.sessions && e.u !in s.sessions ==>
              Upload.Apply(sha, s, e).1 == Accepted
              && Upload.Apply(sha, s, e).0.sessions[e.u]
                 == ChunkInfo(e.meta.totalChunks, "", e.account, Entry(sha, e.meta, e.account, e.fileId, e.at), map[])
  {
  }

  // ------------------------------------------------------ changes to rows only

  /** Every old row keeps its owner, its type and whether it is an uploaded file,
      and no new row is one. */
  ghost predicate Quiet(t: FT.Table, r: FT.Table) {
    && RowsOk(r) && FT.Conserved(t, r)
    && forall id :: id in r ==> Uploaded(r[id]) == (id in t && Uploaded(t[id]))
  }

  lemma RowsOnly(w: World, rows: FT.Table)
    requires Inv(w) && Quiet(w.server.rows, rows)
    ensures Inv(w.(server := w.server.(rows := rows)))
  {
    var x := w.(server := w.server.(rows := rows));
    forall u | u in x.server.sessions ensures SessionOk(x, x.server.sessions[u]) {
      assert SessionOk(w, w.server.sessions[u]);
    }
    forall id | id in rows && Uploaded(rows[id]) ensures StoredOk(x, rows[id]) {
      assert StoredOk(w, w.server.rows[id]);
    }
  }

  /** Marking a waiting row as failed is never refused by the index. */
  lemma FailedIsQuiet(t: FT.Table, owner: string, id: string)
    requires RowsOk(t) && id in t && t[id].ownerId == owner && !Uploaded(t[id])
    ensures var r := FT.SetStatus(t, owner, id, Failed, None);
            r.Some? && Quiet(t, r.value) && r.value[id].uploadStatus == Failed
  {
    var f := t[id].(uploadStatus := Failed);
    assert !FT.Rejected(t, f);
    FT.ReplaceKeepsIndex(t, f);
  }

  lemma MarkFailedKeeps(w: World, info: ChunkInfo, dbFails: bool)
    requires Inv(w) && Waiting(w.server.rows, info)
    ensures Inv(w.(server := MarkFailed(w.server, info, dbFails)))
  {
    FailedIsQuiet(w.server.rows, info.accountId, info.file.fileId);
    if !dbFails {
      RowsOnly(w, FT.SetStatus(w.server.rows, info.accountId, info.file.fileId, Failed, None).value);
    } else {
      assert w.(server := MarkFailed(w.server, info, dbFails)) == w;
    }
  }

  lemma {:induction false} InsertIsQuiet(t: FT.Table, files: seq<File>)
    requires RowsOk(t) && FT.FreshRows(t, files) && FT.Insert(t, files).Some?
    requires forall i :: 0 <= i < |files| ==> !Uploaded(files[i])
    ensures Quiet(t, FT.Insert(t, files).value)
    decreases |files|
  {
    if |files| > 0 {
      var t1 := t[files[0].fileId := files[0]];
      FT.ReplaceKeepsIndex(t, files[0]);
      InsertIsQuiet(t1, files[1..]);
    }
  }

  /** A statement that adds no row and changes no status. */
  lemma UpdateIsQuiet(sha: Sha, t: FT.Table, step: FT.Step)
    requires RowsOk(t) && (step.RenameFile? || step.DeleteFiles? || step.RestoreFiles?)
    ensures var r := FT.Apply(sha, t, step);
            r.Keys == t.Keys && forall id :: id in t ==> Uploaded(r[id]) == Uploaded(t[id])
  {
  }

  lemma TableStepIsQuiet(sha: Sha, t: FT.Table, step: FT.Step)
    requires RowsOk(t) && FT.FreshStep(t, step) && !step.UpdateStatus?
    requires step.AddFiles? ==> forall i :: 0 <= i < |step.files| ==> step.files[i].fileType == Dir
    ensures Quiet(t, FT.Apply(sha, t, step))
  {
    FT.StepKeepsIndex(sha, t, step);
    FT.StepConserves(sha, t, step);
    if step.AddFiles? {
      if FT.Insert(t, step.files).Some? {
        InsertIsQuiet(t, step.files);
      }
    } else {
      UpdateIsQuiet(sha, t, step);
    }
  }

  // ------------------------------------------------------------ upload steps

  lemma GenerateKeeps(sha: Sha, w: World, u: string, meta: Meta, account: string, fileId: string, at: int)
    requires Inv(w) && FreshEvent(sha, w.server, GenerateId(u, meta, account, fileId, at))
    ensures Inv(Next(sha, w, GenerateId(u, meta, account, fileId, at)))
  {
    var s := w.server;
    var entry := Entry(sha, meta, account, fileId, at);
    var added := FT.Insert(s.rows, [entry]);
    if !IsBlank(meta.fileName) && meta.totalChunks != 0 && added.Some? {
      assert [entry][0] == entry && [entry][1..] == [];
      InsertIsQuiet(s.rows, [entry]);
      RowsOnly(w, added.value);
      assert added.value == s.rows[fileId := entry];
      OpenSession(w.(server := s.(rows := added.value)), u, ChunkInfo(meta.totalChunks, "", account, entry, map[]));
    }
  }

  /** A session for a new waiting row. */
  lemma OpenSession(w: World, u: string, info: ChunkInfo)
    requires Inv(w) && u !in w.server.sessions && Waiting(w.server.rows, info) && info.chunks == map[]
    requires forall v :: v in w.server.sessions ==> w.server.sessions[v].file.fileId != info.file.fileId
    ensures Inv(World(w.server.(sessions := w.server.sessions[u := info]), w.ledger[info.file.fileId := map[]]))
  {
    var x := World(w.server.(sessions := w.server.sessions[u := info]), w.ledger[info.file.fileId := map[]]);
    forall v | v in x.server.sessions ensures SessionOk(x, x.server.sessions[v]) {
      if v != u {
        assert SessionOk(w, w.server.sessions[v]);
      }
    }
    forall id | id in x.server.rows && Uploaded(x.server.rows[id]) ensures StoredOk(x, x.server.rows[id]) {
      assert StoredOk(w, w.server.rows[id]);
    }
  }

  /** The same sessions but for their directories. */
  ghost predicate SameButDirs(s: map<string, ChunkInfo>, t: map<string, ChunkInfo>) {
    s.Keys == t.Keys && forall u :: u in s ==> t[u] == s[u].(dir := t[u].dir)
  }

  lemma DirsKeep(w: World, sessions: map<string, ChunkInfo>, dirs: set<string>)
    requires Inv(w) && SameButDirs(w.server.sessions, sessions)
    ensures Inv(w.(server := w.server.(sessions := sessions, dirs := dirs)))
  {
    var x := w.(server := w.server.(sessions := sessions, dirs := dirs));
    forall v | v in sessions ensures SessionOk(x, sessions[v]) {
      assert SessionOk(w, w.server.sessions[v]);
    }
    forall id | id in x.server.rows && Uploaded(x.server.rows[id]) ensures StoredOk(x, x.server.rows[id]) {
      assert StoredOk(w, w.server.rows[id]);
    }
    DirsKeepApart(w.server.sessions, sessions);
  }

  lemma DirsKeepApart(s: map<string, ChunkInfo>, t: map<string, ChunkInfo>)
    requires FilesApart(s) && PathsApart(s) && OwnPathsApart(s) && SameButDirs(s, t)
    ensures FilesApart(t) && PathsApart(t) && OwnPathsApart(t)
  {
    forall u | u in t ensures t[u].chunks == s[u].chunks && t[u].file == s[u].file {
    }
  }

  /** Looking up or making the chunk directory changes no chunk. */
  lemma WithDirKeeps(w: World, u: string)
    requires Inv(w) && u in w.server.sessions
    ensures Inv(w.(server := WithDir(w.server, u)))
  {
    var t := WithDir(w.server, u);
    DirsKeep(w, t.sessions, t.dirs);
    assert t == w.server.(sessions := t.sessions, dirs := t.dirs);
  }

  lemma RecordKeeps(w: World, u: string, index: int, path: string, data: Bytes)
    requires Inv(w) && u in w.server.sessions && path !in w.server.temp && index < w.server.sessions[u].totalChunks
    ensures var id := w.server.sessions[u].file.fileId;
            id in w.ledger
            && Inv(World(Record(w.server, u, index, path, data), w.ledger[id := w.ledger[id][index := data]]))
  {
    var s := w.server;
    var id := s.sessions[u].file.fileId;
    assert SessionOk(w, s.sessions[u]);
    var x := World(Record(s, u, index, path, data), w.ledger[id := w.ledger[id][index := data]]);
    forall v | v in x.server.sessions ensures SessionOk(x, x.server.sessions[v]) {
      RecordKeepsSession(w, u, index, path, data, v);
    }
    forall k | k in x.server.rows && Uploaded(x.server.rows[k]) ensures StoredOk(x, x.server.rows[k]) {
      assert StoredOk(w, s.rows[k]);
    }
    forall v, i | v in s.sessions && i in s.sessions[v].chunks ensures s.sessions[v].chunks[i] != path {
      assert SessionOk(w, s.sessions[v]);
    }
    RecordKeepsApart(s.sessions, u, index, path);
  }

  lemma RecordKeepsSession(w: World, u: string, index: int, path: string, data: Bytes, v: string)
    requires SessionsOk(w) && FilesApart(w.server.sessions) && u in w.server.sessions && v in w.server.sessions
    requires path !in w.server.temp && index < w.server.sessions[u].totalChunks
    requires w.server.sessions[u].file.fileId in w.ledger
    ensures var id := w.server.sessions[u].file.fileId; var t := Record(w.server, u, index, path, data);
            SessionOk(World(t, w.ledger[id := w.ledger[id][index := data]]), t.sessions[v])
  {
    assert SessionOk(w, w.server.sessions[v]);
  }

  lemma RecordKeepsApart(s: map<string, ChunkInfo>, u: string, index: int, path: string)
    requires FilesApart(s) && PathsApart(s) && OwnPathsApart(s) && u in s
    requires forall v, i :: v in s && i in s[v].chunks ==> s[v].chunks[i] != path
    ensures var t := s[u := s[u].(chunks := s[u].chunks[index := path])];
            FilesApart(t) && PathsApart(t) && OwnPathsApart(t)
  {
    var t := s[u := s[u].(chunks := s[u].chunks[index := path])];
    forall v, i | v in t && i in t[v].chunks ensures v in s && t[v].file == s[v].file
      && (if v == u && i == index then t[v].chunks[i] == path else i in s[v].chunks && t[v].chunks[i] == s[v].chunks[i])
    {
    }
  }

  lemma ReceiveKeeps(w: World, u: string, index: int, data: Bytes, f: ChunkFaults)
    requires Inv(w) && u in w.server.sessions && f.path !in w.server.temp && index < w.server.sessions[u].totalChunks
    ensures w.server.sessions[u].file.fileId in w.ledger
    ensures var (t, r) := Receive(w.server, u, index, data, f); var id := w.server.sessions[u].file.fileId;
            Inv(World(t, if r == Accepted then w.ledger[id := w.ledger[id][index := data]] else w.ledger))
  {
    var s, info := w.server, w.server.sessions[u];
    assert SessionOk(w, info);
    if (info.dir != "" && f.statFails) || (NeedsDir(s, u) && f.mkdirFails) {
      MarkFailedKeeps(w, info, f.dbFails);
    } else {
      WithDirKeeps(w, u);
      FoundKeeps(w, w.(server := WithDir(s, u)), u, index, data, f);
    }
  }

  /** Once the directory is there. */
  lemma FoundKeeps(w: World, x: World, u: string, index: int, data: Bytes, f: ChunkFaults)
    requires Inv(w) && Inv(x) && x.ledger == w.ledger && x.server.rows == w.server.rows && x.server.temp == w.server.temp
    requires u in w.server.sessions && u in x.server.sessions && f.path !in w.server.temp
    requires x.server.sessions[u].(dir := "") == w.server.sessions[u].(dir := "") && index < x.server.sessions[u].totalChunks
    ensures var id := w.server.sessions[u].file.fileId;
            && id in w.ledger
            && Inv(x.(server := MarkFailed(x.server, w.server.sessions[u], f.dbFails)))
            && Inv(World(Record(x.server, u, index, f.path, data), w.ledger[id := w.ledger[id][index := data]]))
  {
    assert SessionOk(w, w.server.sessions[u]);
    MarkFailedKeeps(x, w.server.sessions[u], f.dbFails);
    RecordKeeps(x, u, index, f.path, data);
  }

  lemma ChunkKeeps(sha: Sha, w: World, u: string, index: int, data: Bytes, f: ChunkFaults)
    requires Inv(w) && f.path !in w.server.temp
    ensures Inv(Next(sha, w, SendChunk(u, index, data, f)))
  {
    if ChunkAllowed(w.server, u, index) {
      ReceiveKeeps(w, u, index, data, f);
    }
  }

  /** A file that is no completed row's may go. */
  lemma RemoveKeeps(w: World, info: ChunkInfo)
    requires Inv(w) && Waiting(w.server.rows, info)
    ensures Inv(w.(server := w.server.(stored := w.server.stored - {Location(info)})))
  {
    var x := w.(server := w.server.(stored := w.server.stored - {Location(info)}));
    forall v | v in x.server.sessions ensures SessionOk(x, x.server.sessions[v]) {
      assert SessionOk(w, w.server.sessions[v]);
    }
    forall k | k in x.server.rows && Uploaded(x.server.rows[k]) ensures StoredOk(x, x.server.rows[k]) {
      assert StoredOk(w, w.server.rows[k]);
    }
  }

  lemma CloseKeeps(w: World, u: string)
    requires Inv(w)
    ensures Inv(w.(server := w.server.(sessions := w.server.sessions - {u})))
  {
    var x := w.(server := w.server.(sessions := w.server.sessions - {u}));
    forall v | v in x.server.sessions ensures SessionOk(x, x.server.sessions[v]) {
      assert SessionOk(w, w.server.sessions[v]);
    }
    forall k | k in x.server.rows && Uploaded(x.server.rows[k]) ensures StoredOk(x, x.server.rows[k]) {
      assert StoredOk(w, w.server.rows[k]);
    }
  }

  lemma FailKeeps(sha: Sha, w: World, u: string, refused: bool)
    requires Inv(w)
    ensures Inv(Next(sha, w, FailUpload(u, refused)))
  {
    if u in w.server.sessions {
      assert SessionOk(w, w.server.sessions[u]);
      MarkFailedKeeps(w, w.server.sessions[u], false);
      CloseKeeps(w.(server := MarkFailed(w.server, w.server.sessions[u], false)), u);
    }
  }

  // -------------------------------------------------------------- completion

  function Below(n: nat): (r: set<int>)
    ensures |r| == n
    ensures forall i :: i in r <==> 0 <= i < n
  {
    if n == 0 then {} else Below(n - 1) + {n - 1}
  }

  /** n indexes among them 0, …, n - 1: there is no other. */
  lemma CountMeansWhole<T>(m: map<int, T>, n: nat)
    requires |m| == n && forall i :: 0 <= i < n ==> i in m
    ensures forall i :: i in m <==> 0 <= i < n
  {
    var all := Below(n);
    assert all <= m.Keys && |m.Keys| == |m|;
    SubsetOfSameSize(all, m.Keys);
    assert forall i :: i in m <==> i in all;
  }

  lemma CountOfAll<T>(m: map<int, T>, n: nat)
    requires forall i :: i in m <==> 0 <= i < n
    ensures |m| == n
  {
    assert m.Keys == Below(n) && |m.Keys| == |m|;
  }

  lemma {:induction false} SubsetOfSameSize<T>(a: set<T>, b: set<T>)
    requires a <= b && |a| >= |b|
    ensures a == b
  {
    if a != {} {
      var x :| x in a;
      SubsetOfSameSize(a - {x}, b - {x});
      assert a == (a - {x}) + {x} && b == (b - {x}) + {x};
    }
  }

  lemma {:induction false} MergedAgree(a: map<int, Bytes>, b: map<int, Bytes>, n: nat)
    requires forall i :: 0 <= i < n ==> i in a && i in b && a[i] == b[i]
    ensures Merged(a, n) == Merged(b, n)
  {
    if n > 0 {
      MergedAgree(a, b, n - 1);
    }
  }

  /** A merge that runs through is the accepted contents, all of them, in order. */
  lemma MergeIsLedger(w: World, u: string, bad: set<int>)
    requires Inv(w) && u in w.server.sessions
    requires var info := w.server.sessions[u];
             info.totalChunks == |info.chunks| && CopyFrom(w.server.temp, info, bad, 0) == Accepted
    ensures var info := w.server.sessions[u]; var id := info.file.fileId;
            id in w.ledger && Whole(w.ledger[id]) && |w.ledger[id]| == info.totalChunks
            && MergedChunks(w.server.temp, info, bad) == Merged(w.ledger[id], info.totalChunks)
  {
    var info := w.server.sessions[u];
    assert SessionOk(w, info);
    var m := w.ledger[info.file.fileId];
    assert |m| == |m.Keys| == |info.chunks.Keys| == |info.chunks|;
    forall i | 0 <= i < info.totalChunks
      ensures i in m && i in Contents(w.server.temp, info) && Contents(w.server.temp, info)[i] == m[i]
    {
      assert Readable(w.server.temp, info, bad, i);
    }
    CountMeansWhole(m, info.totalChunks);
    MergedAgree(Contents(w.server.temp, info), m, info.totalChunks);
  }

  lemma StoreKeeps(w: World, info: ChunkInfo, data: Bytes)
    requires Inv(w) && Waiting(w.server.rows, info)
    ensures Inv(w.(server := w.server.(stored := w.server.stored[Location(info) := data])))
  {
    var x := w.(server := w.server.(stored := w.server.stored[Location(info) := data]));
    forall v | v in x.server.sessions ensures SessionOk(x, x.server.sessions[v]) {
      assert SessionOk(w, w.server.sessions[v]);
    }
    forall k | k in x.server.rows && Uploaded(x.server.rows[k]) ensures StoredOk(x, x.server.rows[k]) {
      assert StoredOk(w, w.server.rows[k]);
    }
  }

  /** Dropping a session together with its own chunk files. */
  lemma DropKeeps(w: World, u: string, n: int)
    requires Inv(w) && u in w.server.sessions
    ensures var s := w.server;
            Inv(w.(server := s.(sessions := s.sessions - {u}, temp := s.temp - ChunkPaths(s.sessions[u], n))))
  {
    var s := w.server;
    CloseKeeps(w, u);
    var x := w.(server := s.(sessions := s.sessions - {u}, temp := s.temp - ChunkPaths(s.sessions[u], n)));
    forall v | v in x.server.sessions ensures SessionOk(x, x.server.sessions[v]) {
      assert SessionOk(w, s.sessions[v]);
    }
    forall k | k in x.server.rows && Uploaded(x.server.rows[k]) ensures StoredOk(x, x.server.rows[k]) {
      assert StoredOk(w, s.rows[k]);
    }
  }

  lemma CompleteRowKeeps(w: World, f: File)
    requires Inv(w) && FT.Owned(w.server.rows, f.ownerId, f.fileId) && w.server.rows[f.fileId].fileType == f.fileType
    requires !FT.Rejected(w.server.rows, f) && StoredOk(w, f)
    requires forall u :: u in w.server.sessions ==> w.server.sessions[u].file.fileId != f.fileId
    ensures Inv(w.(server := w.server.(rows := w.server.rows[f.fileId := f])))
  {
    var x := w.(server := w.server.(rows := w.server.rows[f.fileId := f]));
    FT.ReplaceKeepsIndex(w.server.rows, f);
    forall v | v in x.server.sessions ensures SessionOk(x, x.server.sessions[v]) {
      assert SessionOk(w, w.server.sessions[v]);
    }
    forall k | k in x.server.rows && Uploaded(x.server.rows[k]) ensures StoredOk(x, x.server.rows[k]) {
      if k != f.fileId {
        assert StoredOk(w, w.server.rows[k]);
      }
    }
  }

  lemma FinishKeeps(w: World, u: string, data: Bytes, dbFails: bool, now: int)
    requires Inv(w) && u in w.server.sessions
    requires var id := w.server.sessions[u].file.fileId;
             id in w.ledger && Whole(w.ledger[id]) && data == Merged(w.ledger[id], |w.ledger[id]|)
    ensures Inv(w.(server := Finish(w.server, u, w.server.sessions[u], data, dbFails, now)))
  {
    var s := w.server;
    var info := s.sessions[u];
    var id := info.file.fileId;
    assert SessionOk(w, info);
    StoreKeeps(w, info, data);
    var w1 := w.(server := s.(stored := s.stored[Location(info) := data]));
    DropKeeps(w1, u, info.totalChunks);
    var w2 := w1.(server := w1.server.(sessions := s.sessions - {u}, temp := s.temp - ChunkPaths(info, info.totalChunks)));
    var f := s.rows[id].(uploadStatus := Completed, modifiedOn := now);
    if !FT.Rejected(s.rows, f) && !dbFails {
      assert StoredOk(w2, f);
      CompleteRowKeeps(w2, f);
    }
  }

  lemma CompleteKeeps(sha: Sha, w: World, u: string, how: CompleteFaults, at: int)
    requires Inv(w)
    ensures Inv(Next(sha, w, CompleteUpload(u, how, at)))
  {
    var s := w.server;
    if u in s.sessions && s.sessions[u].totalChunks == |s.sessions[u].chunks| {
      var info := s.sessions[u];
      assert SessionOk(w, info);
      if how.mkdirFails || how.createFails {
        MarkFailedKeeps(w, info, how.dbFails);
      } else if CopyFrom(s.temp, info, how.bad, 0) != Accepted {
        RemoveKeeps(w, info);
        MarkFailedKeeps(w.(server := s.(stored := s.stored - {Location(info)})), info, how.dbFails);
      } else {
        MergeIsLedger(w, u, how.bad);
        FinishKeeps(w, u, MergedChunks(s.temp, info, how.bad), how.dbFails, at);
      }
    }
  }

  lemma StepKeeps(sha: Sha, w: World, e: Event)
    requires Inv(w) && FreshEvent(sha, w.server, e)
    ensures Inv(Next(sha, w, e))
  {
    match e
    case GenerateId(u, meta, account, fileId, at) => GenerateKeeps(sha, w, u, meta, account, fileId, at);
    case SendChunk(u, index, data, f) => ChunkKeeps(sha, w, u, index, data, f);
    case CompleteUpload(u, how, at) => CompleteKeeps(sha, w, u, how, at);
    case FailUpload(u, refused) => FailKeeps(sha, w, u, refused);
    case TableStep(step) =>
      TableStepIsQuiet(sha, w.server.rows, step);
      RowsOnly(w, FT.Apply(sha, w.server.rows, step));
  }

  /** Every reachable state meets the invariant. */
  lemma {:induction false} RunKeeps(sha: Sha, w: World, events: seq<Event>)
    requires Inv(w) && FreshEvents(sha, w, events)
    ensures Inv(Run(sha, w, events))
    decreases |events|
  {
    if |events| > 0 {
      StepKeeps(sha, w, events[0]);
      RunKeeps(sha, Next(sha, w, events[0]), events[1..]);
    }
  }

  const EMPTY := World(Server(map[], map[], {}, map[], map[]), map[])

  /** Whatever happens to a server that started empty, a file row that is completed
      has a stored file: the last accepted content of its chunks, every index from 0
      on, in index order. */
  lemma CompletedMeansStored(sha: Sha, events: seq<Event>, id: string)
    requires FreshEvents(sha, EMPTY, events)
    requires id in Run(sha, EMPTY, events).server.rows && Uploaded(Run(sha, EMPTY, events).server.rows[id])
    ensures var w := Run(sha, EMPTY, events); var at := (w.server.rows[id].ownerId, id);
            && id in w.ledger && Whole(w.ledger[id])
            && at in w.server.stored && w.server.stored[at] == Merged(w.ledger[id], |w.ledger[id]|)
  {
    RunKeeps(sha, EMPTY, events);
    var w := Run(sha, EMPTY, events);
    assert StoredOk(w, w.server.rows[id]);
  }

  // ------------------------------------------------ later steps change nothing

  /** The row is a completed upload in both, of the same owner, with the same file
      and the same recorded contents. */
  ghost predicate Settled(w: World, x: World, id: string) {
    && id in w.server.rows && id in x.server.rows && Uploaded(w.server.rows[id]) && Uploaded(x.server.rows[id])
    && x.server.rows[id].ownerId == w.server.rows[id].ownerId
    && id in w.ledger && id in x.ledger && x.ledger[id] == w.ledger[id]
    && var at := (w.server.rows[id].ownerId, id);
       at in w.server.stored && at in x.server.stored && x.server.stored[at] == w.server.stored[at]
  }

  /** The row and its file are as before. */
  ghost predicate Untouched(s: Server, t: Server, id: string) {
    && id in s.rows && id in t.rows && t.rows[id] == s.rows[id]
    && var at := (s.rows[id].ownerId, id);
       at in s.stored ==> at in t.stored && t.stored[at] == s.stored[at]
  }

  lemma MarkFailedTouches(s: Server, info: ChunkInfo, dbFails: bool, id: string)
    requires FT.KeysMatch(s.rows) && Untouched(s, s, id) && info.file.fileId != id
    ensures Untouched(s, MarkFailed(s, info, dbFails), id)
  {
  }

  lemma FinishTouches(s: Server, u: string, info: ChunkInfo, data: Bytes, dbFails: bool, now: int, id: string)
    requires FT.KeysMatch(s.rows) && Untouched(s, s, id) && info.file.fileId != id
    ensures Untouched(s, Finish(s, u, info, data, dbFails, now), id)
  {
  }

  lemma FinalizeTouches(s: Server, u: string, info: ChunkInfo, how: CompleteFaults, at: int, id: string)
    requires FT.KeysMatch(s.rows) && Untouched(s, s, id) && info.file.fileId != id && info.totalChunks >= 0
    ensures Untouched(s, Finalize(s, u, info, how, at).0, id)
  {
    MarkFailedTouches(s, info, how.dbFails, id);
    MarkFailedTouches(s.(stored := s.stored - {Location(info)}), info, how.dbFails, id);
    if CopyFrom(s.temp, info, how.bad, 0) == Accepted {
      FinishTouches(s, u, info, MergedChunks(s.temp, info, how.bad), how.dbFails, at, id);
    }
  }

  /** A request for one file touches no other. */
  lemma OtherFileUntouched(sha: Sha, s: Server, e: Event, id: string)
    requires FT.KeysMatch(s.rows) && Untouched(s, s, id) && (e.SendChunk? || e.CompleteUpload? || e.FailUpload?)
    requires e.u in s.sessions && s.sessions[e.u].file.fileId != id
    ensures Untouched(s, Upload.Apply(sha, s, e).0, id)
  {
    var info := s.sessions[e.u];
    match e
    case SendChunk(u, index, data, f) =>
      var t := WithDir(s, u);
      assert t.rows == s.rows && t.stored == s.stored;
      MarkFailedTouches(s, info, f.dbFails, id);
      MarkFailedTouches(t, info, f.dbFails, id);
    case CompleteUpload(u, how, at) =>
      if info.totalChunks >= 0 {
        FinalizeTouches(s, u, info, how, at, id);
      }
    case FailUpload(u, refused) => MarkFailedTouches(s, info, false, id);
  }

  /** A request for one upload leaves every other session alone. */
  lemma OtherSession(sha: Sha, s: Server, e: Event, u: string)
    requires (e.SendChunk? || e.CompleteUpload? || e.FailUpload?) && e.u != u && u in s.sessions
    ensures u in Upload.Apply(sha, s, e).0.sessions && Upload.Apply(sha, s, e).0.sessions[u] == s.sessions[u]
  {
    if e.u in s.sessions {
      match e
      case SendChunk(v, index, data, f) => ReceiveKeepsOthers(s, v, index, data, f, u);
      case CompleteUpload(v, how, at) =>
        if s.sessions[v].totalChunks >= 0 {
          FinalizeKeepsOthers(s, v, s.sessions[v], how, at, u);
        }
      case FailUpload(v, refused) =>
    }
  }

  lemma ReceiveKeepsOthers(s: Server, v: string, index: int, data: Bytes, f: ChunkFaults, u: string)
    requires v in s.sessions && u in s.sessions && u != v
    ensures var t := Receive(s, v, index, data, f).0; u in t.sessions && t.sessions[u] == s.sessions[u]
  {
  }

  lemma FinalizeKeepsOthers(s: Server, v: string, info: ChunkInfo, how: CompleteFaults, at: int, u: string)
    requires u in s.sessions && u != v && info.totalChunks >= 0
    ensures var t := Finalize(s, v, info, how, at).0; u in t.sessions && t.sessions[u] == s.sessions[u]
  {
  }

  lemma UnknownChangesNothing(sha: Sha, s: Server, e: Event)
    requires (e.SendChunk? || e.CompleteUpload? || e.FailUpload?) && e.u !in s.sessions
    ensures Upload.Apply(sha, s, e) == (s, BadRequest)
  {
  }

  lemma OtherRecordKept(w: World, e: Event, r: Response, id: string)
    requires (e.SendChunk? || e.CompleteUpload? || e.FailUpload?) && id in w.ledger
    requires e.u in w.server.sessions ==> w.server.sessions[e.u].file.fileId != id
    ensures id in Recorded(w, e, r) && Recorded(w, e, r)[id] == w.ledger[id]
  {
  }

  lemma RequestSettles(sha: Sha, w: World, e: Event, id: string)
    requires Inv(w) && (e.SendChunk? || e.CompleteUpload? || e.FailUpload?)
    requires id in w.server.rows && Uploaded(w.server.rows[id])
    ensures Settled(w, Next(sha, w, e), id)
  {
    assert StoredOk(w, w.server.rows[id]);
    var (t, r) := Upload.Apply(sha, w.server, e);
    if e.u in w.server.sessions {
      assert SessionOk(w, w.server.sessions[e.u]);
      OtherFileUntouched(sha, w.server, e, id);
    } else {
      UnknownChangesNothing(sha, w.server, e);
    }
    OtherRecordKept(w, e, r, id);
  }

  lemma StepSettles(sha: Sha, w: World, e: Event, id: string)
    requires Inv(w) && FreshEvent(sha, w.server, e)
    requires id in w.server.rows && Uploaded(w.server.rows[id])
    ensures Settled(w, Next(sha, w, e), id)
  {
    assert StoredOk(w, w.server.rows[id]);
    match e
    case TableStep(step) => TableStepIsQuiet(sha, w.server.rows, step);
    case GenerateId(u, meta, account, fileId, at) =>
      var entry := Entry(sha, meta, account, fileId, at);
      assert [entry][0] == entry && [entry][1..] == [];
      if FT.Insert(w.server.rows, [entry]).Some? {
        FT.InsertConserves(w.server.rows, [entry]);
      }
    case _ => RequestSettles(sha, w, e, id);
  }

  /** Once a file is completed, no later step changes its status, its file or its
      recorded contents. */
  lemma {:induction false} CompletedStays(sha: Sha, w: World, events: seq<Event>, id: string)
    requires Inv(w) && FreshEvents(sha, w, events)
    requires id in w.server.rows && Uploaded(w.server.rows[id])
    ensures Settled(w, Run(sha, w, events), id)
    decreases |events|
  {
    assert StoredOk(w, w.server.rows[id]);
    if |events| > 0 {
      StepKeeps(sha, w, events[0]);
      StepSettles(sha, w, events[0], id);
      CompletedStays(sha, Next(sha, w, events[0]), events[1..], id);
    }
  }

  // ------------------------------------------------------- what Complete needs

  predicate FaultFree(f: CompleteFaults) {
    !f.mkdirFails && !f.createFails && f.bad == {} && !f.dbFails
  }

  lemma MergedMeansWhole(temp: map<string, Bytes>, info: ChunkInfo, bad: set<int>)
    requires info.totalChunks == |info.chunks| && CopyFrom(temp, info, bad, 0) == Accepted
    ensures forall i :: i in info.chunks <==> 0 <= i < info.totalChunks
  {
    forall i | 0 <= i < info.totalChunks ensures i in info.chunks {
      assert Readable(temp, info, bad, i);
    }
    CountMeansWhole(info.chunks, info.totalChunks);
  }

  /** Complete accepts only with the indexes 0, …, totalChunks - 1 and no other;
      otherwise it stores nothing and keeps the session and its chunks. */
  lemma CompleteNeedsEveryIndex(s: Server, u: string, f: CompleteFaults, now: int)
    requires u in s.sessions
    ensures var info := s.sessions[u]; var (t, r) := Complete(s, u, f, now);
            if r == Accepted then
              info.totalChunks == |info.chunks| && forall i :: i in info.chunks <==> 0 <= i < info.totalChunks
            else
              && t.sessions == s.sessions && t.temp == s.temp
              && (t.stored == s.stored || t.stored == s.stored - {Location(info)})
  {
    var info := s.sessions[u];
    if info.totalChunks == |info.chunks| && CopyFrom(s.temp, info, f.bad, 0) == Accepted {
      MergedMeansWhole(s.temp, info, f.bad);
    }
  }

  /** In a reachable state nothing but the count is needed, exactly when no negative
      index was recorded. */
  lemma CompleteIff(w: World, u: string, f: CompleteFaults, now: int)
    requires Inv(w) && u in w.server.sessions && FaultFree(f)
    ensures var info := w.server.sessions[u];
            Complete(w.server, u, f, now).1 == Accepted <==>
            info.totalChunks == |info.chunks| && forall i :: i in info.chunks ==> i >= 0
  {
    var s := w.server;
    var info := s.sessions[u];
    assert SessionOk(w, info);
    CompleteNeedsEveryIndex(s, u, f, now);
    if info.totalChunks == |info.chunks| && forall i :: i in info.chunks ==> i >= 0 {
      CountSuffices(w, info, f.bad);
    }
  }

  /** By counting: that many distinct indexes, each at least 0 and below the count. */
  lemma CountSuffices(w: World, info: ChunkInfo, bad: set<int>)
    requires SessionOk(w, info) && bad == {}
    requires info.totalChunks == |info.chunks| && forall i :: i in info.chunks ==> i >= 0
    ensures CopyFrom(w.server.temp, info, bad, 0) == Accepted
  {
    var all := Below(info.totalChunks);
    assert info.chunks.Keys <= all && |info.chunks.Keys| == |info.chunks|;
    SubsetOfSameSize(info.chunks.Keys, all);
    forall i | 0 <= i < info.totalChunks ensures Readable(w.server.temp, info, bad, i) {
      assert i in all;
    }
  }

  /** After a completion that failed, trying again with working disks ends as if the
      failure had not happened: the same answer, sessions and stored bytes. */
  lemma RetryStores(s: Server, u: string, f: CompleteFaults, now: int, good: CompleteFaults, later: int)
    requires FaultFree(good) && Complete(s, u, f, now).1 != Accepted
    ensures SameEnd(Complete(Complete(s, u, f, now).0, u, good, later), Complete(s, u, good, later))
  {
    if u in s.sessions {
      CompleteNeedsEveryIndex(s, u, f, now);
      RetryEndsTheSame(s, Complete(s, u, f, now).0, u, good, later);
    }
  }

  ghost predicate SameEnd(again: (Server, Response), direct: (Server, Response)) {
    && again.1 == direct.1 && again.0.sessions == direct.0.sessions && again.0.temp == direct.0.temp
    && (direct.1 == Accepted ==> again.0.stored == direct.0.stored)
  }

  lemma RetryEndsTheSame(s: Server, t: Server, u: string, good: CompleteFaults, later: int)
    requires u in s.sessions && FaultFree(good) && t.sessions == s.sessions && t.temp == s.temp
    requires t.stored == s.stored || t.stored == s.stored - {Location(s.sessions[u])}
    ensures SameEnd(Complete(t, u, good, later), Complete(s, u, good, later))
  {
    var info := s.sessions[u];
    if info.totalChunks == |info.chunks| {
      if CopyFrom(s.temp, info, good.bad, 0) == Accepted {
        FinishEndsTheSame(s, t, u, info, MergedChunks(s.temp, info, good.bad), later);
      }
    }
  }

  lemma FinishEndsTheSame(s: Server, t: Server, u: string, info: ChunkInfo, merged: Bytes, later: int)
    requires t.sessions == s.sessions && t.temp == s.temp
    requires t.stored == s.stored || t.stored == s.stored - {Location(info)}
    ensures SameEnd((Finish(t, u, info, merged, false, later), Accepted), (Finish(s, u, info, merged, false, later), Accepted))
  {
    assert t.stored[Location(info) := merged] == s.stored[Location(info) := merged];
  }

  /** The index lets a waiting row become completed exactly when nobody claims its hash. */
  lemma CompletingIff(rows: FT.Table, owner: string, id: string, now: int)
    requires RowsOk(rows) && FT.Owned(rows, owner, id) && rows[id].fileType == Regular
    ensures FT.SetStatus(rows, owner, id, Completed, Some(now)).Some? <==>
            forall k :: k in rows && k != id ==> FT.IndexKey(rows[k]) != Some(rows[id].uniqueHash)
    ensures rows[id].uploadStatus == Pending ==> FT.SetStatus(rows, owner, id, Completed, Some(now)).Some?
  {
    var g := rows[id].(uploadStatus := Completed, modifiedOn := now);
    assert FT.IndexKey(g) == Some(rows[id].uniqueHash);
    if rows[id].uploadStatus == Pending {
      forall k | k in rows && k != id ensures !FT.Clash(g, rows[k]) {
        assert !FT.Clash(rows[id], rows[k]);
      }
    }
  }

  lemma CompleteRow(s: Server, u: string, f: CompleteFaults, now: int)
    requires u in s.sessions && !f.dbFails && Waiting(s.rows, s.sessions[u]) && FT.KeysMatch(s.rows)
    ensures var info := s.sessions[u]; var (t, r) := Complete(s, u, f, now);
            && info.file.fileId in t.rows
            && (r == Accepted ==>
                  (Uploaded(t.rows[info.file.fileId]) <==>
                   FT.SetStatus(s.rows, info.accountId, info.file.fileId, Completed, Some(now)).Some?))
  {
  }

  /** The accepted completion reaches the row exactly when no other pending or
      completed file claims its hash, which a row still pending is sure of. */
  lemma RowCompletesIff(w: World, u: string, f: CompleteFaults, now: int)
    requires Inv(w) && u in w.server.sessions && FaultFree(f)
    ensures var id := w.server.sessions[u].file.fileId; var rows := w.server.rows; var (t, r) := Complete(w.server, u, f, now);
            && id in rows && id in t.rows
            && (r == Accepted ==>
                  (Uploaded(t.rows[id]) <==>
                   forall k :: k in rows && k != id ==> FT.IndexKey(rows[k]) != Some(rows[id].uniqueHash)))
            && (r == Accepted && rows[id].uploadStatus == Pending ==> Uploaded(t.rows[id]))
  {
    var info := w.server.sessions[u];
    assert SessionOk(w, info);
    CompletingIff(w.server.rows, info.accountId, info.file.fileId, now);
    CompleteRow(w.server, u, f, now);
  }
}
