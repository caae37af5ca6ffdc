/** What each upload request answers and leaves on the server, field by field. */
module UploadOutcomes {
  import opened Text
  import opened FileModel
  import FT = FileTable
  import FileOutcomes
  import opened Upload
  import opened UploadLocked

  /** The rows after a request gave up on a file: failed, unless the database refuses. */
  ghost predicate RowGivenUp(rows: FT.Table, after: FT.Table, info: ChunkInfo, dbFails: bool) {
    var id := info.file.fileId;
    if dbFails || id !in rows || rows[id].ownerId != info.accountId then after == rows
    else FileOutcomes.OnlyRow(rows, after, id) && after[id] == rows[id].(uploadStatus := Failed)
  }

  lemma GivenUp(s: Server, info: ChunkInfo, dbFails: bool)
    requires FT.KeysMatch(s.rows)
    ensures RowGivenUp(s.rows, MarkFailed(s, info, dbFails).rows, info, dbFails)
    ensures MarkFailed(s, info, dbFails) == s.(rows := MarkFailed(s, info, dbFails).rows)
  {
    var id := info.file.fileId;
    if id in s.rows && s.rows[id].ownerId == info.accountId {
      assert !FT.Rejected(s.rows, s.rows[id].(uploadStatus := Failed));
    }
  }

  /** An upload id is answered with a pending row, all of whose columns are those asked
      for, and a session without chunks; otherwise nothing changes. */
  lemma GenerateOutcome(sha: Sha, s: Server, u: string, meta: Meta, account: string, fileId: string, now: int)
    ensures var (t, r) := Generate(sha, s, u, meta, account, fileId, now);
            var ext := TrimDot(TrimDot(meta.extension));
            var row := File(account, meta.fileName, Regular, fileId, ext, meta.parentId, account + "/" + fileId, meta.fileSize,
                            now, None, Pending, sha(account + meta.fileName + ext + meta.parentId));
            if r != Accepted then t == s
            else t == s.(rows := s.rows[fileId := row], sessions := s.sessions[u := ChunkInfo(meta.totalChunks, "", account, row, map[])])
  {
    FT.InsertOne(s.rows, Entry(sha, meta, account, fileId, now));
  }

  /** A chunk request outside the session's bounds, or on a full session, is refused. Any
      other needs its directory, which it makes when the session has none or it is gone,
      and room for the chunk file; it then records the file under the index. Failing at
      either it fails the row, and keeps the directory that it made. */
  lemma ChunkOutcome(s: Server, u: string, index: int, data: Bytes, f: ChunkFaults)
    requires FT.KeysMatch(s.rows)
    ensures var (t, r) := Chunk(s, u, index, data, f);
            if u !in s.sessions || index >= s.sessions[u].totalChunks || s.sessions[u].totalChunks == |s.sessions[u].chunks|
            then (t, r) == (s, BadRequest)
            else
              var info := s.sessions[u];
              var missing := info.dir == "" || info.dir !in s.dirs;
              var found := (info.dir == "" || !f.statFails) && (!missing || !f.mkdirFails);
              var made := found && missing;
              var ok := found && !f.createFails && !f.copyFails;
              && r == (if ok then Accepted else InternalError)
              && t.dirs == (if made then s.dirs + {"lcschunks/" + u} else s.dirs) && t.stored == s.stored
              && t.temp == (if ok then s.temp[f.path := data] else s.temp)
              && t.sessions == s.sessions[u := ChunkInfo(info.totalChunks, if made then "lcschunks/" + u else info.dir, info.accountId,
                                                         info.file, if ok then info.chunks[index := f.path] else info.chunks)]
              && (if ok then t.rows == s.rows else RowGivenUp(s.rows, t.rows, info, f.dbFails))
  {
    if ChunkAllowed(s, u, index) {
      ReceiveByParts(s, u, index, data, f);
      LockedRows(s, s.sessions[u], f);
    }
  }

  lemma LockedRows(s: Server, info: ChunkInfo, f: ChunkFaults)
    requires FT.KeysMatch(s.rows)
    ensures var after := RowsAfter(s.rows, s.dirs, info.dir, info.accountId, info.file.fileId, f);
            if Accepts(s.dirs, info.dir, f) then after == s.rows else RowGivenUp(s.rows, after, info, f.dbFails)
  {
    GivenUp(s, info, f.dbFails);
  }

  /** Chunk i cannot be merged: no path, no file under it, or the copy fails. */
  predicate Unreadable(s: Server, info: ChunkInfo, bad: set<int>, i: int) {
    i !in info.chunks || info.chunks[i] !in s.temp || i in bad
  }

  /** The first chunk that cannot be merged. */
  ghost predicate Stops(s: Server, info: ChunkInfo, bad: set<int>, i: int) {
    0 <= i < info.totalChunks && Unreadable(s, info, bad, i) && forall j :: 0 <= j < i ==> !Unreadable(s, info, bad, j)
  }

  lemma {:induction false} CopyStops(s: Server, info: ChunkInfo, bad: set<int>, i: nat)
    requires forall j :: 0 <= j < i ==> !Unreadable(s, info, bad, j)
    ensures var r := CopyFrom(s.temp, info, bad, i);
            if r == Accepted then forall j :: i <= j < info.totalChunks ==> !Unreadable(s, info, bad, j)
            else exists k :: Stops(s, info, bad, k) && r == (if k !in info.chunks then BadRequest else InternalError)
    decreases info.totalChunks - i
  {
    if i < info.totalChunks {
      if Unreadable(s, info, bad, i) {
        assert Stops(s, info, bad, i);
      } else {
        assert Readable(s.temp, info, bad, i);
        CopyStops(s, info, bad, i + 1);
      }
    }
  }

  /** A completion that is refused for its session leaves everything. One that cannot open
      the stored file fails the row. One that cannot merge answers by the first chunk that
      stops it, and leaves no file and a failed row; sessions, chunk files and directories
      stay in each case. */
  lemma CompleteOutcome(s: Server, u: string, f: CompleteFaults, now: int)
    requires FT.KeysMatch(s.rows) && Complete(s, u, f, now).1 != Accepted
    ensures var (t, r) := Complete(s, u, f, now);
            if u !in s.sessions || s.sessions[u].totalChunks != |s.sessions[u].chunks| then (t, r) == (s, BadRequest)
            else
              var info := s.sessions[u];
              var created := !f.mkdirFails && !f.createFails;
              && t.sessions == s.sessions && t.temp == s.temp && t.dirs == s.dirs
              && RowGivenUp(s.rows, t.rows, info, f.dbFails)
              && t.stored == (if created then s.stored - {(info.accountId, info.file.fileId)} else s.stored)
              && if !created then r == InternalError
                 else exists k :: Stops(s, info, f.bad, k) && r == (if k !in info.chunks then BadRequest else InternalError)
  {
    if u in s.sessions && s.sessions[u].totalChunks == |s.sessions[u].chunks| {
      var info := s.sessions[u];
      GivenUp(s, info, f.dbFails);
      GivenUp(s.(stored := s.stored - {Location(info)}), info, f.dbFails);
      CopyStops(s, info, f.bad, 0);
    }
  }

  /** The path is that of a chunk below the total. */
  ghost predicate HoldsChunk(info: ChunkInfo, p: string) {
    exists i :: 0 <= i < info.totalChunks && i in info.chunks && info.chunks[i] == p
  }

  /** An accepted completion writes the merged chunks, drops the session and exactly its
      chunk files, and completes the row, unless the database or the index refuses. */
  lemma CompletedOutcome(s: Server, u: string, f: CompleteFaults, now: int)
    requires FT.KeysMatch(s.rows) && Complete(s, u, f, now).1 == Accepted
    ensures u in s.sessions
    ensures var t := Complete(s, u, f, now).0; var info := s.sessions[u]; var id := info.file.fileId;
            && (forall i :: 0 <= i < info.totalChunks ==> !Unreadable(s, info, f.bad, i)) && info.totalChunks == |info.chunks|
            && t.sessions == s.sessions - {u} && t.dirs == s.dirs
            && (forall p :: p in t.temp <==> p in s.temp && !HoldsChunk(info, p))
            && (forall p :: p in t.temp ==> t.temp[p] == s.temp[p])
            && (info.accountId, id) in t.stored && t.stored == s.stored[(info.accountId, id) := t.stored[(info.accountId, id)]]
            && if f.dbFails || id !in s.rows || s.rows[id].ownerId != info.accountId
                  || (s.rows[id].fileType == Regular && FileOutcomes.HashTaken(s.rows, id, s.rows[id].uniqueHash))
               then t.rows == s.rows
               else FileOutcomes.OnlyRow(s.rows, t.rows, id) && t.rows[id] == s.rows[id].(uploadStatus := Completed, modifiedOn := now)
  {
    var info := s.sessions[u];
    CopyStops(s, info, f.bad, 0);
    if FT.Owned(s.rows, info.accountId, info.file.fileId) {
      CompletedRow(s.rows, info.accountId, info.file.fileId, now);
    }
    RemovedPaths(s.temp, info);
  }

  lemma CompletedRow(rows: FT.Table, owner: string, id: string, now: int)
    requires FT.KeysMatch(rows) && FT.Owned(rows, owner, id)
    ensures var r := FT.SetStatus(rows, owner, id, Completed, Some(now));
            if rows[id].fileType == Regular && FileOutcomes.HashTaken(rows, id, rows[id].uniqueHash) then r.None?
            else r == Some(rows[id := rows[id].(uploadStatus := Completed, modifiedOn := now)])
  {
    FileOutcomes.StatusOutcome((x: string) => x, rows, owner, id, Completed, Some(now));
  }

  lemma RemovedPaths(temp: map<string, Bytes>, info: ChunkInfo)
    ensures var left := temp - ChunkPaths(info, info.totalChunks);
            && (forall p :: p in left <==> p in temp && !HoldsChunk(info, p))
            && forall p :: p in left ==> left[p] == temp[p]
  {
  }

  /** Giving up is refused for an unknown upload and when the database fails; otherwise the
      row is failed and the session goes, and nothing else. */
  lemma FailOutcome(s: Server, u: string, dbFails: bool)
    requires FT.KeysMatch(s.rows)
    ensures var (t, r) := Fail(s, u, dbFails);
            if u !in s.sessions then (t, r) == (s, BadRequest)
            else if dbFails then (t, r) == (s, InternalError)
            else
              && r == Accepted && t == s.(sessions := s.sessions - {u}, rows := t.rows)
              && RowGivenUp(s.rows, t.rows, s.sessions[u], false)
  {
    if u in s.sessions {
      GivenUp(s, s.sessions[u], false);
    }
  }
}
