/** The upload handlers as they work on their own state: the session map, whose entries
    are values that share their index map, and the files on disk. */
module FileHandler {
  import opened Text
  import opened FileModel
  import FT = FileTable
  import opened Upload
  import opened UploadLocked

  /** ChunkIndexes: a map that every copy of a session shares. */
  class IndexMap {
    var entries: map<int, string>

    constructor ()
      ensures entries == map[]
    {
      entries := map[];
    }
  }

  class FileHandler {
    var uploadSessions: map<string, Session<IndexMap>>
    var temp: map<string, Bytes>
    var dirs: set<string>
    var stored: map<(string, string), Bytes>
    var rows: FT.Table

    ghost function Indexes(): set<IndexMap>
      reads this
    {
      set u | u in uploadSessions :: uploadSessions[u].indexes
    }

    /** Each session has an index map of its own. */
    ghost predicate Valid()
      reads this
    {
      forall u, v :: u in uploadSessions && v in uploadSessions && u != v ==>
        uploadSessions[u].indexes != uploadSessions[v].indexes
    }

    ghost function Info(s: Session<IndexMap>): ChunkInfo
      reads s.indexes
    {
      ChunkInfo(s.totalChunks, s.dir, s.accountId, s.file, s.indexes.entries)
    }

    ghost function Sessions(): map<string, ChunkInfo>
      reads this, Indexes()
    {
      map u | u in uploadSessions :: Info(uploadSessions[u])
    }

    /** The server these fields stand for. */
    ghost function State(): Server
      reads this, Indexes()
    {
      Server(Sessions(), temp, dirs, stored, rows)
    }

    constructor ()
      ensures Valid() && State() == Server(map[], map[], {}, map[], map[])
    {
      uploadSessions, temp, dirs, stored, rows := map[], map[], {}, map[], map[];
    }

    method UpdateUploadStatusFailed(accountId: string, fileId: string, dbFails: bool)
      modifies this`rows
      ensures var r := FT.SetStatus(old(rows), accountId, fileId, Failed, None);
              rows == if r.Some? && !dbFails then r.value else old(rows)
      ensures State() == old(State()).(rows := rows)
    {
      ghost var sessions := Sessions();
      if !dbFails {
        var r := FT.SetStatus(rows, accountId, fileId, Failed, None);
        if r.Some? {
          rows := r.value;
        }
      }
      SessionsAre(sessions);
    }

    method UploadGenerateId(sha: Sha, u: string, meta: Meta, account: string, fileId: string, now: int) returns (r: Response)
      requires Valid()
      modifies this
      ensures Valid() && fresh(Indexes() - old(Indexes()))
      ensures (State(), r) == Generate(sha, old(State()), u, meta, account, fileId, now)
    {
      if IsBlank(meta.fileName) || meta.totalChunks == 0 {
        return BadRequest;
      }
      var entry := Entry(sha, meta, account, fileId, now);
      var added := FT.Insert(rows, [entry]);
      if added.None? {
        return DuplicateData;
      }
      rows := added.value;
      var indexes := new IndexMap();
      uploadSessions := uploadSessions[u := Session(meta.totalChunks, "", account, entry, indexes)];
      assert Sessions() == old(Sessions())[u := ChunkInfo(meta.totalChunks, "", account, entry, map[])];
      return Accepted;
    }

    /** The body under the lock; cinfo is the copy read before. */
    method ReceiveChunk(u: string, copy: Session<IndexMap>, index: int, data: Bytes, f: ChunkFaults) returns (r: Response)
      modifies this, copy.indexes
      ensures uploadSessions == SessionsAfter(old(uploadSessions), old(dirs), u, copy, f)
      ensures dirs == DirsAfter(old(dirs), u, copy.dir, f) && stored == old(stored)
      ensures rows == RowsAfter(old(rows), old(dirs), copy.dir, copy.accountId, copy.file.fileId, f)
      ensures var ok := Accepts(old(dirs), copy.dir, f);
              && r == (if ok then Accepted else InternalError)
              && temp == (if ok then old(temp)[f.path := data] else old(temp))
              && copy.indexes.entries
                 == (if ok then old(copy.indexes.entries)[index := f.path] else old(copy.indexes.entries))
    {
      var cinfo := copy;
      if cinfo.dir != "" && f.statFails {
        UpdateUploadStatusFailed(cinfo.accountId, cinfo.file.fileId, f.dbFails);
        return InternalError;
      }
      if cinfo.dir == "" || cinfo.dir !in dirs {
        if f.mkdirFails {
          UpdateUploadStatusFailed(cinfo.accountId, cinfo.file.fileId, f.dbFails);
          return InternalError;
        }
        dirs := dirs + {ChunkDir(u)};
        cinfo := cinfo.(dir := ChunkDir(u));
        uploadSessions := uploadSessions[u := cinfo];
      }
      if f.createFails || f.copyFails {
        UpdateUploadStatusFailed(cinfo.accountId, cinfo.file.fileId, f.dbFails);
        return InternalError;
      }
      temp := temp[f.path := data];
      cinfo.indexes.entries := cinfo.indexes.entries[index := f.path];
      return Accepted;
    }

    lemma SessionsAre(want: map<string, ChunkInfo>)
      requires uploadSessions.Keys == want.Keys
      requires forall v :: v in uploadSessions ==> Info(uploadSessions[v]) == want[v]
      ensures Sessions() == want
    {
    }

    /** The locked body on a copy that is still current. */
    method ReceiveCurrent(u: string, index: int, data: Bytes, f: ChunkFaults) returns (r: Response)
      requires Valid() && u in uploadSessions
      modifies this, uploadSessions[u].indexes
      ensures uploadSessions.Keys == old(uploadSessions).Keys
      ensures forall v :: v in uploadSessions ==> uploadSessions[v].indexes == old(uploadSessions[v].indexes)
      ensures (State(), r) == Receive(old(State()), u, index, data, f)
    {
      ghost var before := State();
      var copy := uploadSessions[u];
      ghost var dir := if WritesBack(dirs, copy.dir, f) then ChunkDir(u) else copy.dir;
      r := ReceiveChunk(u, copy, index, data, f);
      ghost var want := before.sessions[u := before.sessions[u].(dir := dir, chunks := copy.indexes.entries)];
      forall v | v in uploadSessions ensures Info(uploadSessions[v]) == want[v] {
        if v != u {
          assert uploadSessions[v] == old(uploadSessions[v]);
        }
      }
      SessionsAre(want);
      ReceiveByParts(before, u, index, data, f);
    }

    method UploadFileChunk(u: string, index: int, data: Bytes, f: ChunkFaults) returns (r: Response)
      requires Valid()
      modifies this, Indexes()
      ensures Valid() && Indexes() == old(Indexes())
      ensures (State(), r) == Chunk(old(State()), u, index, data, f)
    {
      if u !in uploadSessions {
        return BadRequest;
      }
      var cinfo := uploadSessions[u];
      if index + 1 > cinfo.totalChunks || cinfo.totalChunks == |cinfo.indexes.entries| {
        return BadRequest;
      }
      r := ReceiveCurrent(u, index, data, f);
    }

    method CreateFile(at: (string, string))
      modifies this`stored
      ensures State() == old(State()).(stored := old(stored)[at := []])
    {
      ghost var sessions := Sessions();
      stored := stored[at := []];
      SessionsAre(sessions);
    }

    /** The merge loop: chunk after chunk is appended to the stored file, which is removed
        again when one is missing or cannot be copied. */
    method MergeChunks(cinfo: Session<IndexMap>, at: (string, string), bad: set<int>) returns (r: Response, paths: seq<string>)
      requires cinfo.totalChunks >= 0 && at in stored && stored[at] == []
      modifies this`stored
      ensures r == CopyFrom(temp, Info(cinfo), bad, 0)
      ensures r == Accepted ==> stored == old(stored)[at := MergedChunks(temp, Info(cinfo), bad)]
      ensures r == Accepted ==> forall p :: p in paths <==> p in ChunkPaths(Info(cinfo), cinfo.totalChunks)
      ensures r != Accepted ==> stored == old(stored) - {at}
      ensures Sessions() == old(Sessions())
    {
      paths := [];
      ghost var info := Info(cinfo);
      var i := 0;
      while i < cinfo.totalChunks
        invariant 0 <= i <= cinfo.totalChunks
        invariant CopyFrom(temp, info, bad, 0) == CopyFrom(temp, info, bad, i)
        invariant forall j :: 0 <= j < i ==> j in Contents(temp, info)
        invariant at in stored && stored[at] == Merged(Contents(temp, info), i)
        invariant stored == old(stored)[at := stored[at]]
        invariant forall p :: p in paths <==> p in ChunkPaths(info, i)
      {
        if i !in cinfo.indexes.entries {
          stored := stored - {at};
          return BadRequest, paths;
        }
        var chunkPath := cinfo.indexes.entries[i];
        if chunkPath !in temp || i in bad {
          stored := stored - {at};
          return InternalError, paths;
        }
        assert Readable(temp, info, bad, i);
        stored := stored[at := stored[at] + temp[chunkPath]];
        paths := paths + [chunkPath];
        OneMorePath(info, i);
        i := i + 1;
      }
      r := Accepted;
    }

    /** Opening the stored file anew and merging into it. */
    method MergeInto(cinfo: Session<IndexMap>, at: (string, string), bad: set<int>) returns (r: Response, paths: seq<string>)
      requires cinfo.totalChunks >= 0
      modifies this`stored
      ensures r == CopyFrom(temp, Info(cinfo), bad, 0)
      ensures r == Accepted ==> State() == old(State()).(stored := old(stored)[at := MergedChunks(temp, Info(cinfo), bad)])
      ensures r == Accepted ==> forall p :: p in paths <==> p in ChunkPaths(Info(cinfo), cinfo.totalChunks)
      ensures r != Accepted ==> State() == old(State()).(stored := old(stored) - {at})
    {
      CreateFile(at);
      ghost var created := stored;
      r, paths := MergeChunks(cinfo, at, bad);
      if r == Accepted {
        assert created[at := MergedChunks(temp, Info(cinfo), bad)] == old(stored)[at := MergedChunks(temp, Info(cinfo), bad)];
      } else {
        assert created - {at} == old(stored) - {at};
      }
    }

    lemma OneMorePath(info: ChunkInfo, i: nat)
      requires i in info.chunks
      ensures ChunkPaths(info, i + 1) == ChunkPaths(info, i) + {info.chunks[i]}
    {
    }

    method RemoveFiles(paths: seq<string>)
      modifies this`temp
      ensures temp == old(temp) - (set p | p in paths)
    {
      var k := 0;
      while k < |paths|
        invariant 0 <= k <= |paths|
        invariant temp == old(temp) - (set p | p in paths[..k])
      {
        temp := temp - {paths[k]};
        assert paths[..k + 1] == paths[..k] + [paths[k]];
        k := k + 1;
      }
      assert paths[..k] == paths;
    }

    /** After the merge: the row is completed, the session and its chunk files go. */
    method FinishUpload(u: string, cinfo: Session<IndexMap>, paths: seq<string>, dbFails: bool, now: int, ghost merged: Bytes)
      requires Valid()
      requires forall p :: p in paths <==> p in ChunkPaths(Info(cinfo), cinfo.totalChunks)
      requires (cinfo.accountId, cinfo.file.fileId) in stored && stored[(cinfo.accountId, cinfo.file.fileId)] == merged
      modifies this
      ensures Valid() && uploadSessions == old(uploadSessions) - {u}
      ensures State() == Finish(old(State()), u, Info(cinfo), merged, dbFails, now)
    {
      if !dbFails {
        var updated := FT.SetStatus(rows, cinfo.accountId, cinfo.file.fileId, Completed, Some(now));
        if updated.Some? {
          rows := updated.value;
        }
      }
      uploadSessions := uploadSessions - {u};
      RemoveFiles(paths);
      SessionsAre(old(Sessions()) - {u});
      assert (set p | p in paths) == ChunkPaths(Info(cinfo), cinfo.totalChunks);
      assert stored == stored[(cinfo.accountId, cinfo.file.fileId) := merged];
    }

    method UploadFileComplete(u: string, f: CompleteFaults, now: int) returns (r: Response)
      requires Valid()
      modifies this
      ensures Valid() && uploadSessions.Keys <= old(uploadSessions).Keys
      ensures (State(), r) == Complete(old(State()), u, f, now)
    {
      if u !in uploadSessions {
        return BadRequest;
      }
      var cinfo := uploadSessions[u];
      if cinfo.totalChunks != |cinfo.indexes.entries| {
        return BadRequest;
      }
      r := FinalizeUpload(u, cinfo, f, now);
    }

    lemma StoredAlready(s: Server, u: string, info: ChunkInfo, merged: Bytes, dbFails: bool, now: int)
      ensures Finish(s.(stored := s.stored[Location(info) := merged]), u, info, merged, dbFails, now)
           == Finish(s, u, info, merged, dbFails, now)
    {
      assert s.stored[Location(info) := merged][Location(info) := merged] == s.stored[Location(info) := merged];
    }

    /** What follows the checks: cinfo is the copy they looked at, and nothing says that its
        session is still there. */
    method FinalizeUpload(u: string, cinfo: Session<IndexMap>, f: CompleteFaults, now: int) returns (r: Response)
      requires Valid() && cinfo.totalChunks >= 0
      modifies this
      ensures Valid() && uploadSessions.Keys <= old(uploadSessions).Keys
      ensures (State(), r) == Finalize(old(State()), u, old(Info(cinfo)), f, now)
    {
      if f.mkdirFails || f.createFails {
        UpdateUploadStatusFailed(cinfo.accountId, cinfo.file.fileId, f.dbFails);
        return InternalError;
      }
      r := MergeAndFinish(u, cinfo, f, now);
    }

    method MergeAndFinish(u: string, cinfo: Session<IndexMap>, f: CompleteFaults, now: int) returns (r: Response)
      requires Valid() && cinfo.totalChunks >= 0
      modifies this
      ensures Valid() && uploadSessions.Keys <= old(uploadSessions).Keys
      ensures (State(), r) == Merge(old(State()), u, old(Info(cinfo)), f, now)
    {
      ghost var s := State();
      ghost var info := Info(cinfo);
      var storedFilePath := (cinfo.accountId, cinfo.file.fileId);
      var chunkPathsToRemove;
      r, chunkPathsToRemove := MergeInto(cinfo, storedFilePath, f.bad);
      if r != Accepted {
        UpdateUploadStatusFailed(cinfo.accountId, cinfo.file.fileId, f.dbFails);
      } else {
        ghost var merged := MergedChunks(s.temp, info, f.bad);
        FinishUpload(u, cinfo, chunkPathsToRemove, f.dbFails, now, merged);
        StoredAlready(s, u, info, merged, f.dbFails, now);
      }
    }

    method UploadFileStatusFailed(u: string, dbFails: bool) returns (r: Response)
      requires Valid()
      modifies this
      ensures Valid()
      ensures (State(), r) == Fail(old(State()), u, dbFails)
    {
      if u !in uploadSessions {
        return BadRequest;
      }
      r := GiveUpUpload(u, uploadSessions[u], dbFails);
    }

    /** What follows the look-up, on the copy that it found. */
    method GiveUpUpload(u: string, cinfo: Session<IndexMap>, dbFails: bool) returns (r: Response)
      requires Valid()
      modifies this
      ensures Valid()
      ensures (State(), r) == GiveUp(old(State()), u, old(Info(cinfo)), dbFails)
    {
      if dbFails {
        return InternalError;
      }
      UpdateUploadStatusFailed(cinfo.accountId, cinfo.file.fileId, false);
      uploadSessions := uploadSessions - {u};
      SessionsAre(old(Sessions()) - {u});
      return Accepted;
    }
  }
}
