/** The locked part of a chunk request, which works from a copy of the session that was
    read before the lock was taken. R is the type of references to index maps. */
module UploadLocked {
  import opened Text
  import opened FileModel
  import FT = FileTable
  import opened Upload

  /** chunkInfo: a value whose index map is shared by every copy. */
  datatype Session<R> = Session(totalChunks: int, dir: string, accountId: string, file: File, indexes: R)

  predicate Missing(dirs: set<string>, dir: string) {
    dir == "" || dir !in dirs
  }

  /** The chunk directory is there or could be made. */
  predicate FindsDir(dirs: set<string>, dir: string, f: ChunkFaults) {
    !(dir != "" && f.statFails) && !(Missing(dirs, dir) && f.mkdirFails)
  }

  /** The copy is written back when its directory had to be made. */
  predicate WritesBack(dirs: set<string>, dir: string, f: ChunkFaults) {
    Missing(dirs, dir) && FindsDir(dirs, dir, f)
  }

  predicate Accepts(dirs: set<string>, dir: string, f: ChunkFaults) {
    FindsDir(dirs, dir, f) && !f.createFails && !f.copyFails
  }

  function SessionsAfter<R>(sessions: map<string, Session<R>>, dirs: set<string>, u: string, copy: Session<R>,
                            f: ChunkFaults): map<string, Session<R>>
  {
    if WritesBack(dirs, copy.dir, f) then sessions[u := copy.(dir := ChunkDir(u))] else sessions
  }

  function DirsAfter(dirs: set<string>, u: string, dir: string, f: ChunkFaults): set<string> {
    if WritesBack(dirs, dir, f) then dirs + {ChunkDir(u)} else dirs
  }

  function RowsAfter(rows: FT.Table, dirs: set<string>, dir: string, accountId: string, fileId: string, f: ChunkFaults): FT.Table {
    if Accepts(dirs, dir, f) || f.dbFails then rows
    else
      var failed := FT.SetStatus(rows, accountId, fileId, Failed, None);
      if failed.Some? then failed.value else rows
  }

  /** The locked part part by part. */
  lemma ReceiveByParts(s: Server, u: string, index: int, data: Bytes, f: ChunkFaults)
    requires u in s.sessions
    ensures var info := s.sessions[u];
            var ok := Accepts(s.dirs, info.dir, f);
            var dir := if WritesBack(s.dirs, info.dir, f) then ChunkDir(u) else info.dir;
            var chunks := if ok then info.chunks[index := f.path] else info.chunks;
            Receive(s, u, index, data, f)
            == (Server(s.sessions[u := info.(dir := dir, chunks := chunks)],
                       if ok then s.temp[f.path := data] else s.temp,
                       DirsAfter(s.dirs, u, info.dir, f), s.stored,
                       RowsAfter(s.rows, s.dirs, info.dir, info.accountId, info.file.fileId, f)),
                if ok then Accepted else InternalError)
  {
    var info := s.sessions[u];
    assert s.sessions[u := info] == s.sessions;
    if Accepts(s.dirs, info.dir, f) {
      var t := WithDir(s, u);
      assert Record(t, u, index, f.path, data).sessions
        == s.sessions[u := t.sessions[u].(chunks := info.chunks[index := f.path])];
    }
  }
}
