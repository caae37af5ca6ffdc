/** Chunked uploads on the server: sessions, chunk files, stored files and the File
    table, with each handler as one step. Disk and database faults are arguments. */
module Upload {
  import opened Text
  import opened FileModel
  import FT = FileTable
  import Base64

  type Bytes = seq<Base64.Byte>

  /** An upload session; chunks maps an index to the path of its chunk file. */
  datatype ChunkInfo = ChunkInfo(totalChunks: int, dir: string, accountId: string, file: File, chunks: map<int, string>)

  /** stored is keyed by account directory and file name. */
  datatype Server = Server(
    sessions: map<string, ChunkInfo>, temp: map<string, Bytes>, dirs: set<string>,
    stored: map<(string, string), Bytes>, rows: FT.Table)

  datatype Meta = Meta(fileName: string, fileSize: int, extension: string, parentId: string, totalChunks: int)

  /** What fails while a chunk is received; path is the name CreateTemp picks. */
  datatype ChunkFaults = ChunkFaults(statFails: bool, mkdirFails: bool, createFails: bool, copyFails: bool, dbFails: bool, path: string)

  /** What fails during completion; bad lists the chunks that cannot be copied. */
  datatype CompleteFaults = CompleteFaults(mkdirFails: bool, createFails: bool, bad: set<int>, dbFails: bool)

  datatype Response = Accepted | BadRequest | InternalError | DuplicateData

  /** White space as strings.TrimSpace removes it. */
  predicate IsSpace(c: char) {
    || c == ' ' || '\t' <= c <= '\r' || c == '\U{85}' || c == '\U{A0}' || c == '\U{1680}' || '\U{2000}' <= c <= '\U{200A}'
    || c == '\U{2028}' || c == '\U{2029}' || c == '\U{202F}' || c == '\U{205F}' || c == '\U{3000}'
  }

  predicate IsBlank(s: string) {
    forall i :: 0 <= i < |s| ==> IsSpace(s[i])
  }

  function Entry(sha: Sha, meta: Meta, account: string, fileId: string, now: int): File {
    NewFile(sha, fileId, now, account, meta.fileName, Regular, TrimDot(meta.extension), meta.fileSize, meta.parentId, Pending)
  }

  /** UploadGenerateId */
  function Generate(sha: Sha, s: Server, u: string, meta: Meta, account: string, fileId: string, now: int): (Server, Response) {
    if IsBlank(meta.fileName) || meta.totalChunks == 0 then (s, BadRequest)
    else
      var entry := Entry(sha, meta, account, fileId, now);
      var added := FT.Insert(s.rows, [entry]);
      if added.None? then (s, DuplicateData)
      else
        (s.(rows := added.value, sessions := s.sessions[u := ChunkInfo(meta.totalChunks, "", account, entry, map[])]),
         Accepted)
  }

  /** updateUploadStatusFailed */
  function MarkFailed(s: Server, info: ChunkInfo, dbFails: bool): Server {
    var r := FT.SetStatus(s.rows, info.accountId, info.file.fileId, Failed, None);
    if r.Some? && !dbFails then s.(rows := r.value) else s
  }

  function ChunkDir(u: string): string {
    "lcschunks/" + u
  }

  /** The session after its chunk directory was looked up or made. */
  function WithDir(s: Server, u: string): Server
    requires u in s.sessions
  {
    var info := s.sessions[u];
    if info.dir == "" || info.dir !in s.dirs then
      s.(dirs := s.dirs + {ChunkDir(u)}, sessions := s.sessions[u := info.(dir := ChunkDir(u))])
    else s
  }

  predicate NeedsDir(s: Server, u: string)
    requires u in s.sessions
  {
    s.sessions[u].dir == "" || s.sessions[u].dir !in s.dirs
  }

  /** The checks made before any lock is taken. */
  predicate ChunkAllowed(s: Server, u: string, index: int) {
    u in s.sessions && index + 1 <= s.sessions[u].totalChunks && s.sessions[u].totalChunks != |s.sessions[u].chunks|
  }

  /** UploadFileChunk */
  function Chunk(s: Server, u: string, index: int, data: Bytes, f: ChunkFaults): (Server, Response) {
    if !ChunkAllowed(s, u, index) then (s, BadRequest) else Receive(s, u, index, data, f)
  }

  /** The part of UploadFileChunk that runs under the lock. */
  function Receive(s: Server, u: string, index: int, data: Bytes, f: ChunkFaults): (Server, Response)
    requires u in s.sessions
  {
    var info := s.sessions[u];
    if (info.dir != "" && f.statFails) || (NeedsDir(s, u) && f.mkdirFails) then
      (MarkFailed(s, info, f.dbFails), InternalError)
    else
      var t := WithDir(s, u);
      if f.createFails || f.copyFails then (MarkFailed(t, info, f.dbFails), InternalError)
      else (Record(t, u, index, f.path, data), Accepted)
  }

  /** A chunk file is written and its path recorded under the index. */
  function Record(s: Server, u: string, index: int, path: string, data: Bytes): Server
    requires u in s.sessions
  {
    var info := s.sessions[u];
    s.(temp := s.temp[path := data], sessions := s.sessions[u := info.(chunks := info.chunks[index := path])])
  }

  /** The contents of chunks 0, …, n - 1 in index order. */
  function Merged(m: map<int, Bytes>, n: nat): Bytes
    requires forall i :: 0 <= i < n ==> i in m
  {
    if n == 0 then [] else Merged(m, n - 1) + m[n - 1]
  }

  /** Chunk i is recorded, its file is there and copying it works. */
  predicate Readable(temp: map<string, Bytes>, info: ChunkInfo, bad: set<int>, i: int) {
    i in info.chunks && info.chunks[i] in temp && i !in bad
  }

  /** How copying chunks i, i + 1, … ends: the first chunk that stops it decides. */
  function CopyFrom(temp: map<string, Bytes>, info: ChunkInfo, bad: set<int>, i: nat): (r: Response)
    ensures r == Accepted <==> forall j :: i <= j < info.totalChunks ==> Readable(temp, info, bad, j)
    ensures r == Accepted || r == BadRequest || r == InternalError
    decreases info.totalChunks - i
  {
    if i >= info.totalChunks then Accepted
    else if i !in info.chunks then assert !Readable(temp, info, bad, i); BadRequest
    else if !Readable(temp, info, bad, i) then InternalError
    else CopyFrom(temp, info, bad, i + 1)
  }

  /** The recorded chunks with their contents. */
  function Contents(temp: map<string, Bytes>, info: ChunkInfo): map<int, Bytes> {
    map i | i in info.chunks && info.chunks[i] in temp :: temp[info.chunks[i]]
  }

  function Location(info: ChunkInfo): (string, string) {
    (info.accountId, info.file.fileId)
  }

  /** The paths of chunks 0, …, n - 1. */
  function ChunkPaths(info: ChunkInfo, n: int): set<string> {
    set i | i in info.chunks && 0 <= i < n :: info.chunks[i]
  }

  /** UploadFileComplete */
  function Complete(s: Server, u: string, f: CompleteFaults, now: int): (Server, Response) {
    if u !in s.sessions then (s, BadRequest)
    else
      var info := s.sessions[u];
      if info.totalChunks != |info.chunks| then (s, BadRequest)
      else Finalize(s, u, info, f, now)
  }

  /** What follows the checks works on the copy of the session that they looked at. */
  function Finalize(s: Server, u: string, info: ChunkInfo, f: CompleteFaults, now: int): (Server, Response)
    requires info.totalChunks >= 0
  {
    if f.mkdirFails || f.createFails then (MarkFailed(s, info, f.dbFails), InternalError)
    else Merge(s, u, info, f, now)
  }

  /** The merge, once the file is open. */
  function Merge(s: Server, u: string, info: ChunkInfo, f: CompleteFaults, now: int): (Server, Response)
    requires info.totalChunks >= 0
  {
    var copied := CopyFrom(s.temp, info, f.bad, 0);
    if copied == Accepted then (Finish(s, u, info, MergedChunks(s.temp, info, f.bad), f.dbFails, now), Accepted)
    else (MarkFailed(s.(stored := s.stored - {Location(info)}), info, f.dbFails), copied)
  }

  /** What a complete merge writes. */
  function MergedChunks(temp: map<string, Bytes>, info: ChunkInfo, bad: set<int>): Bytes
    requires info.totalChunks >= 0 && CopyFrom(temp, info, bad, 0) == Accepted
  {
    assert forall i :: 0 <= i < info.totalChunks ==> i in Contents(temp, info) by {
      forall i | 0 <= i < info.totalChunks ensures i in Contents(temp, info) {
        assert Readable(temp, info, bad, i);
      }
    }
    Merged(Contents(temp, info), info.totalChunks)
  }

  /** The row becomes completed if the database accepts it; the session and its
      chunk files are dropped either way. */
  function Finish(s: Server, u: string, info: ChunkInfo, merged: Bytes, dbFails: bool, now: int): Server {
    var r := FT.SetStatus(s.rows, info.accountId, info.file.fileId, Completed, Some(now));
    Server(s.sessions - {u}, s.temp - ChunkPaths(info, info.totalChunks), s.dirs, s.stored[Location(info) := merged],
           if r.Some? && !dbFails then r.value else s.rows)
  }

  /** UploadFileStatusFailed */
  function Fail(s: Server, u: string, dbFails: bool): (Server, Response) {
    if u !in s.sessions then (s, BadRequest) else GiveUp(s, u, s.sessions[u], dbFails)
  }

  /** What follows the look-up, on the copy that it found. */
  function GiveUp(s: Server, u: string, info: ChunkInfo, dbFails: bool): (Server, Response) {
    if dbFails then (s, InternalError)
    else
      var t := MarkFailed(s, info, false);
      (t.(sessions := t.sessions - {u}), Accepted)
  }

  // --------------------------------------------------------------------- runs

  datatype Event =
    | GenerateId(u: string, meta: Meta, account: string, fileId: string, at: int)
    | SendChunk(u: string, index: int, data: Bytes, faults: ChunkFaults)
    | CompleteUpload(u: string, how: CompleteFaults, at: int)
    | FailUpload(u: string, refused: bool)
    | TableStep(step: FT.Step)

  function Apply(sha: Sha, s: Server, e: Event): (Server, Response) {
    match e
    case GenerateId(u, meta, account, fileId, at) => Generate(sha, s, u, meta, account, fileId, at)
    case SendChunk(u, index, data, faults) => Chunk(s, u, index, data, faults)
    case CompleteUpload(u, how, at) => Complete(s, u, how, at)
    case FailUpload(u, refused) => Fail(s, u, refused)
    case TableStep(step) => (s.(rows := FT.Apply(sha, s.rows, step)), Accepted)
  }

  /** The server beside a record of the last accepted content of every chunk of every
      file: each accepted request writes its data under the file of its session. */
  datatype World = World(server: Server, ledger: map<string, map<int, Bytes>>)

  function Recorded(w: World, e: Event, r: Response): map<string, map<int, Bytes>> {
    if r != Accepted then w.ledger
    else
      match e
      case GenerateId(_, _, _, fileId, _) => w.ledger[fileId := map[]]
      case SendChunk(u, index, data, _) =>
        if u in w.server.sessions && w.server.sessions[u].file.fileId in w.ledger then
          var id := w.server.sessions[u].file.fileId;
          w.ledger[id := w.ledger[id][index := data]]
        else w.ledger
      case _ => w.ledger
  }

  function Next(sha: Sha, w: World, e: Event): World {
    var (s, r) := Apply(sha, w.server, e);
    World(s, Recorded(w, e, r))
  }

  function Run(sha: Sha, w: World, events: seq<Event>): World
    decreases |events|
  {
    if |events| == 0 then w else Run(sha, Next(sha, w, events[0]), events[1..])
  }

  /** Ids and temporary paths are drawn freshly; folders are the only rows added
      outside an upload, and no other operation sets a status. */
  ghost predicate FreshEvent(sha: Sha, s: Server, e: Event) {
    match e
    case GenerateId(u, meta, account, fileId, at) => u !in s.sessions && FT.FreshRow(s.rows, Entry(sha, meta, account, fileId, at))
    case SendChunk(_, _, _, faults) => faults.path !in s.temp
    case TableStep(step) =>
      FT.FreshStep(s.rows, step) && !step.UpdateStatus?
      && (step.AddFiles? ==> forall i :: 0 <= i < |step.files| ==> step.files[i].fileType == Dir)
    case _ => true
  }

  ghost predicate FreshEvents(sha: Sha, w: World, events: seq<Event>)
    decreases |events|
  {
    |events| > 0 ==> FreshEvent(sha, w.server, events[0]) && FreshEvents(sha, Next(sha, w, events[0]), events[1..])
  }
}
