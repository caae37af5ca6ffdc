/** Requests in two steps: reading a copy of the session, and working on that copy. A chunk
    request takes the lock of its upload between the two; a completion or a failure takes
    no lock. Any number of requests are between their two steps at once. */
module UploadInterleaving {
  import opened Text
  import opened FileModel
  import FT = FileTable
  import opened Upload
  import opened UploadLocked
  import opened UploadRuns

  /** A chunk request between its two steps. */
  datatype Request = Request(u: string, copy: Session<nat>, index: int, data: Bytes)

  /** A completion or a failure between its two steps. */
  datatype End = End(u: string, copy: Session<nat>, completes: bool)

  /** heap holds the shared index maps; waiting the chunk requests about to lock; ends the
      completions and failures about to act. */
  datatype Shared = Shared(
    sessions: map<string, Session<nat>>, heap: map<nat, map<int, string>>, temp: map<string, Bytes>, dirs: set<string>,
    stored: map<(string, string), Bytes>, rows: FT.Table, waiting: map<nat, Request>, ends: map<nat, End>)

  function Info(copy: Session<nat>, chunks: map<int, string>): ChunkInfo {
    ChunkInfo(copy.totalChunks, copy.dir, copy.accountId, copy.file, chunks)
  }

  /** The server with every index map in place. */
  function Deref(h: Shared): Server {
    Server(map u | u in h.sessions && h.sessions[u].indexes in h.heap :: Info(h.sessions[u], h.heap[h.sessions[u].indexes]),
           h.temp, h.dirs, h.stored, h.rows)
  }

  /** The unlocked part: look the session up, check, keep a copy. */
  function Read(h: Shared, thread: nat, u: string, index: int, data: Bytes): Shared {
    if ChunkAllowed(Deref(h), u, index) then h.(waiting := h.waiting[thread := Request(u, h.sessions[u], index, data)])
    else h
  }

  /** The locked part, on the copy. */
  function Body(h: Shared, thread: nat, f: ChunkFaults): Shared
    requires thread in h.waiting && h.waiting[thread].copy.indexes in h.heap
  {
    var q := h.waiting[thread];
    var r := q.copy.indexes;
    var ok := Accepts(h.dirs, q.copy.dir, f);
    Shared(SessionsAfter(h.sessions, h.dirs, q.u, q.copy, f),
           if ok then h.heap[r := h.heap[r][q.index := f.path]] else h.heap,
           if ok then h.temp[f.path := q.data] else h.temp,
           DirsAfter(h.dirs, q.u, q.copy.dir, f), h.stored,
           RowsAfter(h.rows, h.dirs, q.copy.dir, q.copy.accountId, q.copy.file.fileId, f),
           h.waiting - {thread}, h.ends)
  }

  /** A completion looks the session up and counts its chunks, a failure looks it up; both
      keep a copy. */
  function EndRead(h: Shared, thread: nat, u: string, completes: bool): Shared {
    if u in Deref(h).sessions && (completes ==> Deref(h).sessions[u].totalChunks == |Deref(h).sessions[u].chunks|) then
      h.(ends := h.ends[thread := End(u, h.sessions[u], completes)])
    else h
  }

  /** The copy still has its index map. */
  predicate Ready(h: Shared, thread: nat) {
    && thread in h.ends && h.ends[thread].copy.indexes in h.heap
    && (h.ends[thread].completes ==> h.ends[thread].copy.totalChunks >= 0)
  }

  /** How the rest of a completion or a failure ends, on the copy. */
  function Ended(h: Shared, thread: nat, how: CompleteFaults, at: int): (Server, Response)
    requires Ready(h, thread)
  {
    var n := h.ends[thread];
    var info := Info(n.copy, h.heap[n.copy.indexes]);
    if n.completes then Finalize(Deref(h), n.u, info, how, at) else GiveUp(Deref(h), n.u, info, how.dbFails)
  }

  function Act(h: Shared, thread: nat, how: CompleteFaults, at: int): Shared
    requires Ready(h, thread)
  {
    Settle(h, Ended(h, thread, how, at).0, thread)
  }

  /** The server's remaining sessions, its files and rows; the request is over. */
  function Settle(h: Shared, s: Server, thread: nat): Shared {
    h.(sessions := map v | v in h.sessions && v in s.sessions :: h.sessions[v],
       temp := s.temp, stored := s.stored, rows := s.rows, ends := h.ends - {thread})
  }

  /** A request that runs as one step: opening an upload, completing or failing it with
      nothing in between, or an operation on the table. A new session gets the index map
      ref. */
  function Atomic(sha: Sha, h: Shared, e: Event, ref: nat): Shared {
    Install(h, Upload.Apply(sha, Deref(h), e).0, e, ref)
  }

  /** The server's sessions, files and rows, with the index maps where they were. */
  function Install(h: Shared, s: Server, e: Event, ref: nat): Shared {
    var kept := map v | v in h.sessions && v in s.sessions :: h.sessions[v];
    var isNew := e.GenerateId? && e.u in s.sessions && e.u !in h.sessions;
    h.(sessions := if isNew then kept[e.u := Opened(s.sessions[e.u], ref)] else kept,
       heap := if isNew then h.heap[ref := map[]] else h.heap,
       temp := s.temp, stored := s.stored, rows := s.rows)
  }

  function Opened(info: ChunkInfo, ref: nat): Session<nat> {
    Session(info.totalChunks, info.dir, info.accountId, info.file, ref)
  }

  datatype Step =
    | ReadStep(thread: nat, u: string, index: int, data: Bytes)
    | BodyStep(thread: nat, faults: ChunkFaults)
    | EndReadStep(thread: nat, u: string, completes: bool)
    | ActStep(thread: nat, how: CompleteFaults, at: int)
    | WholeStep(e: Event, ref: nat)

  function Advance(sha: Sha, h: Shared, s: Step): Shared {
    match s
    case ReadStep(thread, u, index, data) => Read(h, thread, u, index, data)
    case BodyStep(thread, f) =>
      if thread in h.waiting && h.waiting[thread].copy.indexes in h.heap then Body(h, thread, f) else h
    case EndReadStep(thread, u, completes) => EndRead(h, thread, u, completes)
    case ActStep(thread, how, at) => if Ready(h, thread) then Act(h, thread, how, at) else h
    case WholeStep(e, ref) => Atomic(sha, h, e, ref)
  }

  function RunSteps(sha: Sha, h: Shared, steps: seq<Step>): Shared
    decreases |steps|
  {
    if |steps| == 0 then h else RunSteps(sha, Advance(sha, h, steps[0]), steps[1..])
  }

  /** Nothing is running. */
  const IDLE := Shared(map[], map[], map[], {}, map[], map[], map[], map[])

  // ------------------------------------------------------------- fresh steps

  /** Ids, paths and index maps are new when they are drawn; chunk requests take their
      two steps. */
  ghost predicate Fresh(sha: Sha, h: Shared, s: Step) {
    match s
    case BodyStep(_, f) => !f.createFails ==> f.path !in h.temp
    case WholeStep(e, ref) =>
      !e.SendChunk? && FreshEvent(sha, Deref(h), e) && (e.GenerateId? ==> ref !in h.heap && NobodyIn(h, e.u))
    case _ => true
  }

  /** No request for the upload is between its two steps. */
  ghost predicate NobodyIn(h: Shared, u: string) {
    (forall k :: k in h.waiting ==> h.waiting[k].u != u) && (forall k :: k in h.ends ==> h.ends[k].u != u)
  }

  ghost predicate FreshRun(sha: Sha, h: Shared, steps: seq<Step>)
    decreases |steps|
  {
    |steps| > 0 ==> Fresh(sha, h, steps[0]) && FreshRun(sha, Advance(sha, h, steps[0]), steps[1..])
  }

  /** The step does not open, complete or fail u. */
  predicate Spares(h: Shared, s: Step, u: string) {
    match s
    case WholeStep(e, _) => e.TableStep? || e.u != u
    case ActStep(thread, _, _) => thread in h.ends ==> h.ends[thread].u != u
    case _ => true
  }

  predicate SparesAll(sha: Sha, h: Shared, steps: seq<Step>, u: string)
    decreases |steps|
  {
    |steps| > 0 ==> Spares(h, steps[0], u) && SparesAll(sha, Advance(sha, h, steps[0]), steps[1..], u)
  }

  // -------------------------------------------------- what every state keeps

  /** A session or a copy has its index map, and its row belongs to its account. */
  predicate Known(h: Shared, copy: Session<nat>) {
    copy.indexes in h.heap && FT.Owned(h.rows, copy.accountId, copy.file.fileId)
  }

  ghost predicate Sound(h: Shared) {
    && RowsOk(h.rows)
    && (forall v :: v in h.sessions ==> Known(h, h.sessions[v]))
    && (forall k :: k in h.waiting ==> Known(h, h.waiting[k].copy))
    && (forall k :: k in h.ends ==> Known(h, h.ends[k].copy) && (h.ends[k].completes ==> h.ends[k].copy.totalChunks >= 0))
  }

  lemma SetStatusRows(sha: Sha, t: FT.Table, owner: string, id: string, status: UploadStatus, touched: Option<int>)
    requires RowsOk(t)
    ensures var r := FT.SetStatus(t, owner, id, status, touched); r.Some? ==> RowsOk(r.value) && OwnersStay(t, r.value)
  {
    FT.StepKeepsIndex(sha, t, FT.UpdateStatus(owner, id, status, touched));
  }

  lemma MarkFailedRows(sha: Sha, s: Server, info: ChunkInfo, dbFails: bool)
    requires RowsOk(s.rows)
    ensures RowsOk(MarkFailed(s, info, dbFails).rows) && OwnersStay(s.rows, MarkFailed(s, info, dbFails).rows)
  {
    SetStatusRows(sha, s.rows, info.accountId, info.file.fileId, Failed, None);
  }

  lemma FinalizeRows(sha: Sha, s: Server, u: string, info: ChunkInfo, how: CompleteFaults, at: int)
    requires RowsOk(s.rows) && info.totalChunks >= 0
    ensures RowsOk(Finalize(s, u, info, how, at).0.rows) && OwnersStay(s.rows, Finalize(s, u, info, how, at).0.rows)
  {
    MarkFailedRows(sha, s, info, how.dbFails);
    MarkFailedRows(sha, s.(stored := s.stored - {Location(info)}), info, how.dbFails);
    SetStatusRows(sha, s.rows, info.accountId, info.file.fileId, Completed, Some(at));
  }

  lemma WholeRows(sha: Sha, s: Server, e: Event)
    requires RowsOk(s.rows) && !e.SendChunk? && FreshEvent(sha, s, e)
    ensures RowsOk(Upload.Apply(sha, s, e).0.rows) && OwnersStay(s.rows, Upload.Apply(sha, s, e).0.rows)
  {
    match e
    case GenerateId(_, _, _, _, _) => GenerateRows(sha, s, e);
    case CompleteUpload(u, how, at) =>
      if u in s.sessions && s.sessions[u].totalChunks >= 0 {
        FinalizeRows(sha, s, u, s.sessions[u], how, at);
      }
    case FailUpload(u, refused) =>
      if u in s.sessions {
        MarkFailedRows(sha, s, s.sessions[u], false);
      }
    case TableStep(step) =>
      FT.StepKeepsIndex(sha, s.rows, step);
      FT.StepConserves(sha, s.rows, step);
  }

  lemma BodySound(sha: Sha, h: Shared, thread: nat, f: ChunkFaults)
    requires Sound(h) && thread in h.waiting
    ensures Sound(Body(h, thread, f))
  {
    var q := h.waiting[thread];
    assert Known(h, q.copy);
    BodyRows(sha, h.rows, h.dirs, q.copy.dir, q.copy.accountId, q.copy.file.fileId, f);
    RequestsStayKnown(h, Body(h, thread, f));
    SessionsStayKnown(h, Body(h, thread, f), q.u, q.copy);
  }

  lemma BodyRows(sha: Sha, rows: FT.Table, dirs: set<string>, dir: string, owner: string, id: string, f: ChunkFaults)
    requires RowsOk(rows)
    ensures var after := RowsAfter(rows, dirs, dir, owner, id, f); RowsOk(after) && OwnersStay(rows, after)
  {
    SetStatusRows(sha, rows, owner, id, Failed, None);
  }

  /** The requests that are still between their steps. */
  lemma RequestsStayKnown(h: Shared, g: Shared)
    requires Sound(h) && OwnersStay(h.rows, g.rows) && h.heap.Keys <= g.heap.Keys
    requires forall k :: k in g.waiting ==> k in h.waiting && g.waiting[k] == h.waiting[k]
    requires forall k :: k in g.ends ==> k in h.ends && g.ends[k] == h.ends[k]
    ensures forall k :: k in g.waiting ==> Known(g, g.waiting[k].copy)
    ensures forall k :: k in g.ends ==> Known(g, g.ends[k].copy) && (g.ends[k].completes ==> g.ends[k].copy.totalChunks >= 0)
  {
    forall k | k in g.waiting ensures Known(g, g.waiting[k].copy) {
      assert Known(h, h.waiting[k].copy);
    }
    forall k | k in g.ends ensures Known(g, g.ends[k].copy) {
      assert Known(h, h.ends[k].copy);
    }
  }

  /** The sessions, of which one may have become a copy with some directory. */
  lemma SessionsStayKnown(h: Shared, g: Shared, u: string, copy: Session<nat>)
    requires (forall v :: v in h.sessions ==> Known(h, h.sessions[v])) && Known(h, copy)
    requires OwnersStay(h.rows, g.rows) && h.heap.Keys <= g.heap.Keys
    requires forall v :: v in g.sessions ==>
               (v in h.sessions && g.sessions[v] == h.sessions[v]) || (v == u && g.sessions[v].(dir := copy.dir) == copy)
    ensures forall v :: v in g.sessions ==> Known(g, g.sessions[v])
  {
    forall v | v in g.sessions ensures Known(g, g.sessions[v]) {
      assert v in h.sessions ==> Known(h, h.sessions[v]);
    }
  }

  lemma InstallSound(h: Shared, s: Server, e: Event, ref: nat)
    requires Sound(h) && RowsOk(s.rows) && OwnersStay(h.rows, s.rows) && (e.GenerateId? ==> ref !in h.heap)
    requires e.GenerateId? && e.u in s.sessions && e.u !in h.sessions ==>
               FT.Owned(s.rows, s.sessions[e.u].accountId, s.sessions[e.u].file.fileId)
    ensures Sound(Install(h, s, e, ref))
  {
    var g := Install(h, s, e, ref);
    RequestsStayKnown(h, g);
    forall v | v in g.sessions ensures Known(g, g.sessions[v]) {
      assert v in h.sessions ==> Known(h, h.sessions[v]);
    }
  }

  lemma WholeSound(sha: Sha, h: Shared, e: Event, ref: nat)
    requires Sound(h) && Fresh(sha, h, WholeStep(e, ref))
    ensures Sound(Atomic(sha, h, e, ref))
  {
    var s := Deref(h);
    WholeRows(sha, s, e);
    OnlyGenerateOpens(sha, s, e);
    if e.GenerateId? {
      GenerateRows(sha, s, e);
    }
    InstallSound(h, Upload.Apply(sha, s, e).0, e, ref);
  }

  lemma ActRows(sha: Sha, h: Shared, thread: nat, how: CompleteFaults, at: int)
    requires RowsOk(h.rows) && Ready(h, thread)
    ensures RowsOk(Act(h, thread, how, at).rows) && OwnersStay(h.rows, Act(h, thread, how, at).rows)
  {
    var n := h.ends[thread];
    var info := Info(n.copy, h.heap[n.copy.indexes]);
    if n.completes {
      FinalizeRows(sha, Deref(h), n.u, info, how, at);
    } else {
      MarkFailedRows(sha, Deref(h), info, false);
    }
  }

  lemma ActSound(sha: Sha, h: Shared, thread: nat, how: CompleteFaults, at: int)
    requires Sound(h) && Ready(h, thread)
    ensures Sound(Act(h, thread, how, at))
  {
    ActRows(sha, h, thread, how, at);
    SettleSound(h, Ended(h, thread, how, at).0, thread);
  }

  lemma SettleSound(h: Shared, s: Server, thread: nat)
    requires Sound(h) && RowsOk(s.rows) && OwnersStay(h.rows, s.rows)
    ensures Sound(Settle(h, s, thread))
  {
    var g := Settle(h, s, thread);
    RequestsStayKnown(h, g);
    forall v | v in g.sessions ensures Known(g, g.sessions[v]) {
      assert Known(h, h.sessions[v]);
    }
  }

  lemma EndReadSound(h: Shared, thread: nat, u: string, completes: bool)
    requires Sound(h)
    ensures Sound(EndRead(h, thread, u, completes))
  {
  }

  lemma StepSound(sha: Sha, h: Shared, s: Step)
    requires Sound(h) && Fresh(sha, h, s)
    ensures Sound(Advance(sha, h, s))
  {
    match s
    case ReadStep(_, _, _, _) =>
    case BodyStep(thread, f) =>
      if thread in h.waiting {
        BodySound(sha, h, thread, f);
      }
    case EndReadStep(thread, u, completes) => EndReadSound(h, thread, u, completes);
    case ActStep(thread, how, at) =>
      if Ready(h, thread) {
        ActSound(sha, h, thread, how, at);
      }
    case WholeStep(e, ref) => WholeSound(sha, h, e, ref);
  }

  lemma {:induction false} RunSound(sha: Sha, h: Shared, steps: seq<Step>)
    requires Sound(h) && FreshRun(sha, h, steps)
    ensures Sound(RunSteps(sha, h, steps))
    decreases |steps|
  {
    if |steps| > 0 {
      StepSound(sha, h, steps[0]);
      RunSound(sha, Advance(sha, h, steps[0]), steps[1..]);
    }
  }

  // --------------------------------------------------- one-step requests

  ghost predicate AllKnown(h: Shared) {
    forall v :: v in h.sessions ==> h.sessions[v].indexes in h.heap
  }

  lemma InstallDerefs(h: Shared, s: Server, e: Event, ref: nat)
    requires AllKnown(h) && s.dirs == h.dirs && (e.GenerateId? ==> e.u !in s.sessions || e.u in h.sessions)
    requires forall v :: v in s.sessions ==> v in Deref(h).sessions && s.sessions[v] == Deref(h).sessions[v]
    ensures Deref(Install(h, s, e, ref)) == s
  {
    assert Deref(Install(h, s, e, ref)).sessions == s.sessions;
  }

  lemma OpeningDerefs(h: Shared, s: Server, e: Event, ref: nat, info: ChunkInfo)
    requires AllKnown(h) && s.dirs == h.dirs && e.GenerateId? && e.u !in h.sessions && ref !in h.heap
    requires s.sessions == Deref(h).sessions[e.u := info] && info.chunks == map[]
    ensures Deref(Install(h, s, e, ref)) == s
  {
    InstallShape(h, s, e, ref);
    assert forall v :: v in h.sessions ==> v in Deref(h).sessions;
    OneMoreDerefs(h, Install(h, s, e, ref), e.u, info, ref);
  }

  lemma OneMoreDerefs(h: Shared, g: Shared, u: string, info: ChunkInfo, ref: nat)
    requires AllKnown(h) && u !in h.sessions && ref !in h.heap && info.chunks == map[]
    requires g.sessions == h.sessions[u := Opened(info, ref)] && g.heap == h.heap[ref := map[]]
    ensures Deref(g).sessions == Deref(h).sessions[u := info]
  {
    assert Info(Opened(info, ref), map[]) == info;
  }

  lemma EndOnlyCloses(sha: Sha, s: Server, e: Event)
    requires !e.GenerateId? && !e.SendChunk?
    ensures var t := Upload.Apply(sha, s, e).0;
            t.dirs == s.dirs && forall v :: v in t.sessions ==> v in s.sessions && t.sessions[v] == s.sessions[v]
  {
  }

  /** On the shared state a one-step request does what it does to the server. */
  lemma AtomicIsApply(sha: Sha, h: Shared, e: Event, ref: nat)
    requires Sound(h) && Fresh(sha, h, WholeStep(e, ref))
    ensures Deref(Atomic(sha, h, e, ref)) == Upload.Apply(sha, Deref(h), e).0
  {
    var s := Deref(h);
    forall v | v in h.sessions ensures h.sessions[v].indexes in h.heap {
      assert Known(h, h.sessions[v]);
    }
    if e.GenerateId? {
      GenerateDerefs(sha, h, e, ref);
    } else {
      EndOnlyCloses(sha, s, e);
      InstallDerefs(h, Upload.Apply(sha, s, e).0, e, ref);
    }
  }

  lemma GenerateDerefs(sha: Sha, h: Shared, e: Event, ref: nat)
    requires AllKnown(h) && e.GenerateId? && e.u !in h.sessions && ref !in h.heap
    ensures Deref(Atomic(sha, h, e, ref)) == Upload.Apply(sha, Deref(h), e).0
  {
    var t := Upload.Apply(sha, Deref(h), e).0;
    if Upload.Apply(sha, Deref(h), e).1 == Accepted {
      OpeningDerefs(h, t, e, ref, t.sessions[e.u]);
    } else {
      InstallDerefs(h, t, e, ref);
    }
  }

  /** An end with nothing between its two steps is the one-step request. */
  lemma EndAtOnce(sha: Sha, h: Shared, thread: nat, u: string, completes: bool, how: CompleteFaults, at: int, ref: nat)
    requires Sound(h) && thread !in h.ends
    ensures var e := if completes then CompleteUpload(u, how, at) else FailUpload(u, how.dbFails);
            Advance(sha, EndRead(h, thread, u, completes), ActStep(thread, how, at)) == Atomic(sha, h, e, ref)
  {
    var g := EndRead(h, thread, u, completes);
    var e := if completes then CompleteUpload(u, how, at) else FailUpload(u, how.dbFails);
    if thread in g.ends {
      EndedIsApply(sha, h, thread, u, completes, how, at);
      SettleIsInstall(h, g, Upload.Apply(sha, Deref(h), e).0, thread, e, ref);
    } else {
      RefusedEnd(sha, h, u, completes, how, at, ref);
    }
  }

  lemma RefusedEnd(sha: Sha, h: Shared, u: string, completes: bool, how: CompleteFaults, at: int, ref: nat)
    requires Sound(h)
    requires u !in Deref(h).sessions || (completes && Deref(h).sessions[u].totalChunks != |Deref(h).sessions[u].chunks|)
    ensures Atomic(sha, h, if completes then CompleteUpload(u, how, at) else FailUpload(u, how.dbFails), ref) == h
  {
    var e := if completes then CompleteUpload(u, how, at) else FailUpload(u, how.dbFails);
    assert Upload.Apply(sha, Deref(h), e).0 == Deref(h);
    forall v | v in h.sessions ensures v in Deref(h).sessions {
      assert Known(h, h.sessions[v]);
    }
    InstallSame(h, Deref(h), e, ref);
  }

  lemma InstallSame(h: Shared, s: Server, e: Event, ref: nat)
    requires (forall v :: v in h.sessions ==> v in s.sessions) && s.temp == h.temp && s.stored == h.stored && s.rows == h.rows
    requires !e.GenerateId?
    ensures Install(h, s, e, ref) == h
  {
    assert (map v | v in h.sessions && v in s.sessions :: h.sessions[v]) == h.sessions;
  }

  lemma EndedIsApply(sha: Sha, h: Shared, thread: nat, u: string, completes: bool, how: CompleteFaults, at: int)
    requires Sound(h) && thread !in h.ends && thread in EndRead(h, thread, u, completes).ends
    ensures var g := EndRead(h, thread, u, completes);
            && g == h.(ends := g.ends) && g.ends - {thread} == h.ends && Ready(g, thread)
            && Ended(g, thread, how, at)
               == Upload.Apply(sha, Deref(h), if completes then CompleteUpload(u, how, at) else FailUpload(u, how.dbFails))
  {
    EndReadIs(h, thread, u, completes);
    DerefSame(h, EndRead(h, thread, u, completes));
  }

  lemma EndReadIs(h: Shared, thread: nat, u: string, completes: bool)
    requires thread !in h.ends && thread in EndRead(h, thread, u, completes).ends
    ensures var g := EndRead(h, thread, u, completes);
            && u in h.sessions && g == h.(ends := h.ends[thread := End(u, h.sessions[u], completes)])
            && g.ends - {thread} == h.ends && Ready(g, thread)
            && u in Deref(h).sessions && Deref(h).sessions[u] == Info(h.sessions[u], h.heap[h.sessions[u].indexes])
            && (completes ==> Deref(h).sessions[u].totalChunks == |Deref(h).sessions[u].chunks|)
  {
  }

  lemma DerefSame(h: Shared, g: Shared)
    requires g == h.(ends := g.ends)
    ensures Deref(g) == Deref(h)
  {
  }

  lemma SettleIsInstall(h: Shared, g: Shared, s: Server, thread: nat, e: Event, ref: nat)
    requires g == h.(ends := g.ends) && g.ends - {thread} == h.ends && !e.GenerateId?
    ensures Settle(g, s, thread) == Install(h, s, e, ref)
  {
  }

  // ----------------------------------------------------------- one upload

  /** A copy of the session own: equal but for the directory, which it may not know yet. */
  predicate CopyOf(own: Session<nat>, copy: Session<nat>) {
    copy.(dir := own.dir) == own && (copy.dir == "" || copy.dir == own.dir)
  }

  predicate DirKnown(u: string, dir: string) {
    dir == "" || dir == ChunkDir(u)
  }

  /** About another index map and another file. */
  predicate Apart(own: Session<nat>, copy: Session<nat>) {
    copy.indexes != own.indexes && copy.file.fileId != own.file.fileId
  }

  predicate RequestFits(own: Session<nat>, u: string, q: Request) {
    if q.u == u then CopyOf(own, q.copy) && q.index < own.totalChunks else Apart(own, q.copy)
  }

  predicate EndFits(own: Session<nat>, u: string, n: End) {
    if n.u == u then CopyOf(own, n.copy) else Apart(own, n.copy)
  }

  /** The upload is nobody else's, and every request for it that is between its two steps
      holds a copy, and an index below the total if it sends a chunk. */
  ghost predicate Private(h: Shared, u: string) {
    && u in h.sessions && DirKnown(u, h.sessions[u].dir)
    && (forall v :: v in h.sessions && v != u ==> Apart(h.sessions[u], h.sessions[v]))
    && (forall k :: k in h.waiting ==> RequestFits(h.sessions[u], u, h.waiting[k]))
    && (forall k :: k in h.ends ==> EndFits(h.sessions[u], u, h.ends[k]))
  }

  /** What an upload may not lose: its total, account, file and index map, a directory
      once set, and every recorded chunk. */
  ghost predicate Keeps(h: Shared, g: Shared, u: string) {
    && u in h.sessions && u in g.sessions
    && g.sessions[u] == h.sessions[u].(dir := g.sessions[u].dir)
    && (g.sessions[u].dir == h.sessions[u].dir || (h.sessions[u].dir == "" && g.sessions[u].dir == ChunkDir(u)))
    && h.sessions[u].indexes in h.heap && h.sessions[u].indexes in g.heap
    && forall i :: i in h.heap[h.sessions[u].indexes] ==> i in g.heap[h.sessions[u].indexes]
  }

  /** An accepted GenerateId opens an upload that is nobody else's. */
  lemma OpenedIsPrivate(sha: Sha, h: Shared, e: Event, ref: nat)
    requires Sound(h) && e.GenerateId? && Fresh(sha, h, WholeStep(e, ref))
    requires Upload.Apply(sha, Deref(h), e).1 == Accepted
    ensures Private(Atomic(sha, h, e, ref), e.u)
    ensures Atomic(sha, h, e, ref).heap[Atomic(sha, h, e, ref).sessions[e.u].indexes] == map[]
  {
    OnlyGenerateOpens(sha, Deref(h), e);
    assert e.u in h.sessions <==> e.u in Deref(h).sessions;
    InstallOpens(h, Upload.Apply(sha, Deref(h), e).0, e, ref);
  }

  lemma InstallOpens(h: Shared, s: Server, e: Event, ref: nat)
    requires Sound(h) && e.GenerateId? && e.u !in h.sessions && e.u in s.sessions && ref !in h.heap
    requires s.sessions[e.u].dir == "" && s.sessions[e.u].file.fileId !in h.rows
    requires NobodyIn(h, e.u)
    ensures Private(Install(h, s, e, ref), e.u)
    ensures Install(h, s, e, ref).heap[Install(h, s, e, ref).sessions[e.u].indexes] == map[]
  {
    InstallShape(h, s, e, ref);
    NewIsPrivate(h, Install(h, s, e, ref), e.u, Opened(s.sessions[e.u], ref));
  }

  lemma InstallShape(h: Shared, s: Server, e: Event, ref: nat)
    requires e.GenerateId? && e.u !in h.sessions && e.u in s.sessions
    ensures (forall v :: v in h.sessions ==> v in s.sessions) ==>
              Install(h, s, e, ref).sessions == h.sessions[e.u := Opened(s.sessions[e.u], ref)]
    ensures var g := Install(h, s, e, ref);
            && e.u in g.sessions && g.sessions[e.u] == Opened(s.sessions[e.u], ref) && g.heap == h.heap[ref := map[]]
            && g.waiting == h.waiting && g.ends == h.ends
            && forall v :: v in g.sessions && v != e.u ==> v in h.sessions && g.sessions[v] == h.sessions[v]
  {
  }

  lemma NewIsPrivate(h: Shared, g: Shared, u: string, own: Session<nat>)
    requires Sound(h) && NobodyIn(h, u) && own.dir == "" && own.indexes !in h.heap && own.file.fileId !in h.rows
    requires u in g.sessions && g.sessions[u] == own && g.waiting == h.waiting && g.ends == h.ends
    requires forall v :: v in g.sessions && v != u ==> v in h.sessions && g.sessions[v] == h.sessions[v]
    ensures Private(g, u)
  {
    forall v | v in g.sessions && v != u ensures Apart(own, g.sessions[v]) {
      assert Known(h, h.sessions[v]);
    }
    forall k | k in g.waiting ensures RequestFits(own, u, g.waiting[k]) {
      assert Known(h, h.waiting[k].copy);
    }
    forall k | k in g.ends ensures EndFits(own, u, g.ends[k]) {
      assert Known(h, h.ends[k].copy);
    }
  }

  lemma ReadKeeps(h: Shared, u: string, thread: nat, v: string, index: int, data: Bytes)
    requires Sound(h) && Private(h, u)
    ensures Private(Read(h, thread, v, index, data), u) && Keeps(h, Read(h, thread, v, index, data), u)
  {
    if ChunkAllowed(Deref(h), v, index) {
      WaitingKeeps(h, u, thread, Request(v, h.sessions[v], index, data));
    }
  }

  lemma WaitingKeeps(h: Shared, u: string, thread: nat, q: Request)
    requires Sound(h) && Private(h, u) && q.u in h.sessions && q.copy == h.sessions[q.u] && q.index < q.copy.totalChunks
    ensures Private(h.(waiting := h.waiting[thread := q]), u) && Keeps(h, h.(waiting := h.waiting[thread := q]), u)
  {
    assert RequestFits(h.sessions[u], u, q);
  }

  lemma BodyPrivate(h: Shared, u: string, thread: nat, f: ChunkFaults)
    requires Sound(h) && Private(h, u) && thread in h.waiting
    ensures Private(Body(h, thread, f), u)
  {
    assert RequestFits(h.sessions[u], u, h.waiting[thread]);
    BodyOthers(h, u, thread, f);
    DirPrivate(h, Body(h, thread, f), u, thread);
  }

  /** The body changes no session but that of its upload, and there nothing but the
      directory. */
  lemma BodyOthers(h: Shared, u: string, thread: nat, f: ChunkFaults)
    requires u in h.sessions && DirKnown(u, h.sessions[u].dir) && thread in h.waiting && h.waiting[thread].copy.indexes in h.heap
    requires RequestFits(h.sessions[u], u, h.waiting[thread])
    requires forall v :: v in h.sessions && v != u ==> Apart(h.sessions[u], h.sessions[v])
    ensures var g := Body(h, thread, f);
            && u in g.sessions && g.sessions[u] == h.sessions[u].(dir := g.sessions[u].dir) && DirKnown(u, g.sessions[u].dir)
            && (g.sessions[u].dir == h.sessions[u].dir || h.sessions[u].dir == "")
            && forall v :: v in g.sessions && v != u ==> Apart(h.sessions[u], g.sessions[v])
  {
  }

  /** A directory may become known, and a chunk request may end. */
  lemma DirPrivate(h: Shared, g: Shared, u: string, thread: nat)
    requires Private(h, u) && u in g.sessions && g.ends == h.ends && g.waiting == h.waiting - {thread}
    requires g.sessions[u] == h.sessions[u].(dir := g.sessions[u].dir) && DirKnown(u, g.sessions[u].dir)
    requires g.sessions[u].dir == h.sessions[u].dir || h.sessions[u].dir == ""
    requires forall v :: v in g.sessions && v != u ==> Apart(h.sessions[u], g.sessions[v])
    ensures Private(g, u)
  {
    forall k | k in g.waiting ensures RequestFits(g.sessions[u], u, g.waiting[k]) {
      assert RequestFits(h.sessions[u], u, h.waiting[k]);
    }
    forall k | k in g.ends ensures EndFits(g.sessions[u], u, g.ends[k]) {
      assert EndFits(h.sessions[u], u, h.ends[k]);
    }
  }

  lemma BodyKeeps(h: Shared, u: string, thread: nat, f: ChunkFaults)
    requires Sound(h) && Private(h, u) && thread in h.waiting
    ensures Private(Body(h, thread, f), u) && Keeps(h, Body(h, thread, f), u)
  {
    BodyPrivate(h, u, thread, f);
  }

  lemma EndReadKeeps(h: Shared, u: string, thread: nat, v: string, completes: bool)
    requires Sound(h) && Private(h, u)
    ensures Private(EndRead(h, thread, v, completes), u) && Keeps(h, EndRead(h, thread, v, completes), u)
  {
    if EndRead(h, thread, v, completes) != h {
      EndWaits(h, u, thread, End(v, h.sessions[v], completes));
    }
  }

  lemma EndWaits(h: Shared, u: string, thread: nat, n: End)
    requires Sound(h) && Private(h, u) && n.u in h.sessions && n.copy == h.sessions[n.u]
    ensures Private(h.(ends := h.ends[thread := n]), u) && Keeps(h, h.(ends := h.ends[thread := n]), u)
  {
    assert EndFits(h.sessions[u], u, n);
  }

  lemma ActKeeps(h: Shared, u: string, thread: nat, how: CompleteFaults, at: int)
    requires Sound(h) && Private(h, u) && Ready(h, thread) && h.ends[thread].u != u
    ensures Private(Act(h, thread, how, at), u) && Keeps(h, Act(h, thread, how, at), u)
  {
    ActKeepsSession(h, u, thread, how, at);
    SettleKeeps(h, Ended(h, thread, how, at).0, u, thread);
  }

  lemma ActKeepsSession(h: Shared, u: string, thread: nat, how: CompleteFaults, at: int)
    requires u in h.sessions && h.sessions[u].indexes in h.heap && Ready(h, thread) && h.ends[thread].u != u
    ensures u in Ended(h, thread, how, at).0.sessions
  {
    var n := h.ends[thread];
    if n.completes {
      FinalizeKeepsOthers(Deref(h), n.u, Info(n.copy, h.heap[n.copy.indexes]), how, at, u);
    }
  }

  lemma SettleKeeps(h: Shared, s: Server, u: string, thread: nat)
    requires Sound(h) && Private(h, u) && u in s.sessions
    ensures Private(Settle(h, s, thread), u) && Keeps(h, Settle(h, s, thread), u)
  {
  }

  lemma InstallPrivate(h: Shared, s: Server, u: string, e: Event, ref: nat)
    requires Sound(h) && Private(h, u) && u in s.sessions
    requires e.GenerateId? ==> ref !in h.heap && e.u != u && (e.u in s.sessions && e.u !in h.sessions ==> s.sessions[e.u].file.fileId !in h.rows)
    ensures Private(Install(h, s, e, ref), u)
  {
  }

  lemma InstallKeeps(h: Shared, s: Server, u: string, e: Event, ref: nat)
    requires u in h.sessions && Known(h, h.sessions[u]) && u in s.sessions && (e.GenerateId? ==> ref !in h.heap && e.u != u)
    ensures Keeps(h, Install(h, s, e, ref), u)
  {
  }

  lemma WholeKeeps(sha: Sha, h: Shared, u: string, e: Event, ref: nat)
    requires Sound(h) && Private(h, u) && Fresh(sha, h, WholeStep(e, ref)) && Spares(h, WholeStep(e, ref), u)
    ensures Private(Atomic(sha, h, e, ref), u) && Keeps(h, Atomic(sha, h, e, ref), u)
  {
    var s := Deref(h);
    assert u in s.sessions;
    OtherKeepsSession(sha, s, e, u);
    OnlyGenerateOpens(sha, s, e);
    InstallPrivate(h, Upload.Apply(sha, s, e).0, u, e, ref);
    InstallKeeps(h, Upload.Apply(sha, s, e).0, u, e, ref);
  }

  lemma OtherKeepsSession(sha: Sha, s: Server, e: Event, u: string)
    requires u in s.sessions && !e.SendChunk? && (e.TableStep? || e.u != u)
    ensures u in Upload.Apply(sha, s, e).0.sessions
  {
    if e.CompleteUpload? || e.FailUpload? {
      OtherSession(sha, s, e, u);
    }
  }

  /** While nobody completes or fails u, no interleaving changes what it is about,
      forgets its directory or loses a recorded chunk. */
  lemma {:induction false} InterleavedKeeps(sha: Sha, h: Shared, steps: seq<Step>, u: string)
    requires Sound(h) && Private(h, u) && FreshRun(sha, h, steps) && SparesAll(sha, h, steps, u)
    ensures Private(RunSteps(sha, h, steps), u) && Keeps(h, RunSteps(sha, h, steps), u)
    decreases |steps|
  {
    if |steps| > 0 {
      var g := Advance(sha, h, steps[0]);
      match steps[0] {
        case ReadStep(thread, v, index, data) => ReadKeeps(h, u, thread, v, index, data);
        case BodyStep(thread, f) =>
          if thread in h.waiting {
            BodyKeeps(h, u, thread, f);
          }
        case EndReadStep(thread, v, completes) => EndReadKeeps(h, u, thread, v, completes);
        case ActStep(thread, how, at) =>
          if Ready(h, thread) {
            ActKeeps(h, u, thread, how, at);
          }
        case WholeStep(e, ref) => WholeKeeps(sha, h, u, e, ref);
      }
      StepSound(sha, h, steps[0]);
      InterleavedKeeps(sha, g, steps[1..], u);
    }
  }

  /** From a server that started idle, whatever ran before: an upload opened there keeps
      all that until somebody completes or fails it. */
  lemma FromOpening(sha: Sha, before: seq<Step>, e: Event, ref: nat, steps: seq<Step>)
    requires FreshRun(sha, IDLE, before) && e.GenerateId?
    requires var h := RunSteps(sha, IDLE, before);
             && Fresh(sha, h, WholeStep(e, ref)) && Upload.Apply(sha, Deref(h), e).1 == Accepted
             && FreshRun(sha, Atomic(sha, h, e, ref), steps)
    requires SparesAll(sha, Atomic(sha, RunSteps(sha, IDLE, before), e, ref), steps, e.u)
    ensures var start := Atomic(sha, RunSteps(sha, IDLE, before), e, ref); var g := RunSteps(sha, start, steps);
            Sound(g) && Private(g, e.u) && Keeps(start, g, e.u)
  {
    assert Sound(IDLE);
    RunSound(sha, IDLE, before);
    var h := RunSteps(sha, IDLE, before);
    OpenedIsPrivate(sha, h, e, ref);
    WholeSound(sha, h, e, ref);
    RunSound(sha, Atomic(sha, h, e, ref), steps);
    InterleavedKeeps(sha, Atomic(sha, h, e, ref), steps, e.u);
  }

  // ------------------------------------------------- the body as an atomic step

  /** The faults as an atomic request would meet them: a copy that does not know the
      directory yet makes it again instead of looking it up. */
  function Seen(known: string, copied: string, f: ChunkFaults): ChunkFaults {
    if copied == "" && known != "" then f.(statFails := false, createFails := f.createFails || f.mkdirFails) else f
  }

  /** The parts of the locked body do not depend on which directory the copy knows. */
  lemma SeenSame(dirs: set<string>, u: string, known: string, copied: string, f: ChunkFaults)
    requires DirKnown(u, known) && (copied == "" || copied == known) && f.path == Seen(known, copied, f).path
    ensures var g := Seen(known, copied, f);
            && Accepts(dirs, copied, f) == Accepts(dirs, known, g)
            && DirsAfter(dirs, u, copied, f) == DirsAfter(dirs, u, known, g)
            && (if WritesBack(dirs, copied, f) then ChunkDir(u) else known)
               == (if WritesBack(dirs, known, g) then ChunkDir(u) else known)
  {
    if copied == "" && known != "" && known in dirs {
      assert dirs + {known} == dirs;
    }
  }

  /** Every locked body on u, however old its copy, changes the server exactly as the
      locked part of a request with a fresh copy would at that moment. */
  lemma BodyIsReceive(h: Shared, u: string, thread: nat, f: ChunkFaults)
    requires Sound(h) && Private(h, u) && thread in h.waiting && h.waiting[thread].u == u
    ensures var q := h.waiting[thread];
            u in Deref(h).sessions
            && Deref(Body(h, thread, f)) == Receive(Deref(h), u, q.index, q.data, Seen(h.sessions[u].dir, q.copy.dir, f)).0
  {
    CurrentIsReceive(h, u, thread, f);
  }

  /** The unlocked part lets a request wait exactly when the upload is known, the index is
      below its total and as many chunks as announced are not yet recorded. */
  lemma ReadWaitsIff(h: Shared, thread: nat, u: string, index: int, data: Bytes)
    requires (u in h.sessions ==> h.sessions[u].indexes in h.heap) && thread !in h.waiting
    ensures var g := Read(h, thread, u, index, data);
            && (thread in g.waiting <==>
                  u in h.sessions && index < h.sessions[u].totalChunks && h.sessions[u].totalChunks != |h.heap[h.sessions[u].indexes]|)
            && g == if thread in g.waiting then h.(waiting := h.waiting[thread := Request(u, h.sessions[u], index, data)]) else h
  {
  }

  /** A chunk request with nothing between its two steps is the one-step request. */
  lemma ChunkAtOnce(sha: Sha, h: Shared, u: string, thread: nat, index: int, data: Bytes, f: ChunkFaults)
    requires Sound(h) && Private(h, u) && thread !in h.waiting
    ensures Deref(Advance(sha, Read(h, thread, u, index, data), BodyStep(thread, f))) == Chunk(Deref(h), u, index, data, f).0
  {
    var g := Read(h, thread, u, index, data);
    assert Known(h, h.sessions[u]);
    ReadWaitsIff(h, thread, u, index, data);
    if thread in g.waiting {
      StepSound(sha, h, ReadStep(thread, u, index, data));
      ReadKeeps(h, u, thread, u, index, data);
      BodyIsReceive(g, u, thread, f);
      assert Deref(g) == Deref(h);
    }
  }

  /** The part of the invariant that the body on u relies on. */
  ghost predicate Current(h: Shared, u: string, thread: nat) {
    && u in h.sessions && DirKnown(u, h.sessions[u].dir) && h.sessions[u].indexes in h.heap
    && (forall v :: v in h.sessions && v != u ==> h.sessions[v].indexes != h.sessions[u].indexes)
    && thread in h.waiting && h.waiting[thread].u == u && CopyOf(h.sessions[u], h.waiting[thread].copy)
  }

  lemma CurrentIsReceive(h: Shared, u: string, thread: nat, f: ChunkFaults)
    requires Current(h, u, thread)
    ensures var q := h.waiting[thread];
            u in Deref(h).sessions
            && Deref(Body(h, thread, f)) == Receive(Deref(h), u, q.index, q.data, Seen(h.sessions[u].dir, q.copy.dir, f)).0
  {
    var q := h.waiting[thread];
    var known := h.sessions[u].dir;
    var g := Seen(known, q.copy.dir, f);
    SeenSame(h.dirs, u, known, q.copy.dir, f);
    ReceiveByParts(Deref(h), u, q.index, q.data, g);
    BodySessions(h, u, thread, f, g);
    SeenRows(h.rows, h.dirs, known, q.copy.dir, q.copy.accountId, q.copy.file.fileId, f);
  }

  lemma SeenRows(rows: FT.Table, dirs: set<string>, known: string, copied: string, owner: string, id: string, f: ChunkFaults)
    requires Accepts(dirs, copied, f) == Accepts(dirs, known, Seen(known, copied, f))
    ensures RowsAfter(rows, dirs, copied, owner, id, f) == RowsAfter(rows, dirs, known, owner, id, Seen(known, copied, f))
  {
  }

  lemma BodySessions(h: Shared, u: string, thread: nat, f: ChunkFaults, g: ChunkFaults)
    requires Current(h, u, thread) && g == Seen(h.sessions[u].dir, h.waiting[thread].copy.dir, f)
    ensures var q := h.waiting[thread]; var info := Deref(h).sessions[u];
            var dir := if WritesBack(h.dirs, info.dir, g) then ChunkDir(u) else info.dir;
            var chunks := if Accepts(h.dirs, info.dir, g) then info.chunks[q.index := g.path] else info.chunks;
            Deref(Body(h, thread, f)).sessions == Deref(h).sessions[u := info.(dir := dir, chunks := chunks)]
  {
    var known, copied := h.sessions[u].dir, h.waiting[thread].copy.dir;
    SeenSame(h.dirs, u, known, copied, f);
    BodySessionsAre(h, u, thread, f, if WritesBack(h.dirs, known, g) then ChunkDir(u) else known);
  }

  lemma BodySessionsAre(h: Shared, u: string, thread: nat, f: ChunkFaults, dir: string)
    requires Current(h, u, thread)
    requires dir == if WritesBack(h.dirs, h.waiting[thread].copy.dir, f) then ChunkDir(u) else h.sessions[u].dir
    ensures var q := h.waiting[thread]; var info := Deref(h).sessions[u];
            var chunks := if Accepts(h.dirs, q.copy.dir, f) then info.chunks[q.index := f.path] else info.chunks;
            Deref(Body(h, thread, f)).sessions == Deref(h).sessions[u := info.(dir := dir, chunks := chunks)]
  {
    var q, r := h.waiting[thread], h.sessions[u].indexes;
    BodyShape(h, u, thread, f, dir);
    OneSessionChanged(h, Body(h, thread, f), u, dir,
                      if Accepts(h.dirs, q.copy.dir, f) then h.heap[r][q.index := f.path] else h.heap[r]);
  }

  lemma BodyShape(h: Shared, u: string, thread: nat, f: ChunkFaults, dir: string)
    requires Current(h, u, thread)
    requires dir == if WritesBack(h.dirs, h.waiting[thread].copy.dir, f) then ChunkDir(u) else h.sessions[u].dir
    ensures var q := h.waiting[thread]; var g := Body(h, thread, f); var r := h.sessions[u].indexes;
            && g.sessions == h.sessions[u := h.sessions[u].(dir := dir)]
            && g.heap == h.heap[r := if Accepts(h.dirs, q.copy.dir, f) then h.heap[r][q.index := f.path] else h.heap[r]]
  {
  }

  /** Changing one session's directory and its own index map changes one session. */
  lemma OneSessionChanged(h: Shared, g: Shared, u: string, dir: string, chunks: map<int, string>)
    requires u in h.sessions && h.sessions[u].indexes in h.heap
    requires g.sessions == h.sessions[u := h.sessions[u].(dir := dir)] && g.heap == h.heap[h.sessions[u].indexes := chunks]
    requires forall v :: v in h.sessions && v != u ==> h.sessions[v].indexes != h.sessions[u].indexes
    ensures Deref(g).sessions == Deref(h).sessions[u := Deref(h).sessions[u].(dir := dir, chunks := chunks)]
  {
  }

  // ------------------------------------------------------------ after the end

  /** When the session went between the two steps, the locked body brings it back
      exactly when it makes the directory; the chunk is then recorded in the old map. */
  lemma LateBodyRevivesIff(h: Shared, thread: nat, f: ChunkFaults)
    requires thread in h.waiting && h.waiting[thread].copy.indexes in h.heap && h.waiting[thread].u !in h.sessions
    ensures var q := h.waiting[thread]; var g := Body(h, thread, f);
            && (q.u in g.sessions <==>
                (q.copy.dir == "" || (q.copy.dir !in h.dirs && !f.statFails)) && !f.mkdirFails)
            && (q.u in g.sessions ==> g.sessions[q.u] == q.copy.(dir := ChunkDir(q.u)))
  {
  }

  /** A request that was read before the upload was completed or failed, and is locked
      after, brings the session back exactly when it does not find the directory and
      makes it: always, when it was read before the first chunk was recorded. */
  lemma RevivesAfterEndIff(sha: Sha, h: Shared, thread: nat, end: Event, ref: nat, f: ChunkFaults)
    requires thread in h.waiting && h.waiting[thread].copy.indexes in h.heap
    requires (end.CompleteUpload? || end.FailUpload?) && end.u == h.waiting[thread].u
    ensures var q := h.waiting[thread]; var g := Atomic(sha, h, end, ref); var late := Advance(sha, g, BodyStep(thread, f));
            Upload.Apply(sha, Deref(h), end).1 == Accepted ==>
            && q.u !in g.sessions
            && (q.u in late.sessions <==>
                (q.copy.dir == "" || (q.copy.dir !in h.dirs && !f.statFails)) && !f.mkdirFails)
  {
    if Upload.Apply(sha, Deref(h), end).1 == Accepted {
      AcceptedEndCloses(sha, Deref(h), end);
      LateBodyRevivesIff(Atomic(sha, h, end, ref), thread, f);
    }
  }

  lemma AcceptedEndCloses(sha: Sha, s: Server, end: Event)
    requires end.CompleteUpload? || end.FailUpload?
    ensures Upload.Apply(sha, s, end).1 == Accepted ==> end.u !in Upload.Apply(sha, s, end).0.sessions
  {
  }
}
