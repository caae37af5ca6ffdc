/** What interleaved requests can do that atomic ones cannot: write into a session that
    filled up meanwhile, and disturb an upload that was completed meanwhile. */
module UploadRaces {
  import opened Text
  import opened FileModel
  import FT = FileTable
  import opened Upload
  import opened UploadRuns
  import opened UploadLocked
  import opened UploadInterleaving

  // ---------------------------------------------------------- full sessions

  /** As many chunks are recorded as announced: a new request would be refused. */
  predicate Full(h: Shared, u: string) {
    u in h.sessions && h.sessions[u].indexes in h.heap && h.sessions[u].totalChunks == |h.heap[h.sessions[u].indexes]|
  }

  /** The body writes no chunk, makes no directory and leaves the row as it is. */
  predicate NoEffect(h: Shared, thread: nat, f: ChunkFaults) {
    thread in h.waiting &&
    var q := h.waiting[thread];
    && q.u in h.sessions && !Accepts(h.dirs, q.copy.dir, f)
    && (WritesBack(h.dirs, q.copy.dir, f) ==> h.sessions[q.u].dir == ChunkDir(q.u) && ChunkDir(q.u) in h.dirs)
    && (f.dbFails || !FT.Owned(h.rows, q.copy.accountId, q.copy.file.fileId)
        || h.rows[q.copy.file.fileId].uploadStatus == Failed)
  }

  lemma FailedRowsIff(t: FT.Table, owner: string, id: string)
    requires FT.KeysMatch(t)
    ensures var r := FT.SetStatus(t, owner, id, Failed, None);
            r.Some? && (r.value == t <==> !FT.Owned(t, owner, id) || t[id].uploadStatus == Failed)
  {
    if FT.Owned(t, owner, id) {
      assert !FT.Rejected(t, t[id].(uploadStatus := Failed));
      assert t[id := t[id]] == t;
    }
  }

  lemma BodyChangesIff(h: Shared, u: string, thread: nat, f: ChunkFaults)
    requires RowsOk(h.rows) && Current(h, u, thread) && (!f.createFails ==> f.path !in h.temp)
    ensures Deref(Body(h, thread, f)) == Deref(h) <==> NoEffect(h, thread, f)
  {
    var q := h.waiting[thread];
    var g := Body(h, thread, f);
    var dir := if WritesBack(h.dirs, q.copy.dir, f) then ChunkDir(u) else h.sessions[u].dir;
    BodyShape(h, u, thread, f, dir);
    FailedRowsIff(h.rows, q.copy.accountId, q.copy.file.fileId);
    if Accepts(h.dirs, q.copy.dir, f) {
      assert f.path in Deref(g).temp && f.path !in Deref(h).temp;
    } else {
      var r := h.sessions[u].indexes;
      assert h.heap[r := h.heap[r]] == h.heap;
      SameSessionIff(h, g, u, dir);
    }
  }

  lemma SameSessionIff(h: Shared, g: Shared, u: string, dir: string)
    requires u in h.sessions && h.sessions[u].indexes in h.heap
    requires g.heap == h.heap && g.sessions == h.sessions[u := h.sessions[u].(dir := dir)]
    ensures Deref(g).sessions == Deref(h).sessions <==> dir == h.sessions[u].dir
  {
    if dir == h.sessions[u].dir {
      assert g.sessions == h.sessions;
    } else {
      assert Deref(g).sessions[u].dir != Deref(h).sessions[u].dir;
    }
  }

  lemma BodyAnswers(h: Shared, u: string, thread: nat, f: ChunkFaults)
    requires Current(h, u, thread)
    ensures var q := h.waiting[thread];
            u in Deref(h).sessions && Receive(Deref(h), u, q.index, q.data, Seen(h.sessions[u].dir, q.copy.dir, f)).1
            == if Accepts(h.dirs, q.copy.dir, f) then Accepted else InternalError
  {
    var q := h.waiting[thread];
    SeenSame(h.dirs, u, h.sessions[u].dir, q.copy.dir, f);
    ReceiveByParts(Deref(h), u, q.index, q.data, Seen(h.sessions[u].dir, q.copy.dir, f));
  }

  lemma FullIsRefused(h: Shared, u: string, thread: nat)
    requires Private(h, u) && h.sessions[u].indexes in h.heap && thread in h.waiting && h.waiting[thread].u == u
    ensures ChunkAllowed(Deref(h), u, h.waiting[thread].index) <==> !Full(h, u)
  {
    assert RequestFits(h.sessions[u], u, h.waiting[thread]);
    assert u in Deref(h).sessions && Deref(h).sessions[u].chunks == h.heap[h.sessions[u].indexes];
  }

  lemma PrivateIsCurrent(h: Shared, u: string, thread: nat)
    requires Sound(h) && Private(h, u) && thread in h.waiting && h.waiting[thread].u == u
    ensures Current(h, u, thread)
  {
    assert Known(h, h.sessions[u]) && RequestFits(h.sessions[u], u, h.waiting[thread]);
  }

  /** A locked body changes the server as the atomic request would at that moment exactly
      when the session has not filled up since the request was read, or the body has no
      effect: an atomic request finds the session full and is refused. It also answers
      alike exactly when the session has not filled up. */
  lemma BodyIsChunkIff(h: Shared, u: string, thread: nat, f: ChunkFaults)
    requires Sound(h) && Private(h, u) && thread in h.waiting && h.waiting[thread].u == u
    requires !f.createFails ==> f.path !in h.temp
    ensures var q := h.waiting[thread];
            Deref(Body(h, thread, f)) == Chunk(Deref(h), u, q.index, q.data, Seen(h.sessions[u].dir, q.copy.dir, f)).0
            <==> !Full(h, u) || NoEffect(h, thread, f)
    ensures var q := h.waiting[thread]; var r := if Accepts(h.dirs, q.copy.dir, f) then Accepted else InternalError;
            (Deref(Body(h, thread, f)), r) == Chunk(Deref(h), u, q.index, q.data, Seen(h.sessions[u].dir, q.copy.dir, f))
            <==> !Full(h, u)
  {
    PrivateIsCurrent(h, u, thread);
    FullIsRefused(h, u, thread);
    ComparesWithChunk(h, u, thread, f);
  }

  lemma ComparesWithChunk(h: Shared, u: string, thread: nat, f: ChunkFaults)
    requires RowsOk(h.rows) && Current(h, u, thread) && (!f.createFails ==> f.path !in h.temp)
    requires ChunkAllowed(Deref(h), u, h.waiting[thread].index) <==> !Full(h, u)
    ensures var q := h.waiting[thread]; var r := if Accepts(h.dirs, q.copy.dir, f) then Accepted else InternalError;
            var (t, a) := Chunk(Deref(h), u, q.index, q.data, Seen(h.sessions[u].dir, q.copy.dir, f));
            && (Deref(Body(h, thread, f)) == t <==> !Full(h, u) || NoEffect(h, thread, f))
            && (Deref(Body(h, thread, f)) == t && r == a <==> !Full(h, u))
  {
    CurrentIsReceive(h, u, thread, f);
    BodyAnswers(h, u, thread, f);
    BodyChangesIff(h, u, thread, f);
  }

  /** An accepted body on a full session overwrites the recorded chunk; the session keeps
      the announced number exactly when there was one under that index, and holds more
      otherwise. */
  lemma FullSessionOverwritten(h: Shared, u: string, thread: nat, f: ChunkFaults)
    requires Sound(h) && Private(h, u) && thread in h.waiting && h.waiting[thread].u == u
    requires Full(h, u) && Accepts(h.dirs, h.waiting[thread].copy.dir, f)
    ensures var q := h.waiting[thread]; var g := Body(h, thread, f); var r := h.sessions[u].indexes;
            && u in g.sessions && g.sessions[u].indexes == r && r in g.heap
            && g.heap[r] == h.heap[r][q.index := f.path] && f.path in g.temp && g.temp[f.path] == q.data
            && (Full(g, u) <==> q.index in h.heap[r])
            && (!Full(g, u) ==> |g.heap[r]| == g.sessions[u].totalChunks + 1)
  {
    var q, r := h.waiting[thread], h.sessions[u].indexes;
    var m := h.heap[r];
    assert |m| == |m.Keys|;
    assert m[q.index := f.path].Keys == m.Keys + {q.index} && |m[q.index := f.path].Keys| == |m[q.index := f.path]|;
  }

  // -------------------------------------------------- what became of the file

  function Place(h: Shared, id: string): (string, string)
    requires id in h.rows
  {
    (h.rows[id].ownerId, id)
  }

  /** The row is a completed upload with a stored file. */
  ghost predicate Settled(h: Shared, id: string) {
    id in h.rows && Uploaded(h.rows[id]) && Place(h, id) in h.stored
  }

  /** It still is, with the same bytes. */
  ghost predicate StaysAs(h: Shared, g: Shared, id: string) {
    && Settled(h, id) && Settled(g, id) && Place(g, id) == Place(h, id)
    && g.stored[Place(h, id)] == h.stored[Place(h, id)]
  }

  /** No session is about the file any more, and no request that is between its two steps:
      no chunk request, no completion and no failure. */
  ghost predicate Over(h: Shared, id: string) {
    && (forall v :: v in h.sessions ==> h.sessions[v].file.fileId != id)
    && (forall k :: k in h.waiting ==> h.waiting[k].copy.file.fileId != id)
    && (forall k :: k in h.ends ==> h.ends[k].copy.file.fileId != id)
  }

  lemma BodyStays(h: Shared, thread: nat, f: ChunkFaults, id: string)
    requires RowsOk(h.rows) && Settled(h, id) && Over(h, id) && thread in h.waiting && h.waiting[thread].copy.indexes in h.heap
    ensures StaysAs(h, Body(h, thread, f), id) && Over(Body(h, thread, f), id)
  {
  }

  lemma InstallOver(h: Shared, s: Server, e: Event, ref: nat, id: string)
    requires Over(h, id)
    requires e.GenerateId? && e.u in s.sessions && e.u !in h.sessions ==> s.sessions[e.u].file.fileId != id
    ensures Over(Install(h, s, e, ref), id)
  {
  }

  /** An atomic event about other files leaves the row and the file. */
  lemma ServerStays(sha: Sha, s: Server, e: Event, id: string)
    requires RowsOk(s.rows) && FreshEvent(sha, s, e) && !e.SendChunk? && id in s.rows && Uploaded(s.rows[id])
    requires forall v :: v in s.sessions ==> s.sessions[v].file.fileId != id
    ensures var t := Upload.Apply(sha, s, e).0; var at := (s.rows[id].ownerId, id);
            && id in t.rows && Uploaded(t.rows[id]) && t.rows[id].ownerId == s.rows[id].ownerId
            && (at in s.stored ==> at in t.stored && t.stored[at] == s.stored[at])
  {
    match e
    case TableStep(step) => TableStepIsQuiet(sha, s.rows, step);
    case GenerateId(_, _, _, _, _) => GenerateRows(sha, s, e);
    case CompleteUpload(u, _, _) => EndStays(sha, s, e, u, id);
    case FailUpload(u, _) => EndStays(sha, s, e, u, id);
  }

  lemma EndStays(sha: Sha, s: Server, e: Event, u: string, id: string)
    requires RowsOk(s.rows) && (e.CompleteUpload? || e.FailUpload?) && e.u == u && id in s.rows
    requires u in s.sessions ==> s.sessions[u].file.fileId != id
    ensures Untouched(s, Upload.Apply(sha, s, e).0, id)
  {
    if u in s.sessions {
      OtherFileUntouched(sha, s, e, id);
    } else {
      UnknownChangesNothing(sha, s, e);
    }
  }

  lemma WholeStays(sha: Sha, h: Shared, e: Event, ref: nat, id: string)
    requires Sound(h) && Fresh(sha, h, WholeStep(e, ref)) && Settled(h, id) && Over(h, id)
    ensures StaysAs(h, Atomic(sha, h, e, ref), id) && Over(Atomic(sha, h, e, ref), id)
  {
    ServerStays(sha, Deref(h), e, id);
    OnlyGenerateOpens(sha, Deref(h), e);
    InstallOver(h, Upload.Apply(sha, Deref(h), e).0, e, ref, id);
  }

  lemma ActStays(h: Shared, thread: nat, how: CompleteFaults, at: int, id: string)
    requires RowsOk(h.rows) && Settled(h, id) && Over(h, id) && Ready(h, thread)
    ensures StaysAs(h, Act(h, thread, how, at), id) && Over(Act(h, thread, how, at), id)
  {
    var n := h.ends[thread];
    var info := Info(n.copy, h.heap[n.copy.indexes]);
    if n.completes {
      FinalizeTouches(Deref(h), n.u, info, how, at, id);
    } else {
      MarkFailedTouches(Deref(h), info, false, id);
    }
    assert Untouched(Deref(h), Ended(h, thread, how, at).0, id);
    SettleStays(h, Ended(h, thread, how, at).0, thread, id);
  }

  lemma SettleStays(h: Shared, s: Server, thread: nat, id: string)
    requires Settled(h, id) && Over(h, id) && id in s.rows && s.rows[id] == h.rows[id]
    requires Place(h, id) in s.stored && s.stored[Place(h, id)] == h.stored[Place(h, id)]
    ensures StaysAs(h, Settle(h, s, thread), id) && Over(Settle(h, s, thread), id)
  {
  }

  lemma ReadStays(h: Shared, thread: nat, u: string, index: int, data: Bytes, id: string)
    requires Settled(h, id) && Over(h, id)
    ensures StaysAs(h, Read(h, thread, u, index, data), id) && Over(Read(h, thread, u, index, data), id)
  {
  }

  lemma EndReadStays(h: Shared, thread: nat, u: string, completes: bool, id: string)
    requires Settled(h, id) && Over(h, id)
    ensures StaysAs(h, EndRead(h, thread, u, completes), id) && Over(EndRead(h, thread, u, completes), id)
  {
  }

  lemma StepStays(sha: Sha, h: Shared, s: Step, id: string)
    requires Sound(h) && Fresh(sha, h, s) && Settled(h, id) && Over(h, id)
    ensures StaysAs(h, Advance(sha, h, s), id) && Over(Advance(sha, h, s), id)
  {
    match s
    case ReadStep(thread, u, index, data) => ReadStays(h, thread, u, index, data, id);
    case BodyStep(thread, f) =>
      if thread in h.waiting {
        BodyStays(h, thread, f, id);
      }
    case EndReadStep(thread, u, completes) => EndReadStays(h, thread, u, completes, id);
    case ActStep(thread, how, at) =>
      if Ready(h, thread) {
        ActStays(h, thread, how, at, id);
      }
    case WholeStep(e, ref) => WholeStays(sha, h, e, ref, id);
  }

  lemma {:induction false} OverStays(sha: Sha, h: Shared, steps: seq<Step>, id: string)
    requires Sound(h) && FreshRun(sha, h, steps) && Settled(h, id) && Over(h, id)
    ensures StaysAs(h, RunSteps(sha, h, steps), id)
    decreases |steps|
  {
    if |steps| > 0 {
      StepStays(sha, h, steps[0], id);
      StepSound(sha, h, steps[0]);
      OverStays(sha, Advance(sha, h, steps[0]), steps[1..], id);
    }
  }

  lemma OneStepRun(sha: Sha, h: Shared, s: Step)
    ensures RunSteps(sha, h, [s]) == Advance(sha, h, s) && (FreshRun(sha, h, [s]) <==> Fresh(sha, h, s))
  {
    assert [s][1..] == [];
  }

  /** A session about the file can be failed. */
  lemma SessionUnsettles(sha: Sha, h: Shared, u: string, id: string)
    requires Sound(h) && Settled(h, id) && u in h.sessions && h.sessions[u].file.fileId == id
    ensures exists steps :: FreshRun(sha, h, steps) && !StaysAs(h, RunSteps(sha, h, steps), id)
  {
    var s := WholeStep(FailUpload(u, false), 0);
    OneStepRun(sha, h, s);
    FailedRowsIff(h.rows, h.sessions[u].accountId, id);
    assert u in Deref(h).sessions;
    assert !StaysAs(h, RunSteps(sha, h, [s]), id);
  }

  /** A waiting request about the file can meet a full disk. */
  lemma RequestUnsettles(sha: Sha, h: Shared, k: nat, id: string)
    requires Sound(h) && Settled(h, id) && k in h.waiting && h.waiting[k].copy.file.fileId == id
    ensures exists steps :: FreshRun(sha, h, steps) && !StaysAs(h, RunSteps(sha, h, steps), id)
  {
    var s := BodyStep(k, ChunkFaults(false, false, true, false, false, ""));
    OneStepRun(sha, h, s);
    FailedRowsIff(h.rows, h.waiting[k].copy.accountId, id);
    assert !StaysAs(h, RunSteps(sha, h, [s]), id);
  }

  /** A completion that has read its copy can fail to open the file, and a failure fails
      the row. */
  lemma EndUnsettles(sha: Sha, h: Shared, k: nat, id: string)
    requires Sound(h) && Settled(h, id) && k in h.ends && h.ends[k].copy.file.fileId == id
    ensures exists steps :: FreshRun(sha, h, steps) && !StaysAs(h, RunSteps(sha, h, steps), id)
  {
    var s := ActStep(k, CompleteFaults(false, true, {}, false), 0);
    OneStepRun(sha, h, s);
    EndCanFail(h, k, s.how, s.at);
    assert !StaysAs(h, RunSteps(sha, h, [s]), id);
  }

  lemma EndCanFail(h: Shared, k: nat, how: CompleteFaults, at: int)
    requires Sound(h) && k in h.ends && how.createFails && !how.dbFails
    ensures var id := h.ends[k].copy.file.fileId;
            Ready(h, k) && id in Act(h, k, how, at).rows && Act(h, k, how, at).rows[id].uploadStatus == Failed
  {
    var n := h.ends[k];
    assert Known(h, n.copy);
    FailedRowsIff(h.rows, n.copy.accountId, n.copy.file.fileId);
    MarkFailedFails(Deref(h), Info(n.copy, h.heap[n.copy.indexes]));
  }

  lemma MarkFailedFails(s: Server, info: ChunkInfo)
    requires FT.KeysMatch(s.rows) && FT.Owned(s.rows, info.accountId, info.file.fileId)
    ensures var t := MarkFailed(s, info, false);
            && info.file.fileId in t.rows && t.rows[info.file.fileId].uploadStatus == Failed
            && t == s.(rows := t.rows)
  {
    FailedRowsIff(s.rows, info.accountId, info.file.fileId);
  }

  /** A completed upload keeps its status and its bytes over every later interleaving
      exactly when no session is about its file, and no chunk request, completion or
      failure that is between its two steps. */
  lemma CompletedStaysIff(sha: Sha, h: Shared, id: string)
    requires Sound(h) && Settled(h, id)
    ensures (forall steps :: FreshRun(sha, h, steps) ==> StaysAs(h, RunSteps(sha, h, steps), id)) <==> Over(h, id)
  {
    if Over(h, id) {
      forall steps | FreshRun(sha, h, steps) ensures StaysAs(h, RunSteps(sha, h, steps), id) {
        OverStays(sha, h, steps, id);
      }
    } else if exists u :: u in h.sessions && h.sessions[u].file.fileId == id {
      var u :| u in h.sessions && h.sessions[u].file.fileId == id;
      SessionUnsettles(sha, h, u, id);
    } else if exists k :: k in h.waiting && h.waiting[k].copy.file.fileId == id {
      var k :| k in h.waiting && h.waiting[k].copy.file.fileId == id;
      RequestUnsettles(sha, h, k, id);
    } else {
      var k :| k in h.ends && h.ends[k].copy.file.fileId == id;
      EndUnsettles(sha, h, k, id);
    }
  }

  /** No chunk request for the upload is between its two steps, and no other end. */
  ghost predicate Alone(h: Shared, u: string, thread: nat) {
    && (forall k :: k in h.waiting ==> h.waiting[k].u != u)
    && (forall k :: k in h.ends && k != thread ==> h.ends[k].u != u)
  }

  /** After an accepted completion or failure that is so exactly when no other request for
      the upload, of whatever kind, was between its two steps. */
  lemma OverAfterActIff(h: Shared, u: string, thread: nat, how: CompleteFaults, at: int)
    requires Sound(h) && Private(h, u) && Ready(h, thread) && h.ends[thread].u == u
    requires Ended(h, thread, how, at).1 == Accepted
    ensures Over(Act(h, thread, how, at), h.sessions[u].file.fileId) <==> Alone(h, u, thread)
  {
    AcceptedActCloses(h, thread, how, at);
    SettleOnlyDrops(h, Ended(h, thread, how, at).0, u, thread);
    GoneIsOverIff(h, Settle(h, Ended(h, thread, how, at).0, thread), u);
  }

  lemma SettleOnlyDrops(h: Shared, s: Server, u: string, thread: nat)
    requires thread in h.ends && h.ends[thread].u == u
    ensures var g := Settle(h, s, thread);
            && g.waiting == h.waiting && (forall k :: k in g.ends ==> k in h.ends && g.ends[k] == h.ends[k])
            && (forall v :: v in g.sessions ==> v in h.sessions && g.sessions[v] == h.sessions[v])
            && (NobodyIn(g, u) <==> Alone(h, u, thread))
  {
    var g := Settle(h, s, thread);
    forall k | k in h.ends && k != thread ensures k in g.ends {
    }
  }

  lemma AcceptedActCloses(h: Shared, thread: nat, how: CompleteFaults, at: int)
    requires Ready(h, thread) && Ended(h, thread, how, at).1 == Accepted
    ensures h.ends[thread].u !in Act(h, thread, how, at).sessions
  {
  }

  /** With u gone, its file is over when nobody is in for u. */
  lemma GoneIsOverIff(h: Shared, g: Shared, u: string)
    requires Private(h, u) && u !in g.sessions && forall v :: v in g.sessions ==> v in h.sessions && g.sessions[v] == h.sessions[v]
    requires g.waiting == h.waiting && forall k :: k in g.ends ==> k in h.ends && g.ends[k] == h.ends[k]
    ensures Over(g, h.sessions[u].file.fileId) <==> NobodyIn(g, u)
  {
    var id := h.sessions[u].file.fileId;
    forall k | k in g.waiting ensures g.waiting[k].copy.file.fileId == id <==> g.waiting[k].u == u {
      assert RequestFits(h.sessions[u], u, h.waiting[k]);
    }
    forall k | k in g.ends ensures g.ends[k].copy.file.fileId == id <==> g.ends[k].u == u {
      assert EndFits(h.sessions[u], u, h.ends[k]);
    }
    forall v | v in g.sessions ensures g.sessions[v].file.fileId != id {
      assert Apart(h.sessions[u], h.sessions[v]);
    }
  }

  lemma InstallOnlyDrops(h: Shared, s: Server, e: Event, ref: nat)
    requires !e.GenerateId?
    ensures var g := Install(h, s, e, ref);
            && g.waiting == h.waiting && g.ends == h.ends && (forall v :: v !in s.sessions ==> v !in g.sessions)
            && forall v :: v in g.sessions ==> v in h.sessions && g.sessions[v] == h.sessions[v]
  {
  }

  lemma InstallIsOverIff(h: Shared, s: Server, e: Event, ref: nat, u: string)
    requires Private(h, u) && !e.GenerateId? && u !in s.sessions
    ensures Over(Install(h, s, e, ref), h.sessions[u].file.fileId) <==> NobodyIn(h, u)
  {
    InstallOnlyDrops(h, s, e, ref);
    GoneIsOverIff(h, Install(h, s, e, ref), u);
  }

  /** And an end that ran without anything in between: when nobody was. */
  lemma OverAfterEndIff(sha: Sha, h: Shared, u: string, end: Event, ref: nat)
    requires Sound(h) && Private(h, u) && (end.CompleteUpload? || end.FailUpload?) && end.u == u
    requires Upload.Apply(sha, Deref(h), end).1 == Accepted
    ensures Over(Atomic(sha, h, end, ref), h.sessions[u].file.fileId) <==> NobodyIn(h, u)
  {
    AcceptedEndCloses(sha, Deref(h), end);
    InstallIsOverIff(h, Upload.Apply(sha, Deref(h), end).0, end, ref, u);
  }

  // ------------------------------------------------------------ overlapping ends

  /** The state after an accepted completion of u, for an end that has read u before. */
  ghost predicate Stale(h: Shared, thread: nat, completes: bool) {
    && Ready(h, thread) && h.ends[thread].completes == completes && RowsOk(h.rows)
    && FT.Owned(h.rows, h.ends[thread].copy.accountId, h.ends[thread].copy.file.fileId)
    && (h.ends[thread].copy.accountId, h.ends[thread].copy.file.fileId) in h.stored
  }

  /** What an accepted completion leaves to another end of the upload: the index map, no
      chunk file of it, and the stored file. */
  lemma CompletionLeaves(sha: Sha, h: Shared, u: string, first: nat, second: nat, how: CompleteFaults, at: int)
    requires Sound(h) && Private(h, u) && Ready(h, first) && h.ends[first].u == u && h.ends[first].completes
    requires second in h.ends && second != first && h.ends[second].u == u
    requires Ended(h, first, how, at).1 == Accepted
    ensures var g := Act(h, first, how, at); var copy := h.ends[second].copy;
            && Stale(g, second, h.ends[second].completes) && g.ends[second] == h.ends[second] && g.heap == h.heap
            && forall i :: 0 <= i < copy.totalChunks ==> i in g.heap[copy.indexes] && g.heap[copy.indexes][i] !in g.temp
  {
    assert EndFits(h.sessions[u], u, h.ends[first]) && EndFits(h.sessions[u], u, h.ends[second]);
    ActSound(sha, h, first, how, at);
    var n := h.ends[first];
    FinalizeLeaves(Deref(h), u, Info(n.copy, h.heap[n.copy.indexes]), how, at);
    assert second in Act(h, first, how, at).ends;
  }

  lemma FinalizeLeaves(s: Server, u: string, info: ChunkInfo, how: CompleteFaults, at: int)
    requires info.totalChunks >= 0 && Finalize(s, u, info, how, at).1 == Accepted
    ensures var t := Finalize(s, u, info, how, at).0;
            && Location(info) in t.stored
            && forall i :: 0 <= i < info.totalChunks ==> i in info.chunks && info.chunks[i] !in t.temp
  {
    forall i | 0 <= i < info.totalChunks ensures i in info.chunks {
      assert Readable(s.temp, info, how.bad, i);
    }
  }

  /** Two completions that have read the same full session: once one is accepted, the other
      opens the stored file anew, finds no chunk file, removes the file and fails the row,
      exactly when there was a chunk to merge. */
  lemma StaleCompletionDestroysIff(sha: Sha, h: Shared, u: string, first: nat, second: nat, how: CompleteFaults, at: int,
                                   good: CompleteFaults, later: int)
    requires Sound(h) && Private(h, u) && Ready(h, first) && h.ends[first].u == u && h.ends[first].completes
    requires second in h.ends && second != first && h.ends[second].u == u && h.ends[second].completes
    requires Ended(h, first, how, at).1 == Accepted && FaultFree(good)
    ensures var g := Act(h, first, how, at); var copy := h.ends[second].copy; var place := (copy.accountId, copy.file.fileId);
            && place in g.stored && Ready(g, second)
            && var late := Act(g, second, good, later);
               && (place !in late.stored <==> copy.totalChunks > 0)
               && (place !in late.stored ==>
                     copy.file.fileId in late.rows && late.rows[copy.file.fileId].uploadStatus == Failed)
  {
    CompletionLeaves(sha, h, u, first, second, how, at);
    StaleMerge(Act(h, first, how, at), second, good, later);
  }

  lemma StaleMerge(g: Shared, thread: nat, good: CompleteFaults, later: int)
    requires Stale(g, thread, true) && FaultFree(good)
    requires var copy := g.ends[thread].copy;
             forall i :: 0 <= i < copy.totalChunks ==> i in g.heap[copy.indexes] && g.heap[copy.indexes][i] !in g.temp
    ensures var copy := g.ends[thread].copy; var place := (copy.accountId, copy.file.fileId); var late := Act(g, thread, good, later);
            && (place !in late.stored <==> copy.totalChunks > 0)
            && (place !in late.stored ==>
                  copy.file.fileId in late.rows && late.rows[copy.file.fileId].uploadStatus == Failed)
  {
    var copy := g.ends[thread].copy;
    var info := Info(copy, g.heap[copy.indexes]);
    if copy.totalChunks > 0 {
      assert !Readable(g.temp, info, good.bad, 0);
      MarkFailedFails(Deref(g).(stored := g.stored - {Location(info)}), info);
    }
  }

  /** A failure that has read the session and acts after an accepted completion fails the
      completed row and leaves the file. */
  lemma StaleFailure(sha: Sha, h: Shared, u: string, first: nat, second: nat, how: CompleteFaults, at: int, late: CompleteFaults, later: int)
    requires Sound(h) && Private(h, u) && Ready(h, first) && h.ends[first].u == u && h.ends[first].completes
    requires second in h.ends && second != first && h.ends[second].u == u && !h.ends[second].completes
    requires Ended(h, first, how, at).1 == Accepted && !late.dbFails
    ensures var g := Act(h, first, how, at); var copy := h.ends[second].copy;
            && Ready(g, second) && (copy.accountId, copy.file.fileId) in g.stored
            && var end := Act(g, second, late, later);
               && end.stored == g.stored
               && copy.file.fileId in end.rows && end.rows[copy.file.fileId].uploadStatus == Failed
  {
    CompletionLeaves(sha, h, u, first, second, how, at);
    var g := Act(h, first, how, at);
    var copy := g.ends[second].copy;
    MarkFailedFails(Deref(g), Info(copy, g.heap[copy.indexes]));
  }

  // ------------------------------------------------------------ a second end

  /** The state after an accepted completion of u and a late body that brought u back. */
  ghost predicate Revived(h: Shared, u: string, copy: Session<nat>, index: int, data: Bytes, path: string, chunks: map<int, string>) {
    && u in h.sessions && h.sessions[u] == copy.(dir := ChunkDir(u)) && copy.indexes in h.heap
    && h.heap[copy.indexes] == chunks[index := path] && path in h.temp && h.temp[path] == data
    && (forall i :: i in chunks && chunks[i] != path ==> chunks[i] !in h.temp)
  }

  /** A late body on a copy that knows no directory revives the session. */
  lemma BodyRevives(g: Shared, u: string, thread: nat, f: ChunkFaults, chunks: map<int, string>)
    requires thread in g.waiting && g.waiting[thread].u == u && g.waiting[thread].copy.dir == "" && u !in g.sessions
    requires g.waiting[thread].copy.indexes in g.heap && g.heap[g.waiting[thread].copy.indexes] == chunks
    requires (forall i :: i in chunks ==> chunks[i] !in g.temp) && !f.mkdirFails && !f.createFails && !f.copyFails
    ensures var q := g.waiting[thread]; Revived(Body(g, thread, f), u, q.copy, q.index, q.data, f.path, chunks)
  {
  }

  /** What an accepted completion leaves. */
  lemma EndLeaves(sha: Sha, h: Shared, u: string, how: CompleteFaults, at: int, ref: nat)
    requires u in h.sessions && h.sessions[u].indexes in h.heap && Complete(Deref(h), u, how, at).1 == Accepted
    ensures var g := Atomic(sha, h, CompleteUpload(u, how, at), ref); var chunks := h.heap[h.sessions[u].indexes];
            && u !in g.sessions && g.heap == h.heap && g.waiting == h.waiting
            && (forall i :: i in chunks ==> chunks[i] !in g.temp)
            && forall i :: i in chunks <==> 0 <= i < h.sessions[u].totalChunks
  {
    CompleteNeedsEveryIndex(Deref(h), u, how, at);
    AcceptedEndCloses(sha, Deref(h), CompleteUpload(u, how, at));
    ChunksGone(Deref(h), u, how, at);
  }

  lemma ChunksGone(s: Server, u: string, how: CompleteFaults, at: int)
    requires u in s.sessions && Complete(s, u, how, at).1 == Accepted
    ensures forall i :: i in s.sessions[u].chunks ==> s.sessions[u].chunks[i] !in Complete(s, u, how, at).0.temp
  {
    CompleteNeedsEveryIndex(s, u, how, at);
  }

  /** How a second completion of a revived session ends, the first having found exactly
      the indexes 0, …, totalChunks - 1: with one chunk the late data replaces the file;
      with more the other chunk files are gone, and the file is removed and the row failed;
      a negative index makes the count wrong, and nothing happens. */
  lemma SecondCompletion(s: Server, u: string, chunks: map<int, string>, index: int, path: string, data: Bytes, good: CompleteFaults, at: int)
    requires u in s.sessions && FaultFree(good) && s.sessions[u].totalChunks == |chunks| && index < |chunks|
    requires forall i :: i in chunks <==> 0 <= i < |chunks|
    requires s.sessions[u].chunks == chunks[index := path] && path in s.temp && s.temp[path] == data
    requires forall i :: i in chunks ==> chunks[i] !in s.temp
    ensures var info := s.sessions[u]; var (t, r) := Complete(s, u, good, at);
            if index < 0 then (t, r) == (s, BadRequest)
            else if |chunks| == 1 then r == Accepted && t.stored == s.stored[Location(info) := data]
            else r != Accepted && t == MarkFailed(s.(stored := s.stored - {Location(info)}), info, false)
  {
    var info := s.sessions[u];
    assert chunks[index := path].Keys == chunks.Keys + {index};
    assert |chunks[index := path]| == |chunks[index := path].Keys| && |chunks| == |chunks.Keys|;
    if index >= 0 {
      if |chunks| == 1 {
        assert Readable(s.temp, info, good.bad, 0);
        assert Merged(Contents(s.temp, info), 1) == Merged(Contents(s.temp, info), 0) + data;
        assert [] + data == data;
      } else {
        var j := if index == 0 then 1 else 0;
        assert j in chunks && !Readable(s.temp, info, good.bad, j);
      }
    }
  }

  /** So a chunk request that was read before the first chunk was recorded, and is locked
      after the completion, lets a second completion destroy the file: exactly when its
      index is not negative and there is more than one chunk. */
  lemma SecondCompletionDestroysIff(sha: Sha, h: Shared, u: string, thread: nat, how: CompleteFaults, at: int, ref: nat,
                                    f: ChunkFaults, good: CompleteFaults, later: int)
    requires Sound(h) && Private(h, u) && thread in h.waiting && h.waiting[thread].u == u && h.waiting[thread].copy.dir == ""
    requires Complete(Deref(h), u, how, at).1 == Accepted && FaultFree(good)
    requires !f.mkdirFails && !f.createFails && !f.copyFails
    requires forall i :: i in h.heap[h.sessions[u].indexes] ==> h.heap[h.sessions[u].indexes][i] != f.path
    ensures var q := h.waiting[thread]; var place := (q.copy.accountId, q.copy.file.fileId);
            var first := Atomic(sha, h, CompleteUpload(u, how, at), ref);
            var second := Atomic(sha, Body(first, thread, f), CompleteUpload(u, good, later), ref);
            && place in first.stored
            && (place !in second.stored <==> q.index >= 0 && q.copy.totalChunks > 1)
            && (place !in second.stored ==>
                  q.copy.file.fileId in second.rows && second.rows[q.copy.file.fileId].uploadStatus == Failed)
  {
    var q := h.waiting[thread];
    var first := Atomic(sha, h, CompleteUpload(u, how, at), ref);
    var chunks := h.heap[q.copy.indexes];
    EndLeaves(sha, h, u, how, at, ref);
    BodyRevives(first, u, thread, f, chunks);
    WholeSound(sha, h, CompleteUpload(u, how, at), ref);
    BodySound(sha, first, thread, f);
    CountOfAll(chunks, |chunks|);
    SecondEffects(sha, Body(first, thread, f), u, q, f.path, chunks, good, later, ref);
  }

  /** The second completion, on the shared state. */
  lemma SecondEffects(sha: Sha, g: Shared, u: string, q: Request, path: string, chunks: map<int, string>,
                      good: CompleteFaults, later: int, ref: nat)
    requires Sound(g) && Revived(g, u, q.copy, q.index, q.data, path, chunks) && FaultFree(good)
    requires q.copy.totalChunks == |chunks| && q.index < |chunks| && forall i :: i in chunks <==> 0 <= i < |chunks|
    requires forall i :: i in chunks ==> chunks[i] != path
    requires (q.copy.accountId, q.copy.file.fileId) in g.stored
    ensures var second := Atomic(sha, g, CompleteUpload(u, good, later), ref); var place := (q.copy.accountId, q.copy.file.fileId);
            && (place !in second.stored <==> q.index >= 0 && q.copy.totalChunks > 1)
            && (place !in second.stored ==>
                  q.copy.file.fileId in second.rows && second.rows[q.copy.file.fileId].uploadStatus == Failed)
  {
    SecondCompletion(Deref(g), u, chunks, q.index, path, q.data, good, later);
    assert Known(g, g.sessions[u]);
    FailedRowsIff(g.rows, q.copy.accountId, q.copy.file.fileId);
  }
}
