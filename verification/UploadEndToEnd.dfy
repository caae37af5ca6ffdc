/** One upload followed through any run of the server: the pieces of a file in any
    order, repeated at will, among everything else that happens. */
module UploadEndToEnd {
  import opened Text
  import opened FileModel
  import FT = FileTable
  import opened Upload
  import opened UploadRuns
  import opened UploadClient

  predicate NoFaults(f: ChunkFaults) {
    !f.statFails && !f.mkdirFails && !f.createFails && !f.copyFails
  }

  /** A request for u sends one of the pieces; nobody completes or fails u. */
  predicate Honest(e: Event, u: string, pieces: seq<Bytes>) {
    match e
    case SendChunk(v, index, data, _) => v == u ==> 0 <= index < |pieces| && data == pieces[index]
    case CompleteUpload(v, _, _) => v != u
    case FailUpload(v, _) => v != u
    case _ => true
  }

  predicate HonestRun(events: seq<Event>, u: string, pieces: seq<Bytes>) {
    forall k :: 0 <= k < |events| ==> Honest(events[k], u, pieces)
  }

  /** Piece i is sent at least once while the disk works. */
  predicate Sends(e: Event, u: string, i: int) {
    e.SendChunk? && e.u == u && e.index == i && NoFaults(e.faults)
  }

  ghost predicate Sent(events: seq<Event>, u: string, i: int) {
    exists k :: 0 <= k < |events| && Sends(events[k], u, i)
  }

  /** getTotalChunks, by the pieces. */
  function Announced(pieces: seq<Bytes>): nat {
    if |pieces| == 0 then 1 else |pieces|
  }

  /** The size and the path that a download goes by. */
  predicate SameFile(f: File, g: File) {
    g.size == f.size && g.path == f.path
  }

  /** The session of u is still the one opened for f, and holds only pieces. */
  ghost predicate Tracks(w: World, u: string, f: File, pieces: seq<Bytes>) {
    && u in w.server.sessions
    && var info := w.server.sessions[u];
       && info.file == f && info.accountId == f.ownerId && info.totalChunks == Announced(pieces)
       && f.fileId in w.server.rows && SameFile(f, w.server.rows[f.fileId])
       && f.fileId in w.ledger
       && forall i :: i in info.chunks ==> 0 <= i < |pieces| && i in w.ledger[f.fileId] && w.ledger[f.fileId][i] == pieces[i]
  }

  /** The session of u keeps its chunks. */
  ghost predicate Grows(w: World, x: World, u: string) {
    && u in w.server.sessions && u in x.server.sessions
    && forall i :: i in w.server.sessions[u].chunks ==> i in x.server.sessions[u].chunks
  }

  // --------------------------------------------------------------- one step

  /** The session of u, its record, and the size, path and status of its row are as before. */
  ghost predicate LeftAlone(w: World, x: World, u: string, id: string) {
    && u in w.server.sessions && u in x.server.sessions && x.server.sessions[u] == w.server.sessions[u]
    && id in w.server.rows && id in x.server.rows && SameFile(w.server.rows[id], x.server.rows[id])
    && x.server.rows[id].uploadStatus == w.server.rows[id].uploadStatus
    && id in w.ledger && id in x.ledger && x.ledger[id] == w.ledger[id]
  }

  lemma GenerateLeavesAlone(sha: Sha, w: World, e: Event, u: string)
    requires e.GenerateId? && Inv(w) && FreshEvent(sha, w.server, e) && u in w.server.sessions
    ensures LeftAlone(w, Next(sha, w, e), u, w.server.sessions[u].file.fileId)
  {
    assert SessionOk(w, w.server.sessions[u]);
    GenerateRows(sha, w.server, e);
    GenerateKeepsSession(sha, w.server, e, u);
  }

  lemma GenerateKeepsSession(sha: Sha, s: Server, e: Event, u: string)
    requires e.GenerateId? && e.u != u && u in s.sessions
    ensures u in Upload.Apply(sha, s, e).0.sessions && Upload.Apply(sha, s, e).0.sessions[u] == s.sessions[u]
  {
  }

  lemma RequestLeavesAlone(sha: Sha, w: World, e: Event, u: string)
    requires (e.SendChunk? || e.CompleteUpload? || e.FailUpload?) && Inv(w) && e.u != u && u in w.server.sessions
    ensures LeftAlone(w, Next(sha, w, e), u, w.server.sessions[u].file.fileId)
  {
    assert SessionOk(w, w.server.sessions[u]);
    if e.u in w.server.sessions {
      OtherFileUntouched(sha, w.server, e, w.server.sessions[u].file.fileId);
      OtherSession(sha, w.server, e, u);
    }
  }

  /** Anything that is not about u leaves its session and its record alone. */
  lemma OtherStep(sha: Sha, w: World, e: Event, u: string)
    requires Inv(w) && FreshEvent(sha, w.server, e) && u in w.server.sessions && (e.TableStep? || e.u != u)
    ensures LeftAlone(w, Next(sha, w, e), u, w.server.sessions[u].file.fileId)
  {
    assert SessionOk(w, w.server.sessions[u]);
    match e
    case TableStep(step) => TableStepKeepsFile(sha, w.server.rows, step, w.server.sessions[u].file.fileId);
    case GenerateId(_, _, _, _, _) => GenerateLeavesAlone(sha, w, e, u);
    case _ => RequestLeavesAlone(sha, w, e, u);
  }

  lemma TableStepKeepsFile(sha: Sha, t: FT.Table, step: FT.Step, id: string)
    requires FT.KeysMatch(t) && id in t && !step.UpdateStatus?
    ensures id in FT.Apply(sha, t, step) && SameFile(t[id], FT.Apply(sha, t, step)[id])
    ensures FT.Apply(sha, t, step)[id].uploadStatus == t[id].uploadStatus
  {
    if step.AddFiles? && FT.Insert(t, step.files).Some? {
      FT.InsertConserves(t, step.files);
    }
  }

  /** What a chunk request leaves of its own session and row. */
  lemma OwnChunk(s: Server, u: string, index: int, data: Bytes, f: ChunkFaults)
    requires FT.KeysMatch(s.rows) && ChunkAllowed(s, u, index) && s.sessions[u].file.fileId in s.rows
    ensures var (t, r) := Chunk(s, u, index, data, f); var info, id := s.sessions[u], s.sessions[u].file.fileId;
            && u in t.sessions && id in t.rows && SameFile(s.rows[id], t.rows[id])
            && t.sessions[u].(dir := "", chunks := map[]) == info.(dir := "", chunks := map[])
            && t.sessions[u].chunks == (if r == Accepted then info.chunks[index := f.path] else info.chunks)
            && (r == Accepted ==> t.rows == s.rows)
            && (NoFaults(f) ==> r == Accepted)
  {
    var t := WithDir(s, u);
    assert t.rows == s.rows && t.sessions[u] == s.sessions[u].(dir := t.sessions[u].dir);
  }

  /** A piece sent for u: it is recorded, unless the disk fails or all are there. */
  lemma OwnStep(sha: Sha, w: World, e: Event, u: string, f: File, pieces: seq<Bytes>)
    requires Inv(w) && FreshEvent(sha, w.server, e) && Tracks(w, u, f, pieces)
    requires e.SendChunk? && e.u == u && Honest(e, u, pieces)
    ensures Tracks(Next(sha, w, e), u, f, pieces) && Grows(w, Next(sha, w, e), u)
    ensures NoFaults(e.faults) ==>
      && e.index in Next(sha, w, e).server.sessions[u].chunks
      && Next(sha, w, e).server.rows[f.fileId].uploadStatus == w.server.rows[f.fileId].uploadStatus
  {
    var s := w.server;
    if !ChunkAllowed(s, u, e.index) {
      AllPresent(s.sessions[u].chunks, Announced(pieces));
    } else {
      OwnChunk(s, u, e.index, e.data, e.faults);
    }
  }

  /** n distinct indexes below n: all of them. */
  lemma AllPresent<T>(m: map<int, T>, n: nat)
    requires |m| == n && forall i :: i in m ==> 0 <= i < n
    ensures forall i :: 0 <= i < n ==> i in m
  {
    assert m.Keys <= Below(n) && |m.Keys| == |m|;
    SubsetOfSameSize(m.Keys, Below(n));
    assert forall i :: i in Below(n) <==> i in m;
  }

  lemma HonestStep(sha: Sha, w: World, e: Event, u: string, f: File, pieces: seq<Bytes>)
    requires Inv(w) && FreshEvent(sha, w.server, e) && Tracks(w, u, f, pieces) && Honest(e, u, pieces)
    ensures Tracks(Next(sha, w, e), u, f, pieces) && Grows(w, Next(sha, w, e), u)
  {
    if e.SendChunk? && e.u == u {
      OwnStep(sha, w, e, u, f, pieces);
    } else {
      assert e.GenerateId? ==> e.u != u;
      OtherStep(sha, w, e, u);
    }
  }

  // -------------------------------------------------------------- whole runs

  /** Along an honest run the session stays, keeps what it has, and gains every piece
      that is sent. */
  lemma {:induction false} HonestRunCollects(sha: Sha, w: World, events: seq<Event>, u: string, f: File, pieces: seq<Bytes>)
    requires Inv(w) && FreshEvents(sha, w, events) && Tracks(w, u, f, pieces) && HonestRun(events, u, pieces)
    ensures Inv(Run(sha, w, events)) && Tracks(Run(sha, w, events), u, f, pieces)
    ensures forall i :: i in w.server.sessions[u].chunks || Sent(events, u, i) ==>
              i in Run(sha, w, events).server.sessions[u].chunks
    decreases |events|
  {
    if |events| > 0 {
      var e, x := events[0], Next(sha, w, events[0]);
      assert Honest(e, u, pieces);
      StepKeeps(sha, w, e);
      HonestStep(sha, w, e, u, f, pieces);
      HonestRunCollects(sha, x, events[1..], u, f, pieces);
      forall i | i in w.server.sessions[u].chunks || Sent(events, u, i)
        ensures i in x.server.sessions[u].chunks || Sent(events[1..], u, i)
      {
        if i !in w.server.sessions[u].chunks {
          FirstOrLater(sha, w, events, u, i, f, pieces);
        }
      }
    }
  }

  lemma FirstOrLater(sha: Sha, w: World, events: seq<Event>, u: string, i: int, f: File, pieces: seq<Bytes>)
    requires Inv(w) && |events| > 0 && FreshEvent(sha, w.server, events[0]) && Tracks(w, u, f, pieces)
    requires Honest(events[0], u, pieces) && Sent(events, u, i)
    ensures var x := Next(sha, w, events[0]);
            u in x.server.sessions && (i in x.server.sessions[u].chunks || Sent(events[1..], u, i))
  {
    HonestStep(sha, w, events[0], u, f, pieces);
    var k :| 0 <= k < |events| && Sends(events[k], u, i);
    if k == 0 {
      OwnStep(sha, w, events[0], u, f, pieces);
    } else {
      assert Sends(events[1..][k - 1], u, i);
    }
  }

  predicate Clean(events: seq<Event>, u: string) {
    forall k :: 0 <= k < |events| && events[k].SendChunk? && events[k].u == u ==> NoFaults(events[k].faults)
  }

  lemma CleanStep(sha: Sha, w: World, e: Event, u: string, f: File, pieces: seq<Bytes>)
    requires Inv(w) && FreshEvent(sha, w.server, e) && Tracks(w, u, f, pieces) && Honest(e, u, pieces)
    requires e.SendChunk? && e.u == u ==> NoFaults(e.faults)
    ensures Tracks(Next(sha, w, e), u, f, pieces)
    ensures Next(sha, w, e).server.rows[f.fileId].uploadStatus == w.server.rows[f.fileId].uploadStatus
  {
    if e.SendChunk? && e.u == u {
      OwnStep(sha, w, e, u, f, pieces);
    } else {
      assert e.GenerateId? ==> e.u != u;
      OtherStep(sha, w, e, u);
    }
  }

  /** A row is never failed by a run in which its own chunks are written. */
  lemma {:induction false} CleanRunStaysPending(sha: Sha, w: World, events: seq<Event>, u: string, f: File, pieces: seq<Bytes>)
    requires Inv(w) && FreshEvents(sha, w, events) && Tracks(w, u, f, pieces)
    requires HonestRun(events, u, pieces) && Clean(events, u)
    ensures f.fileId in Run(sha, w, events).server.rows
    ensures Run(sha, w, events).server.rows[f.fileId].uploadStatus == w.server.rows[f.fileId].uploadStatus
    decreases |events|
  {
    if |events| > 0 {
      var e, x := events[0], Next(sha, w, events[0]);
      assert Honest(e, u, pieces) && (e.SendChunk? && e.u == u ==> NoFaults(e.faults));
      StepKeeps(sha, w, e);
      CleanStep(sha, w, e, u, f, pieces);
      CleanRunStaysPending(sha, x, events[1..], u, f, pieces);
    }
  }

  lemma {:induction false} MergedIsConcat(m: map<int, Bytes>, pieces: seq<Bytes>)
    requires forall i :: 0 <= i < |pieces| ==> i in m && m[i] == pieces[i]
    ensures Merged(m, |pieces|) == Concat(pieces)
  {
    if |pieces| > 0 {
      var most := pieces[..|pieces| - 1];
      MergedIsConcat(m, most);
      ConcatSnoc(most, pieces[|pieces| - 1]);
      assert pieces == most + [pieces[|pieces| - 1]];
    }
  }

  /** Completing a tracked session that holds every piece stores the pieces in order. */
  lemma CompleteTracked(w: World, u: string, f: File, pieces: seq<Bytes>, how: CompleteFaults, at: int)
    requires Inv(w) && Tracks(w, u, f, pieces) && FaultFree(how)
    requires forall i :: 0 <= i < |pieces| ==> i in w.server.sessions[u].chunks
    ensures var (t, r) := Complete(w.server, u, how, at);
            && (r == Accepted <==> |pieces| > 0)
            && (r == Accepted ==> (f.ownerId, f.fileId) in t.stored && t.stored[(f.ownerId, f.fileId)] == Concat(pieces))
  {
    var info := w.server.sessions[u];
    CountOfAll(info.chunks, |pieces|);
    CompleteIff(w, u, how, at);
    if |pieces| > 0 {
      MergeIsLedger(w, u, how.bad);
      MergedIsConcat(w.ledger[f.fileId], pieces);
    }
  }

  /** The row keeps its size and path and, if it was pending, ends completed. */
  lemma CompletedRow(w: World, u: string, f: File, pieces: seq<Bytes>, how: CompleteFaults, at: int)
    requires Inv(w) && Tracks(w, u, f, pieces) && FaultFree(how) && Complete(w.server, u, how, at).1 == Accepted
    ensures var t := Complete(w.server, u, how, at).0;
            && f.fileId in t.rows && SameFile(f, t.rows[f.fileId])
            && (w.server.rows[f.fileId].uploadStatus == Pending ==> Uploaded(t.rows[f.fileId]))
  {
    RowCompletesIff(w, u, how, at);
  }

  function Request(name: string, extension: string, parent: string, data: Bytes, size: nat): Meta
    requires size > 0
  {
    Meta(name, |data|, extension, parent, TotalChunks(|data|, size))
  }

  /** What UploadGenerateId sets up. */
  lemma Opened(sha: Sha, w: World, e: Event, data: Bytes, size: nat)
    requires Inv(w) && size > 0 && e.GenerateId? && FreshEvent(sha, w.server, e)
    requires e.meta == Request(e.meta.fileName, e.meta.extension, e.meta.parentId, data, size)
    requires Upload.Apply(sha, w.server, e).1 == Accepted
    ensures var x := Next(sha, w, e); var f := Entry(sha, e.meta, e.account, e.fileId, e.at);
            && Inv(x) && Tracks(x, e.u, f, Pieces(data, size)) && x.server.rows[e.fileId].uploadStatus == Pending
  {
    StepKeeps(sha, w, e);
    PieceCount(data, size);
    AnnouncedIsSentIff(data, size);
    var f := Entry(sha, e.meta, e.account, e.fileId, e.at);
    assert [f][0] == f && [f][1..] == [];
    assert FT.Insert(w.server.rows, [f]) == Some(w.server.rows[e.fileId := f]);
  }

  /** The whole upload: from any reachable state, whatever else happens meanwhile, when
      every piece of the file is sent at least once, in any order and however often,
      the completion is accepted exactly when the file is not empty, and then the stored
      bytes are the file, a download finds them at the row's path and announces their
      number as the size, and the row is completed unless a chunk write failed. */
  lemma EndToEnd(sha: Sha, w: World, start: Event, data: Bytes, size: nat, events: seq<Event>, how: CompleteFaults, at: int)
    requires Inv(w) && size > 0 && start.GenerateId? && FreshEvent(sha, w.server, start)
    requires start.meta == Request(start.meta.fileName, start.meta.extension, start.meta.parentId, data, size)
    requires Upload.Apply(sha, w.server, start).1 == Accepted
    requires FreshEvents(sha, Next(sha, w, start), events) && HonestRun(events, start.u, Pieces(data, size))
    requires forall i :: 0 <= i < |Pieces(data, size)| ==> Sent(events, start.u, i)
    requires FaultFree(how)
    ensures var (t, r) := Complete(Run(sha, Next(sha, w, start), events).server, start.u, how, at);
            var place := (start.account, start.fileId);
            && (r == Accepted <==> |data| > 0)
            && (r == Accepted ==> place in t.stored && t.stored[place] == data)
            && (r == Accepted ==> start.fileId in t.rows && t.rows[start.fileId].size == |t.stored[place]|
                                  && t.rows[start.fileId].path == start.account + "/" + start.fileId)
            && (r == Accepted && Clean(events, start.u) ==> Uploaded(t.rows[start.fileId]))
  {
    var x := Next(sha, w, start);
    var f := Entry(sha, start.meta, start.account, start.fileId, start.at);
    var pieces := Pieces(data, size);
    Opened(sha, w, start, data, size);
    HonestRunCollects(sha, x, events, start.u, f, pieces);
    PiecesAreTheFile(data, size);
    var y := Run(sha, x, events);
    CompleteTracked(y, start.u, f, pieces, how, at);
    if |data| > 0 {
      assert |pieces| > 0;
      CompletedRow(y, start.u, f, pieces, how, at);
      if Clean(events, start.u) {
        CleanRunStaysPending(sha, x, events, start.u, f, pieces);
      }
    }
  }
}
