/** Overlapping ends happen: a run from an idle server in which two ends of one upload have
    both read the full session, and what the second does once the first has completed it. */
module UploadOverlapRun {
  import opened Text
  import opened FileModel
  import FT = FileTable
  import opened Upload
  import opened UploadRuns
  import opened UploadLocked
  import opened UploadInterleaving
  import opened UploadRaces
  import opened UploadRaceRun

  /** One chunk is announced and sent; a completion and another end then read the session. */
  predicate IsOverlap(steps: seq<Step>, e: Event, a: Bytes, f: ChunkFaults, completes: bool) {
    && e.GenerateId? && |steps| == 5
    && steps[0] == WholeStep(e, 0) && steps[1] == ReadStep(0, e.u, 0, a) && steps[2] == BodyStep(0, f)
    && steps[3] == EndReadStep(0, e.u, true) && steps[4] == EndReadStep(1, e.u, completes)
  }

  ghost predicate OneChunk(sha: Sha, e: Event) {
    Opens(sha, e) && e.meta.totalChunks == 1
  }

  function OwnSession(sha: Sha, e: Event): Session<nat>
    requires e.GenerateId?
  {
    FirstCopy(sha, e).(dir := ChunkDir(e.u))
  }

  function OnePath(path: string): (m: map<int, string>)
    ensures |m| == 1 && 0 in m && m[0] == path && forall i :: i in m <==> 0 <= i < 1
  {
    map[0 := path]
  }

  /** The chunk has been received and nothing is between its two steps. */
  ghost predicate Collected(sha: Sha, e: Event, h: Shared, a: Bytes, f: ChunkFaults)
    requires e.GenerateId?
  {
    && h.sessions == map[e.u := OwnSession(sha, e)] && h.heap == map[0 := OnePath(f.path)] && h.temp == map[f.path := a]
    && h.rows == map[e.fileId := Entry(sha, e.meta, e.account, e.fileId, e.at)]
    && h.waiting == map[] && h.ends == map[]
  }

  lemma ChunkCollected(sha: Sha, e: Event, a: Bytes, f: ChunkFaults) returns (h1: Shared, h2: Shared, h3: Shared)
    requires OneChunk(sha, e) && Fine(f)
    ensures Fresh(sha, IDLE, WholeStep(e, 0)) && h1 == Advance(sha, IDLE, WholeStep(e, 0))
    ensures h2 == Advance(sha, h1, ReadStep(0, e.u, 0, a)) && h3 == Advance(sha, h2, BodyStep(0, f))
    ensures f.path !in h2.temp && Collected(sha, e, h3, a, f)
  {
    Started(sha, e);
    h1 := Advance(sha, IDLE, WholeStep(e, 0));
    ReadWaits(h1, 0, e.u, 0, a);
    h2 := Advance(sha, h1, ReadStep(0, e.u, 0, a));
    h3 := Advance(sha, h2, BodyStep(0, f));
    OnlyBody(h2, e.u, FirstCopy(sha, e), a, f);
  }

  lemma OnlyBody(h: Shared, u: string, copy: Session<nat>, a: Bytes, f: ChunkFaults)
    requires h.sessions == map[u := copy] && copy.dir == "" && copy.indexes == 0 && h.heap == map[0 := map[]] && h.temp == map[]
    requires h.waiting == map[0 := Request(u, copy, 0, a)] && h.ends == map[] && Fine(f)
    ensures Body(h, 0, f) == Shared(map[u := copy.(dir := ChunkDir(u))], map[0 := OnePath(f.path)], map[f.path := a],
                                    h.dirs + {ChunkDir(u)}, h.stored, h.rows, map[], map[])
  {
    FineBody(h, 0, f);
    assert map[][0 := f.path] == OnePath(f.path);
    assert h.waiting - {0} == map[];
  }

  /** Both ends find the session and its one chunk. */
  lemma BothRead(sha: Sha, e: Event, h: Shared, a: Bytes, f: ChunkFaults, completes: bool) returns (h1: Shared, h2: Shared)
    requires OneChunk(sha, e) && Collected(sha, e, h, a, f)
    ensures h1 == Advance(sha, h, EndReadStep(0, e.u, true)) && h2 == Advance(sha, h1, EndReadStep(1, e.u, completes))
    ensures h2 == h.(ends := map[0 := End(e.u, OwnSession(sha, e), true), 1 := End(e.u, OwnSession(sha, e), completes)])
  {
    EndIsRead(h, 0, e.u, true);
    h1 := Advance(sha, h, EndReadStep(0, e.u, true));
    EndIsRead(h1, 1, e.u, completes);
    h2 := Advance(sha, h1, EndReadStep(1, e.u, completes));
  }

  lemma EndIsRead(h: Shared, thread: nat, u: string, completes: bool)
    requires Full(h, u)
    ensures EndRead(h, thread, u, completes) == h.(ends := h.ends[thread := End(u, h.sessions[u], completes)])
  {
  }

  /** The state that the run leads to. */
  ghost predicate Overlapping(h: Shared, u: string, completes: bool) {
    && Sound(h) && Private(h, u) && h.waiting == map[] && h.sessions.Keys == {u} && h.ends.Keys == {0, 1}
    && Ready(h, 0) && h.ends[0].u == u && h.ends[0].completes
    && h.ends[1].u == u && h.ends[1].completes == completes && h.ends[1].copy.totalChunks == 1
  }

  lemma FiveSteps(sha: Sha, h: Shared, steps: seq<Step>, h1: Shared, h2: Shared, h3: Shared, h4: Shared, h5: Shared)
    requires |steps| == 5 && h1 == Advance(sha, h, steps[0]) && h2 == Advance(sha, h1, steps[1]) && h3 == Advance(sha, h2, steps[2])
    requires h4 == Advance(sha, h3, steps[3]) && h5 == Advance(sha, h4, steps[4])
    requires Fresh(sha, h, steps[0]) && Fresh(sha, h1, steps[1]) && Fresh(sha, h2, steps[2]) && Fresh(sha, h3, steps[3])
    requires Fresh(sha, h4, steps[4])
    ensures FreshRun(sha, h, steps) && RunSteps(sha, h, steps) == h5
  {
    assert forall i :: 1 <= i < 5 ==> steps[i..][1..] == steps[i + 1..];
    OneStepRun(sha, h4, steps[4]);
    assert steps[4..] == [steps[4]];
    StepsCons(sha, h3, steps[3..], h4, h5);
    StepsCons(sha, h2, steps[2..], h3, h5);
    StepsCons(sha, h1, steps[1..], h2, h5);
    StepsCons(sha, h, steps, h1, h5);
  }

  /** It is reached, and the completion that acts first is accepted: it stores the chunk
      and completes the row. */
  lemma OverlapIsReached(sha: Sha, idle: Shared, steps: seq<Step>, e: Event, a: Bytes, f: ChunkFaults, completes: bool,
                         how: CompleteFaults, at: int)
    requires idle == IDLE && OneChunk(sha, e) && IsOverlap(steps, e, a, f, completes) && Fine(f) && FaultFree(how)
    ensures FreshRun(sha, idle, steps)
    ensures var h := RunSteps(sha, idle, steps);
            && Overlapping(h, e.u, completes) && Ended(h, 0, how, at).1 == Accepted
            && var g := Act(h, 0, how, at); var place := (e.account, e.fileId);
               && place in g.stored && g.stored[place] == a && e.fileId in g.rows && Uploaded(g.rows[e.fileId])
  {
    var h1, h2, h3 := ChunkCollected(sha, e, a, f);
    var h4, h5 := BothRead(sha, e, h3, a, f, completes);
    FiveSteps(sha, idle, steps, h1, h2, h3, h4, h5);
    FromIdle(sha, idle, steps);
    BothReadOverlaps(sha, e, h3, h5, a, f, completes);
    FirstCompletes(sha, e, h3, h5, a, f, how, at);
  }

  lemma BothReadOverlaps(sha: Sha, e: Event, h: Shared, g: Shared, a: Bytes, f: ChunkFaults, completes: bool)
    requires OneChunk(sha, e) && Collected(sha, e, h, a, f) && Sound(g)
    requires g == h.(ends := map[0 := End(e.u, OwnSession(sha, e), true), 1 := End(e.u, OwnSession(sha, e), completes)])
    ensures Overlapping(g, e.u, completes)
  {
    var own := OwnSession(sha, e);
    BothFit(g, e.u, own, completes);
    OnlyIsPrivate(g, e.u, own);
  }

  lemma BothFit(g: Shared, u: string, own: Session<nat>, completes: bool)
    requires g.ends == map[0 := End(u, own, true), 1 := End(u, own, completes)]
    ensures g.ends.Keys == {0, 1} && forall k :: k in g.ends ==> EndFits(own, u, g.ends[k])
  {
  }

  lemma FirstCompletes(sha: Sha, e: Event, h: Shared, g: Shared, a: Bytes, f: ChunkFaults, how: CompleteFaults, at: int)
    requires OneChunk(sha, e) && Collected(sha, e, h, a, f) && FaultFree(how)
    requires g == h.(ends := g.ends) && 0 in g.ends && g.ends[0] == End(e.u, OwnSession(sha, e), true)
    ensures Ready(g, 0) && Ended(g, 0, how, at).1 == Accepted
    ensures var t := Act(g, 0, how, at); var place := (e.account, e.fileId);
            && place in t.stored && t.stored[place] == a && e.fileId in t.rows && Uploaded(t.rows[e.fileId])
  {
    var info := Info(OwnSession(sha, e), OnePath(f.path));
    OneChunkMerges(g.temp, info, a, how.bad);
    OnlyRowCompletes(sha, e, g.rows, at);
  }

  lemma OneChunkMerges(temp: map<string, Bytes>, info: ChunkInfo, a: Bytes, bad: set<int>)
    requires info.totalChunks == 1 && bad == {} && 0 in info.chunks && info.chunks[0] in temp && temp[info.chunks[0]] == a
    ensures CopyFrom(temp, info, bad, 0) == Accepted && MergedChunks(temp, info, bad) == a
  {
    assert Readable(temp, info, bad, 0);
    var m := Contents(temp, info);
    assert Merged(m, 1) == Merged(m, 0) + a && [] + a == a;
  }

  /** After that no session is left and no chunk request waits, only the other end. A
      second completion removes the stored file and fails the row. */
  lemma OverlapDestroys(sha: Sha, h: Shared, u: string, how: CompleteFaults, at: int, good: CompleteFaults, later: int)
    requires Overlapping(h, u, true) && Ended(h, 0, how, at).1 == Accepted && FaultFree(good)
    ensures var g := Act(h, 0, how, at); var id := h.sessions[u].file.fileId; var place := (h.sessions[u].accountId, id);
            && g.sessions == map[] && g.waiting == map[] && place in g.stored && Ready(g, 1)
            && var late := Act(g, 1, good, later);
               place !in late.stored && id in late.rows && late.rows[id].uploadStatus == Failed
  {
    assert EndFits(h.sessions[u], u, h.ends[1]);
    AcceptedActCloses(h, 0, how, at);
    StaleCompletionDestroysIff(sha, h, u, 0, 1, how, at, good, later);
  }

  /** A failure fails the completed row and leaves its file. */
  lemma OverlapFails(sha: Sha, h: Shared, u: string, how: CompleteFaults, at: int, late: CompleteFaults, later: int)
    requires Overlapping(h, u, false) && Ended(h, 0, how, at).1 == Accepted && !late.dbFails
    ensures var g := Act(h, 0, how, at); var id := h.sessions[u].file.fileId; var place := (h.sessions[u].accountId, id);
            && g.sessions == map[] && g.waiting == map[] && place in g.stored && Ready(g, 1)
            && var end := Act(g, 1, late, later);
               end.stored == g.stored && id in end.rows && end.rows[id].uploadStatus == Failed
  {
    assert EndFits(h.sessions[u], u, h.ends[1]);
    AcceptedActCloses(h, 0, how, at);
    StaleFailure(sha, h, u, 0, 1, how, at, late, later);
  }
}
