/** The races of UploadRaces happen: a run from an idle server in which a chunk request
    stays between its two steps while its session fills up and is completed. */
module UploadRaceRun {
  import opened Text
  import opened FileModel
  import FT = FileTable
  import opened Upload
  import opened UploadRuns
  import opened UploadLocked
  import opened UploadInterleaving
  import opened UploadRaces

  predicate Fine(f: ChunkFaults) {
    !f.statFails && !f.mkdirFails && !f.createFails && !f.copyFails
  }

  /** Two chunks are announced; three requests read the fresh session, two are locked. */
  predicate IsRace(steps: seq<Step>, e: Event, a: Bytes, b: Bytes, c: Bytes, f: ChunkFaults, g: ChunkFaults) {
    && e.GenerateId? && |steps| == 6
    && steps[0] == WholeStep(e, 0)
    && steps[1] == ReadStep(0, e.u, 0, a) && steps[2] == ReadStep(1, e.u, 1, b) && steps[3] == ReadStep(2, e.u, 0, c)
    && steps[4] == BodyStep(0, f) && steps[5] == BodyStep(1, g)
  }

  /** A request that opens an upload on the idle server. */
  ghost predicate Opens(sha: Sha, e: Event) {
    e.GenerateId? && !IsBlank(e.meta.fileName) && e.meta.totalChunks > 0 && FreshEvent(sha, Deref(IDLE), e)
  }

  /** The request that starts the race. */
  ghost predicate Starts(sha: Sha, e: Event) {
    Opens(sha, e) && e.meta.totalChunks == 2
  }

  function FirstCopy(sha: Sha, e: Event): Session<nat>
    requires e.GenerateId?
  {
    Session(e.meta.totalChunks, "", e.account, Entry(sha, e.meta, e.account, e.fileId, e.at), 0)
  }

  lemma Started(sha: Sha, e: Event)
    requires Opens(sha, e)
    ensures Fresh(sha, IDLE, WholeStep(e, 0))
    ensures Advance(sha, IDLE, WholeStep(e, 0))
         == Shared(map[e.u := FirstCopy(sha, e)], map[0 := map[]], map[], {}, map[],
                   map[e.fileId := Entry(sha, e.meta, e.account, e.fileId, e.at)], map[], map[])
  {
    FT.InsertOne(map[], Entry(sha, e.meta, e.account, e.fileId, e.at));
  }

  lemma ReadWaits(h: Shared, thread: nat, u: string, index: int, data: Bytes)
    requires u in h.sessions && h.sessions[u].indexes in h.heap && !Full(h, u) && index < h.sessions[u].totalChunks
    ensures Read(h, thread, u, index, data) == h.(waiting := h.waiting[thread := Request(u, h.sessions[u], index, data)])
  {
  }

  /** A body with working disks on a copy that knows no directory. */
  lemma FineBody(h: Shared, thread: nat, f: ChunkFaults)
    requires thread in h.waiting && h.waiting[thread].copy.dir == "" && h.waiting[thread].copy.indexes in h.heap && Fine(f)
    ensures var q := h.waiting[thread]; var r := q.copy.indexes;
            Body(h, thread, f) == Shared(h.sessions[q.u := q.copy.(dir := ChunkDir(q.u))], h.heap[r := h.heap[r][q.index := f.path]],
                                         h.temp[f.path := q.data], h.dirs + {ChunkDir(q.u)}, h.stored, h.rows, h.waiting - {thread}, h.ends)
  {
  }

  /** After the race the session is full and one request read before is still waiting. */
  ghost predicate Raced(sha: Sha, e: Event, h: Shared, a: Bytes, b: Bytes, c: Bytes, f: ChunkFaults, g: ChunkFaults)
    requires e.GenerateId?
  {
    && h.sessions == map[e.u := FirstCopy(sha, e).(dir := ChunkDir(e.u))]
    && h.heap == map[0 := TwoChunks(f.path, g.path)] && h.temp == map[f.path := a, g.path := b]
    && h.dirs == {ChunkDir(e.u)} && h.stored == map[]
    && h.rows == map[e.fileId := Entry(sha, e.meta, e.account, e.fileId, e.at)]
    && h.waiting == map[2 := Request(e.u, FirstCopy(sha, e), 0, c)] && h.ends == map[]
  }

  function TwoChunks(p: string, q: string): (m: map<int, string>)
    ensures |m| == 2 && 0 in m && 1 in m && m[0] == p && m[1] == q && forall i :: i in m <==> 0 <= i < 2
  {
    CountOfAll(map[0 := p, 1 := q], 2);
    map[0 := p, 1 := q]
  }

  lemma ThreeReads(sha: Sha, h: Shared, u: string, copy: Session<nat>, a: Bytes, b: Bytes, c: Bytes, h1: Shared, h2: Shared, h3: Shared)
    requires h.sessions == map[u := copy] && copy.totalChunks == 2 && copy.indexes == 0 && h.heap == map[0 := map[]] && h.waiting == map[]
    requires h1 == Advance(sha, h, ReadStep(0, u, 0, a)) && h2 == Advance(sha, h1, ReadStep(1, u, 1, b))
    requires h3 == Advance(sha, h2, ReadStep(2, u, 0, c))
    ensures h3 == h.(waiting := map[0 := Request(u, copy, 0, a), 1 := Request(u, copy, 1, b), 2 := Request(u, copy, 0, c)])
  {
    ReadWaits(h, 0, u, 0, a);
    ReadWaits(h1, 1, u, 1, b);
    ReadWaits(h2, 2, u, 0, c);
  }

  lemma FirstBody(sha: Sha, h: Shared, u: string, copy: Session<nat>, p: Request, q: Request, r: Request, f: ChunkFaults)
    requires h.sessions == map[u := copy] && copy.dir == "" && copy.indexes == 0 && h.heap == map[0 := map[]] && Fine(f)
    requires p.u == u && p.copy == copy && h.waiting == map[0 := p, 1 := q, 2 := r] && h.temp == map[] && h.dirs == {}
    ensures Advance(sha, h, BodyStep(0, f))
         == Shared(map[u := copy.(dir := ChunkDir(u))], map[0 := map[p.index := f.path]], map[f.path := p.data],
                   {ChunkDir(u)}, h.stored, h.rows, map[1 := q, 2 := r], h.ends)
  {
    FineBody(h, 0, f);
    assert h.waiting - {0} == map[1 := q, 2 := r];
    assert h.dirs + {ChunkDir(u)} == {ChunkDir(u)};
  }

  lemma SecondBody(sha: Sha, h: Shared, u: string, copy: Session<nat>, m: map<int, string>, q: Request, r: Request, g: ChunkFaults)
    requires h.sessions == map[u := copy.(dir := ChunkDir(u))] && copy.dir == "" && copy.indexes == 0 && h.heap == map[0 := m]
    requires q.u == u && q.copy == copy && h.waiting == map[1 := q, 2 := r] && h.dirs == {ChunkDir(u)} && Fine(g)
    ensures Advance(sha, h, BodyStep(1, g))
         == Shared(h.sessions, map[0 := m[q.index := g.path]], h.temp[g.path := q.data], h.dirs, h.stored, h.rows, map[2 := r], h.ends)
  {
    FineBody(h, 1, g);
    SameMap(h.sessions, u, copy.(dir := ChunkDir(u)));
    LastOfTwo(h.waiting, q, r);
    assert h.dirs + {ChunkDir(u)} == h.dirs;
  }

  lemma SameMap<V>(m: map<string, V>, k: string, v: V)
    requires m == map[k := v]
    ensures m[k := v] == m
  {
  }

  lemma LastOfTwo(m: map<nat, Request>, q: Request, r: Request)
    requires m == map[1 := q, 2 := r]
    ensures m - {1} == map[2 := r] && 1 in m && m[1] == q
  {
  }

  lemma StepsCons(sha: Sha, h: Shared, steps: seq<Step>, g: Shared, end: Shared)
    requires |steps| > 0 && Fresh(sha, h, steps[0]) && g == Advance(sha, h, steps[0])
    requires FreshRun(sha, g, steps[1..]) && RunSteps(sha, g, steps[1..]) == end
    ensures FreshRun(sha, h, steps) && RunSteps(sha, h, steps) == end
  {
  }

  lemma SixSteps(sha: Sha, h: Shared, steps: seq<Step>, h1: Shared, h2: Shared, h3: Shared, h4: Shared, h5: Shared, h6: Shared)
    requires |steps| == 6 && h1 == Advance(sha, h, steps[0]) && h2 == Advance(sha, h1, steps[1]) && h3 == Advance(sha, h2, steps[2])
    requires h4 == Advance(sha, h3, steps[3]) && h5 == Advance(sha, h4, steps[4]) && h6 == Advance(sha, h5, steps[5])
    requires Fresh(sha, h, steps[0]) && Fresh(sha, h1, steps[1]) && Fresh(sha, h2, steps[2]) && Fresh(sha, h3, steps[3])
    requires Fresh(sha, h4, steps[4]) && Fresh(sha, h5, steps[5])
    ensures FreshRun(sha, h, steps) && RunSteps(sha, h, steps) == h6
  {
    assert forall i :: 1 <= i < 6 ==> steps[i..][1..] == steps[i + 1..];
    OneStepRun(sha, h5, steps[5]);
    assert steps[5..] == [steps[5]];
    StepsCons(sha, h4, steps[4..], h5, h6);
    StepsCons(sha, h3, steps[3..], h4, h6);
    StepsCons(sha, h2, steps[2..], h3, h6);
    StepsCons(sha, h1, steps[1..], h2, h6);
    StepsCons(sha, h, steps, h1, h6);
  }

  /** The opening and the three reads. */
  lemma Reads(sha: Sha, e: Event, a: Bytes, b: Bytes, c: Bytes) returns (h1: Shared, h2: Shared, h3: Shared, h4: Shared)
    requires Starts(sha, e)
    ensures Fresh(sha, IDLE, WholeStep(e, 0)) && h1 == Advance(sha, IDLE, WholeStep(e, 0))
    ensures h2 == Advance(sha, h1, ReadStep(0, e.u, 0, a)) && h3 == Advance(sha, h2, ReadStep(1, e.u, 1, b))
    ensures h4 == Advance(sha, h3, ReadStep(2, e.u, 0, c))
    ensures AllRead(sha, e, h4, Request(e.u, FirstCopy(sha, e), 0, a), Request(e.u, FirstCopy(sha, e), 1, b), Request(e.u, FirstCopy(sha, e), 0, c))
  {
    Started(sha, e);
    h1 := Advance(sha, IDLE, WholeStep(e, 0));
    h2 := Advance(sha, h1, ReadStep(0, e.u, 0, a));
    h3 := Advance(sha, h2, ReadStep(1, e.u, 1, b));
    h4 := Advance(sha, h3, ReadStep(2, e.u, 0, c));
    ThreeReads(sha, h1, e.u, FirstCopy(sha, e), a, b, c, h2, h3, h4);
  }

  ghost predicate AllRead(sha: Sha, e: Event, h: Shared, p: Request, q: Request, r: Request)
    requires e.GenerateId?
  {
    && h.sessions == map[e.u := FirstCopy(sha, e)] && h.heap == map[0 := map[]] && h.temp == map[] && h.dirs == {} && h.stored == map[]
    && h.rows == map[e.fileId := Entry(sha, e.meta, e.account, e.fileId, e.at)] && h.waiting == map[0 := p, 1 := q, 2 := r]
    && h.ends == map[]
  }

  /** The two bodies. */
  lemma Bodies(sha: Sha, e: Event, h: Shared, a: Bytes, b: Bytes, c: Bytes, p: Request, q: Request, r: Request, f: ChunkFaults, g: ChunkFaults)
    returns (h1: Shared, h2: Shared)
    requires e.GenerateId? && AllRead(sha, e, h, p, q, r) && Fine(f) && Fine(g) && f.path != g.path
    requires p == Request(e.u, FirstCopy(sha, e), 0, a) && q == Request(e.u, FirstCopy(sha, e), 1, b) && r == Request(e.u, FirstCopy(sha, e), 0, c)
    ensures h1 == Advance(sha, h, BodyStep(0, f)) && h2 == Advance(sha, h1, BodyStep(1, g))
    ensures f.path !in h.temp && g.path !in h1.temp && Raced(sha, e, h2, a, b, c, f, g)
  {
    FirstBody(sha, h, e.u, FirstCopy(sha, e), p, q, r, f);
    h1 := Advance(sha, h, BodyStep(0, f));
    SecondBody(sha, h1, e.u, FirstCopy(sha, e), map[0 := f.path], q, r, g);
    h2 := Advance(sha, h1, BodyStep(1, g));
    assert map[0 := f.path][1 := g.path] == TwoChunks(f.path, g.path);
  }

  /** The race happens, from an idle server on. */
  lemma RaceHappens(sha: Sha, idle: Shared, steps: seq<Step>, e: Event, a: Bytes, b: Bytes, c: Bytes, f: ChunkFaults, g: ChunkFaults)
    requires idle == IDLE && Starts(sha, e) && IsRace(steps, e, a, b, c, f, g) && Fine(f) && Fine(g) && f.path != g.path
    ensures FreshRun(sha, idle, steps) && Raced(sha, e, RunSteps(sha, idle, steps), a, b, c, f, g)
  {
    var copy := FirstCopy(sha, e);
    var h1, h2, h3, h4 := Reads(sha, e, a, b, c);
    var h5, h6 := Bodies(sha, e, h4, a, b, c, Request(e.u, copy, 0, a), Request(e.u, copy, 1, b), Request(e.u, copy, 0, c), f, g);
    SixSteps(sha, idle, steps, h1, h2, h3, h4, h5, h6);
  }

  /** The state that the race leads to: the session is full, completing it would be
      accepted and reach the row, and a request that knows no directory still waits. */
  ghost predicate Racing(h: Shared, u: string, thread: nat) {
    && Sound(h) && Private(h, u) && Full(h, u)
    && thread in h.waiting && h.waiting[thread].u == u && h.waiting[thread].copy.dir == ""
    && h.waiting[thread].index == 0 && h.sessions[u].totalChunks == 2
  }

  /** It is reached. */
  lemma RaceIsReached(sha: Sha, idle: Shared, steps: seq<Step>, e: Event, a: Bytes, b: Bytes, c: Bytes, f: ChunkFaults, g: ChunkFaults)
    requires idle == IDLE && Starts(sha, e) && IsRace(steps, e, a, b, c, f, g) && Fine(f) && Fine(g) && f.path != g.path
    ensures FreshRun(sha, idle, steps) && Racing(RunSteps(sha, idle, steps), e.u, 2)
  {
    RaceHappens(sha, idle, steps, e, a, b, c, f, g);
    FromIdle(sha, idle, steps);
    RacedIsRacing(sha, e, RunSteps(sha, idle, steps), a, b, c, f, g);
  }

  lemma FromIdle(sha: Sha, idle: Shared, steps: seq<Step>)
    requires idle == IDLE && FreshRun(sha, idle, steps)
    ensures Sound(RunSteps(sha, idle, steps))
  {
    assert Sound(idle);
    RunSound(sha, idle, steps);
  }

  lemma RacedIsRacing(sha: Sha, e: Event, h: Shared, a: Bytes, b: Bytes, c: Bytes, f: ChunkFaults, g: ChunkFaults)
    requires Starts(sha, e) && Raced(sha, e, h, a, b, c, f, g) && Sound(h)
    ensures Racing(h, e.u, 2)
  {
    RacedIsFull(sha, e, h, a, b, c, f, g);
  }

  lemma RacedIsFull(sha: Sha, e: Event, h: Shared, a: Bytes, b: Bytes, c: Bytes, f: ChunkFaults, g: ChunkFaults)
    requires Starts(sha, e) && Raced(sha, e, h, a, b, c, f, g)
    ensures Private(h, e.u) && Full(h, e.u) && 2 in h.waiting && h.waiting[2] == Request(e.u, FirstCopy(sha, e), 0, c)
  {
    OnlyIsPrivate(h, e.u, FirstCopy(sha, e).(dir := ChunkDir(e.u)));
    assert h.heap[0] == TwoChunks(f.path, g.path);
  }

  /** A session beside which there is no other. */
  lemma OnlyIsPrivate(h: Shared, u: string, own: Session<nat>)
    requires h.sessions == map[u := own] && DirKnown(u, own.dir)
    requires forall k :: k in h.waiting ==> RequestFits(own, u, h.waiting[k])
    requires forall k :: k in h.ends ==> EndFits(own, u, h.ends[k])
    ensures Private(h, u)
  {
  }

  /** There the waiting request overwrites chunk 0, where an atomic request is refused. */
  lemma RacingOverwrites(sha: Sha, h: Shared, u: string, thread: nat, late: ChunkFaults)
    requires Racing(h, u, thread) && Fine(late) && late.path !in h.temp
    ensures var after := Advance(sha, h, BodyStep(thread, late)); var r := h.sessions[u].indexes;
            && !ChunkAllowed(Deref(h), u, 0) && Deref(after) != Deref(h)
            && r in h.heap && r in after.heap && after.heap[r] == h.heap[r][0 := late.path]
            && late.path in after.temp && after.temp[late.path] == h.waiting[thread].data
  {
    BodyChangesIff(h, u, thread, late);
    FullSessionOverwritten(h, u, thread, late);
    assert Deref(h).sessions[u].chunks == h.heap[h.sessions[u].indexes];
  }

  /** And when the upload is completed first, the waiting request brings its session back. */
  lemma RacingRevives(sha: Sha, h: Shared, u: string, thread: nat, late: ChunkFaults, how: CompleteFaults, at: int)
    requires Racing(h, u, thread) && Complete(Deref(h), u, how, at).1 == Accepted && Fine(late)
    ensures var first := Atomic(sha, h, CompleteUpload(u, how, at), 0);
            u !in first.sessions && u in Advance(sha, first, BodyStep(thread, late)).sessions
  {
    RevivesAfterEndIff(sha, h, thread, CompleteUpload(u, how, at), 0, late);
  }

  /** A second completion then removes the stored file and fails the row. */
  lemma RacingDestroys(sha: Sha, h: Shared, u: string, thread: nat, late: ChunkFaults,
                       how: CompleteFaults, at: int, good: CompleteFaults, later: int)
    requires Racing(h, u, thread) && Complete(Deref(h), u, how, at).1 == Accepted && FaultFree(good)
    requires Fine(late) && forall i :: i in h.heap[h.sessions[u].indexes] ==> h.heap[h.sessions[u].indexes][i] != late.path
    ensures var first := Atomic(sha, h, CompleteUpload(u, how, at), 0);
            thread in first.waiting && first.waiting[thread].copy.indexes in first.heap &&
            var second := Atomic(sha, Body(first, thread, late), CompleteUpload(u, good, later), 0);
            var id := h.sessions[u].file.fileId; var place := (h.sessions[u].accountId, id);
            && place in first.stored && place !in second.stored
            && id in second.rows && second.rows[id].uploadStatus == Failed
  {
    SecondCompletionDestroysIff(sha, h, u, thread, how, at, 0, late, good, later);
  }

  /** After the race the first completion is accepted: it stores both chunks and completes
      the row. */
  lemma RacedCompletes(sha: Sha, e: Event, h: Shared, a: Bytes, b: Bytes, c: Bytes, f: ChunkFaults, g: ChunkFaults,
                       how: CompleteFaults, at: int)
    requires Starts(sha, e) && Raced(sha, e, h, a, b, c, f, g) && f.path != g.path && FaultFree(how)
    ensures var (t, r) := Complete(Deref(h), e.u, how, at); var place := (e.account, e.fileId);
            && r == Accepted && place in t.stored && t.stored[place] == a + b
            && e.fileId in t.rows && Uploaded(t.rows[e.fileId])
  {
    OnlyRowCompletes(sha, e, h.rows, at);
    TwoChunksComplete(Deref(h), e.u, a, b, how, at);
  }

  lemma TwoChunksComplete(s: Server, u: string, a: Bytes, b: Bytes, how: CompleteFaults, at: int)
    requires u in s.sessions && s.sessions[u].totalChunks == 2 && |s.sessions[u].chunks| == 2 && FaultFree(how)
    requires var m := s.sessions[u].chunks;
             && 0 in m && 1 in m && m[0] in s.temp && m[1] in s.temp && s.temp[m[0]] == a && s.temp[m[1]] == b
    requires FT.SetStatus(s.rows, s.sessions[u].accountId, s.sessions[u].file.fileId, Completed, Some(at)).Some?
    ensures var info := s.sessions[u]; var (t, r) := Complete(s, u, how, at);
            && r == Accepted && Location(info) in t.stored && t.stored[Location(info)] == a + b
            && t.rows == FT.SetStatus(s.rows, info.accountId, info.file.fileId, Completed, Some(at)).value
  {
    TwoChunksMerge(s.temp, s.sessions[u], a, b, how.bad);
  }

  lemma TwoChunksMerge(temp: map<string, Bytes>, info: ChunkInfo, a: Bytes, b: Bytes, bad: set<int>)
    requires info.totalChunks == 2 && bad == {} && 0 in info.chunks && 1 in info.chunks
    requires info.chunks[0] in temp && info.chunks[1] in temp && temp[info.chunks[0]] == a && temp[info.chunks[1]] == b
    ensures CopyFrom(temp, info, bad, 0) == Accepted && MergedChunks(temp, info, bad) == a + b
  {
    assert Readable(temp, info, bad, 0) && Readable(temp, info, bad, 1);
    var m := Contents(temp, info);
    assert Merged(m, 2) == Merged(m, 1) + b && Merged(m, 1) == Merged(m, 0) + a && [] + a == a;
  }

  lemma OnlyRowCompletes(sha: Sha, e: Event, rows: FT.Table, at: int)
    requires e.GenerateId? && rows == map[e.fileId := Entry(sha, e.meta, e.account, e.fileId, e.at)]
    ensures var r := FT.SetStatus(rows, e.account, e.fileId, Completed, Some(at));
            r.Some? && e.fileId in r.value && Uploaded(r.value[e.fileId])
  {
    assert forall k :: k in rows ==> k == e.fileId;
  }
}
