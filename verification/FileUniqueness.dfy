/** What the conditional unique index means in terms of names: the hash column
    follows the row's fields except after a restore that moves a row to the root. */
module FileUniqueness {
  import opened Text
  import opened FileModel
  import opened FileTable

  /** The hash column is the hash of the row's own fields. */
  predicate HashOk(sha: Sha, f: File) {
    f.uniqueHash == sha(HashInput(f.ownerId, f.name, f.extension, f.parentId))
  }

  ghost predicate AllHashOk(sha: Sha, t: Table) {
    forall id :: id in t ==> HashOk(sha, t[id])
  }

  ghost predicate CollisionFree(sha: Sha) {
    forall x, y :: sha(x) == sha(y) ==> x == y
  }

  /** Two rows that a folder must not both show. */
  predicate SameName(f: File, g: File) {
    f.ownerId == g.ownerId && f.name == g.name && f.extension == g.extension && f.parentId == g.parentId
  }

  predicate Counted(f: File) {
    f.fileType == Regular && f.uploadStatus != Failed
  }

  ghost predicate UniqueNames(t: Table) {
    forall a, b :: a in t && b in t && a != b && Counted(t[a]) && Counted(t[b]) ==> !SameName(t[a], t[b])
  }

  /** NewFile establishes the hash. */
  lemma NewFileHashOk(sha: Sha, id: string, now: int, owner: string, name: string, fileType: FileType,
                      extension: string, size: int, parent: string, status: UploadStatus)
    ensures HashOk(sha, NewFile(sha, id, now, owner, name, fileType, extension, size, parent, status))
  {
  }

  /** The restore keeps every parent. */
  ghost predicate KeepsParents(t: Table, s: Step) {
    s.RestoreFiles? ==>
      forall id :: Owned(t, s.owner, id) && id in s.ids ==> RestoredParent(t, t[id]) == t[id].parentId
  }

  lemma {:induction false} InsertKeepsHash(sha: Sha, t: Table, files: seq<File>)
    requires AllHashOk(sha, t) && (forall i :: 0 <= i < |files| ==> HashOk(sha, files[i])) && Insert(t, files).Some?
    ensures AllHashOk(sha, Insert(t, files).value)
    decreases |files|
  {
    if |files| > 0 {
      InsertKeepsHash(sha, t[files[0].fileId := files[0]], files[1..]);
    }
  }

  ghost predicate HashedStep(sha: Sha, s: Step) {
    s.AddFiles? ==> forall i :: 0 <= i < |s.files| ==> HashOk(sha, s.files[i])
  }

  lemma StepKeepsHash(sha: Sha, t: Table, s: Step)
    requires AllHashOk(sha, t) && KeysMatch(t) && HashedStep(sha, s) && KeepsParents(t, s)
    ensures AllHashOk(sha, Apply(sha, t, s))
  {
    match s
    case AddFiles(files) =>
      if Insert(t, files).Some? {
        InsertKeepsHash(sha, t, files);
      }
    case RenameFile(o, id, name, now) =>
    case DeleteFiles(o, ids, at) =>
    case RestoreFiles(o, ids) =>
    case UpdateStatus(o, id, st, touched) =>
  }

  /** The hash of a restored row stays right exactly when the row keeps its parent. */
  lemma RestoreHashIff(sha: Sha, t: Table, owner: string, ids: seq<string>, id: string)
    requires CollisionFree(sha) && Owned(t, owner, id) && id in ids && HashOk(sha, t[id])
    ensures HashOk(sha, Restore(t, owner, ids)[id]) <==> RestoredParent(t, t[id]) == t[id].parentId
  {
    var f := t[id];
    var before := HashInput(f.ownerId, f.name, f.extension, f.parentId);
    var after := HashInput(f.ownerId, f.name, f.extension, RestoredParent(t, f));
    if f.parentId != "" && RestoredParent(t, f) == "" {
      assert |after| < |before|;
    }
  }

  lemma IndexMeansUnique(sha: Sha, t: Table)
    requires AllHashOk(sha, t) && Indexed(t)
    ensures UniqueNames(t)
  {
    forall a, b | a in t && b in t && a != b && Counted(t[a]) && Counted(t[b]) ensures !SameName(t[a], t[b]) {
      assert !Clash(t[a], t[b]);
    }
  }

  ghost predicate OrderlyRun(sha: Sha, t: Table, steps: seq<Step>)
    decreases |steps|
  {
    |steps| > 0 ==>
      HashedStep(sha, steps[0]) && KeepsParents(t, steps[0]) && OrderlyRun(sha, Apply(sha, t, steps[0]), steps[1..])
  }

  /** Over every run without a re-parenting restore, no two pending or completed
      files of an owner share name, extension and parent. */
  lemma {:induction false} RunKeepsUnique(sha: Sha, t: Table, steps: seq<Step>)
    requires AllHashOk(sha, t) && KeysMatch(t) && Indexed(t)
    requires FreshRun(sha, t, steps) && OrderlyRun(sha, t, steps)
    ensures AllHashOk(sha, Run(sha, t, steps)) && UniqueNames(Run(sha, t, steps))
    decreases |steps|
  {
    if |steps| == 0 {
      IndexMeansUnique(sha, t);
    } else {
      StepKeepsHash(sha, t, steps[0]);
      StepKeepsIndex(sha, t, steps[0]);
      RunKeepsUnique(sha, Apply(sha, t, steps[0]), steps[1..]);
    }
  }

  /** A small run after which two files of one name lie in the root: a folder and
      the file in it are deleted, a file of that name is added to the root, and the
      first file is restored, which moves it to the root with its old hash. */
  function Mishap(d: File, a: File, b: File): seq<Step> {
    [AddFiles([d]), AddFiles([a]), DeleteFiles(a.ownerId, [d.fileId, a.fileId], 9), AddFiles([b]),
     RestoreFiles(a.ownerId, [a.fileId])]
  }

  /** A folder, a file in it, and a file of the same name in the root. */
  ghost predicate Namesakes(sha: Sha, d: File, a: File, b: File) {
    && HashOk(sha, a) && HashOk(sha, b) && d.fileType == Dir && Counted(a) && Counted(b)
    && d.ownerId == a.ownerId == b.ownerId && a.name == b.name && a.extension == b.extension
    && a.parentId == d.fileId && d.fileId != "" && b.parentId == ""
    && d.fileId != a.fileId && a.fileId != b.fileId && b.fileId != d.fileId
  }

  function Gone(f: File): File {
    f.(deletedOn := Some(9))
  }

  lemma BothDeleted(sha: Sha, d: File, a: File, b: File)
    requires Namesakes(sha, d, a, b)
    ensures Insert(map[], [d]) == Some(map[d.fileId := d])
    ensures Insert(map[d.fileId := d], [a]) == Some(map[d.fileId := d, a.fileId := a])
    ensures Delete(map[d.fileId := d, a.fileId := a], a.ownerId, [d.fileId, a.fileId], 9)
         == map[d.fileId := Gone(d), a.fileId := Gone(a)]
  {
    InsertOne(map[], d);
    InsertOne(map[d.fileId := d], a);
  }

  lemma NamesakeAdded(sha: Sha, d: File, a: File, b: File)
    requires CollisionFree(sha) && Namesakes(sha, d, a, b)
    ensures Insert(map[d.fileId := Gone(d), a.fileId := Gone(a)], [b])
         == Some(map[d.fileId := Gone(d), a.fileId := Gone(a), b.fileId := b])
  {
    InsertOne(map[d.fileId := Gone(d), a.fileId := Gone(a)], b);
    assert |HashInput(a.ownerId, a.name, a.extension, a.parentId)| > |HashInput(b.ownerId, b.name, b.extension, "")|;
  }

  lemma RestoredBeside(sha: Sha, d: File, a: File, b: File)
    requires Namesakes(sha, d, a, b)
    ensures var t := Restore(map[d.fileId := Gone(d), a.fileId := Gone(a), b.fileId := b], a.ownerId, [a.fileId]);
            a.fileId in t && b.fileId in t && Counted(t[a.fileId]) && t[b.fileId] == b && SameName(t[a.fileId], b)
  {
  }

  /** The tables along such a run. */
  lemma MishapTables(sha: Sha, d: File, a: File, b: File) returns (t1: Table, t2: Table, t3: Table, t4: Table)
    requires CollisionFree(sha) && Namesakes(sha, d, a, b)
    ensures t1 == Apply(sha, map[], AddFiles([d])) && t2 == Apply(sha, t1, AddFiles([a]))
    ensures t3 == Apply(sha, t2, DeleteFiles(a.ownerId, [d.fileId, a.fileId], 9)) && t4 == Apply(sha, t3, AddFiles([b]))
    ensures t4 == map[d.fileId := Gone(d), a.fileId := Gone(a), b.fileId := b]
  {
    BothDeleted(sha, d, a, b);
    NamesakeAdded(sha, d, a, b);
    t1 := map[d.fileId := d];
    t2 := map[d.fileId := d, a.fileId := a];
    t3 := map[d.fileId := Gone(d), a.fileId := Gone(a)];
    t4 := map[d.fileId := Gone(d), a.fileId := Gone(a), b.fileId := b];
  }

  /** Such a run ends with two counted files of one name in the root. */
  lemma RestoreBreaksUniqueness(sha: Sha, steps: seq<Step>, d: File, a: File, b: File)
    requires CollisionFree(sha) && Namesakes(sha, d, a, b) && steps == Mishap(d, a, b)
    ensures !UniqueNames(Run(sha, map[], steps))
  {
    var t1, t2, t3, t4 := MishapTables(sha, d, a, b);
    RestoredBeside(sha, d, a, b);
    RunFive(sha, map[], steps, t1, t2, t3, t4);
    SharesName(Restore(t4, a.ownerId, [a.fileId]), a.fileId, b.fileId);
  }

  lemma SharesName(t: Table, a: string, b: string)
    requires a in t && b in t && a != b && Counted(t[a]) && Counted(t[b]) && SameName(t[a], t[b])
    ensures !UniqueNames(t)
  {
  }

  lemma RunFive(sha: Sha, t: Table, steps: seq<Step>, t1: Table, t2: Table, t3: Table, t4: Table)
    requires |steps| == 5 && t1 == Apply(sha, t, steps[0]) && t2 == Apply(sha, t1, steps[1])
    requires t3 == Apply(sha, t2, steps[2]) && t4 == Apply(sha, t3, steps[3])
    ensures Run(sha, t, steps) == Apply(sha, t4, steps[4])
  {
    RunCons(sha, t, steps);
    RunCons(sha, t1, steps[1..]);
    RunCons(sha, t2, steps[2..]);
    RunCons(sha, t3, steps[3..]);
    RunCons(sha, t4, steps[4..]);
    assert steps[1..][1..] == steps[2..] && steps[2..][1..] == steps[3..] && steps[3..][1..] == steps[4..];
    assert steps[4..][1..] == [];
  }

  lemma RunCons(sha: Sha, t: Table, steps: seq<Step>)
    requires |steps| > 0
    ensures Run(sha, t, steps) == Run(sha, Apply(sha, t, steps[0]), steps[1..])
  {
  }

  /** The index compares run-together text, so it is stricter than the names: with
      a collision-free hash a new file clashes with a row exactly when owner, name,
      extension and parent agree once run together. */
  lemma ClashIff(sha: Sha, f: File, g: File)
    requires CollisionFree(sha) && HashOk(sha, f) && HashOk(sha, g) && Counted(f) && Counted(g)
    ensures Clash(f, g) <==>
            f.ownerId + f.name + f.extension + f.parentId == g.ownerId + g.name + g.extension + g.parentId
  {
  }

  /** So `x.yz` is refused beside `xy.z`. */
  lemma DifferentNamesRefused(sha: Sha)
    ensures var f := NewFile(sha, "1", 0, "u", "xy", Regular, "z", 0, "", Pending);
            var g := NewFile(sha, "2", 0, "u", "x", Regular, "yz", 0, "", Pending);
            !SameName(f, g) && Insert(map["1" := f], [g]) == None
  {
    var f := NewFile(sha, "1", 0, "u", "xy", Regular, "z", 0, "", Pending);
    var g := NewFile(sha, "2", 0, "u", "x", Regular, "yz", 0, "", Pending);
    assert HashInput("u", "xy", "z", "") == "uxyz" == HashInput("u", "x", "yz", "");
    assert f.name != g.name by { assert |"xy"| != |"x"|; }
    var t: Table := map["1" := f];
    assert "1" in t && Clash(g, t["1"]);
    assert Rejected(t, g);
  }
}
