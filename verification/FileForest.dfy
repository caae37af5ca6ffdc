/** The parent relation of the File table stays a forest over every run, so the
    recursive breadcrumb query ends and lists a path from the root. */
module FileForest {
  import opened Text
  import opened FileModel
  import opened FileTable
  import FileOutcomes

  /** A rank that falls from every row to its parent row. */
  type Rank = map<string, nat>

  ghost predicate Ranked(t: Table, rank: Rank) {
    && t.Keys <= rank.Keys
    && (forall id :: id in t && t[id].parentId in t ==> rank[t[id].parentId] < rank[id])
  }

  ghost predicate Acyclic(t: Table) {
    exists rank :: Ranked(t, rank)
  }

  /** Each row is in the root or in an existing row, deleted or not. */
  ghost predicate Rooted(t: Table) {
    forall id :: id in t ==> t[id].parentId == "" || t[id].parentId in t
  }

  // ----------------------------------------------------- what each step keeps

  lemma InsertKeepsAcyclic(t: Table, f: File)
    requires Acyclic(t) && FreshRow(t, f)
    ensures Acyclic(t[f.fileId := f])
  {
    var rank :| Ranked(t, rank);
    var u := t[f.fileId := f];
    var above := if f.parentId in t then rank[f.parentId] + 1 else 0;
    assert Ranked(u, rank[f.fileId := above]);
  }

  lemma {:induction false} InsertsKeepAcyclic(t: Table, files: seq<File>)
    requires Acyclic(t) && FreshRows(t, files) && Insert(t, files).Some?
    ensures Acyclic(Insert(t, files).value)
    decreases |files|
  {
    if |files| > 0 {
      InsertKeepsAcyclic(t, files[0]);
      InsertsKeepAcyclic(t[files[0].fileId := files[0]], files[1..]);
    }
  }

  /** Same rows, and each parent as before or now the root. */
  ghost predicate OnlyUprooted(t: Table, u: Table) {
    u.Keys == t.Keys && forall id :: id in t ==> u[id].parentId == t[id].parentId || u[id].parentId == ""
  }

  lemma UprootingKeepsAcyclic(t: Table, u: Table)
    requires Acyclic(t) && OnlyUprooted(t, u) && "" !in t
    ensures Acyclic(u)
  {
    var rank :| Ranked(t, rank);
    assert Ranked(u, rank);
  }

  lemma StepUproots(sha: Sha, t: Table, s: Step)
    requires KeysMatch(t) && !s.AddFiles?
    ensures OnlyUprooted(t, Apply(sha, t, s))
  {
  }

  lemma StepKeepsAcyclic(sha: Sha, t: Table, s: Step)
    requires Acyclic(t) && KeysMatch(t) && FreshStep(t, s)
    ensures Acyclic(Apply(sha, t, s))
  {
    if s.AddFiles? {
      if Insert(t, s.files).Some? {
        InsertsKeepAcyclic(t, s.files);
      }
    } else {
      StepUproots(sha, t, s);
      UprootingKeepsAcyclic(t, Apply(sha, t, s));
    }
  }

  /** Over every run the parent relation has no cycle. */
  lemma {:induction false} RunKeepsAcyclic(sha: Sha, t: Table, steps: seq<Step>)
    requires Acyclic(t) && KeysMatch(t) && Indexed(t) && FreshRun(sha, t, steps)
    ensures Acyclic(Run(sha, t, steps))
    decreases |steps|
  {
    if |steps| > 0 {
      StepKeepsAcyclic(sha, t, steps[0]);
      StepKeepsIndex(sha, t, steps[0]);
      RunKeepsAcyclic(sha, Apply(sha, t, steps[0]), steps[1..]);
    }
  }

  /** Every file is added to the root or to a row that exists by then. */
  ghost predicate PlacedRows(t: Table, files: seq<File>)
    decreases |files|
  {
    |files| > 0 ==>
      (files[0].parentId == "" || files[0].parentId in t) && PlacedRows(t[files[0].fileId := files[0]], files[1..])
  }

  ghost predicate PlacedRun(sha: Sha, t: Table, steps: seq<Step>)
    decreases |steps|
  {
    |steps| > 0 ==>
      (steps[0].AddFiles? ==> PlacedRows(t, steps[0].files)) && PlacedRun(sha, Apply(sha, t, steps[0]), steps[1..])
  }

  lemma {:induction false} InsertsKeepRooted(t: Table, files: seq<File>)
    requires Rooted(t) && FreshRows(t, files) && PlacedRows(t, files) && Insert(t, files).Some?
    ensures Rooted(Insert(t, files).value)
    decreases |files|
  {
    if |files| > 0 {
      InsertsKeepRooted(t[files[0].fileId := files[0]], files[1..]);
    }
  }

  lemma StepKeepsRooted(sha: Sha, t: Table, s: Step)
    requires Rooted(t) && KeysMatch(t) && FreshStep(t, s) && (s.AddFiles? ==> PlacedRows(t, s.files))
    ensures Rooted(Apply(sha, t, s))
  {
    if s.AddFiles? {
      if Insert(t, s.files).Some? {
        InsertsKeepRooted(t, s.files);
      }
    } else {
      StepUproots(sha, t, s);
    }
  }

  lemma {:induction false} RunKeepsRooted(sha: Sha, t: Table, steps: seq<Step>)
    requires Rooted(t) && KeysMatch(t) && Indexed(t) && FreshRun(sha, t, steps) && PlacedRun(sha, t, steps)
    ensures Rooted(Run(sha, t, steps))
    decreases |steps|
  {
    if |steps| > 0 {
      StepKeepsRooted(sha, t, steps[0]);
      StepKeepsIndex(sha, t, steps[0]);
      RunKeepsRooted(sha, Apply(sha, t, steps[0]), steps[1..]);
    }
  }

  /** From the empty table, over every run with fresh ids. */
  lemma FromEmpty(sha: Sha, steps: seq<Step>)
    requires FreshRun(sha, map[], steps)
    ensures var t := Run(sha, map[], steps);
            Acyclic(t) && KeysMatch(t) && Indexed(t) && (PlacedRun(sha, map[], steps) ==> Rooted(t))
  {
    var none: Table := map[];
    assert Ranked(none, map[]);
    RunKeepsAcyclic(sha, none, steps);
    RunKeepsIndex(sha, none, steps);
    if PlacedRun(sha, none, steps) {
      RunKeepsRooted(sha, none, steps);
    }
  }

  // ------------------------------------------------------------- breadcrumbs

  datatype Crumb = Crumb(fileId: string, parentId: string, name: string)

  function CrumbOf(f: File): Crumb {
    Crumb(f.fileId, f.parentId, f.name)
  }

  /** Rows in generation order: each is the row its predecessor names as parent,
      whoever owns it and whatever its type. */
  ghost predicate Climbs(t: Table, cs: seq<Crumb>) {
    (forall i :: 0 <= i < |cs| ==> cs[i].fileId in t && cs[i] == CrumbOf(t[cs[i].fileId]))
    && forall i :: 0 <= i < |cs| - 1 ==> cs[i + 1].fileId == cs[i].parentId
  }

  /** Along a climb the rank falls, so no row occurs twice. */
  lemma {:induction false} ClimbFalls(t: Table, rank: Rank, cs: seq<Crumb>, i: nat, j: nat)
    requires Ranked(t, rank) && Climbs(t, cs) && i < j < |cs|
    ensures rank[cs[j].fileId] < rank[cs[i].fileId]
    decreases j - i
  {
    assert cs[j].fileId == cs[j - 1].parentId;
    assert cs[j - 1] == CrumbOf(t[cs[j - 1].fileId]);
    if i + 1 < j {
      ClimbFalls(t, rank, cs, i, j - 1);
    }
  }

  lemma NoRepeats(t: Table, cs: seq<Crumb>)
    requires Acyclic(t) && Climbs(t, cs)
    ensures forall i, j :: 0 <= i < j < |cs| ==> cs[i].fileId != cs[j].fileId
  {
    var rank :| Ranked(t, rank);
    forall i, j | 0 <= i < j < |cs| ensures cs[i].fileId != cs[j].fileId {
      ClimbFalls(t, rank, cs, i, j);
    }
  }

  /** A climb that returns to where it began would be a cycle: there is none. */
  lemma NoCycle(t: Table, cs: seq<Crumb>)
    requires Acyclic(t) && Climbs(t, cs) && |cs| > 0
    ensures cs[|cs| - 1].parentId != cs[0].fileId
  {
    var rank :| Ranked(t, rank);
    if |cs| > 1 {
      ClimbFalls(t, rank, cs, 0, |cs| - 1);
    }
  }

  function Reversed<T>(s: seq<T>): (r: seq<T>)
    ensures |r| == |s|
    ensures forall i :: 0 <= i < |s| ==> r[i] == s[|s| - 1 - i]
  {
    seq(|s|, i requires 0 <= i < |s| => s[|s| - 1 - i])
  }

  method ReverseInPlace<T>(a: array<T>)
    modifies a
    ensures a[..] == Reversed(old(a[..]))
  {
    var n, i := a.Length, 0;
    while i < n / 2
      invariant 0 <= i <= n / 2
      invariant forall k :: 0 <= k < i || n - i <= k < n ==> a[k] == old(a[n - 1 - k])
      invariant forall k :: i <= k < n - i ==> a[k] == old(a[k])
    {
      a[i], a[n - 1 - i] := a[n - 1 - i], a[i];
      i := i + 1;
    }
  }

  /** The entry names the row and its parent as they are. */
  predicate Shows(c: Crumb, f: File) {
    c.name == f.name && c.parentId == f.parentId
  }

  /** What a caller may rely on: a path down to the asked folder. */
  ghost predicate PathTo(t: Table, cs: seq<Crumb>, folder: string) {
    && |cs| > 0 && cs[|cs| - 1].fileId == folder
    && (forall i :: 0 <= i < |cs| ==> cs[i].fileId in t && Shows(cs[i], t[cs[i].fileId]))
    && (forall i :: 0 <= i < |cs| - 1 ==> cs[i].fileId == cs[i + 1].parentId)
    && (forall i, j :: 0 <= i < j < |cs| ==> cs[i].fileId != cs[j].fileId)
    && cs[0].parentId !in t
  }

  /** The recursive query and the reversal. Empty when the folder is not a
      directory of this account. */
  method GetBreadcrumbs(t: Table, owner: string, folder: string) returns (crumbs: seq<Crumb>)
    requires Acyclic(t) && KeysMatch(t)
    ensures Owned(t, owner, folder) && t[folder].fileType == Dir ==> PathTo(t, crumbs, folder)
    ensures !(Owned(t, owner, folder) && t[folder].fileType == Dir) ==> crumbs == []
    ensures Rooted(t) && |crumbs| > 0 ==> crumbs[0].parentId == ""
  {
    if !(Owned(t, owner, folder) && t[folder].fileType == Dir) {
      return [];
    }
    ghost var rank :| Ranked(t, rank);
    var rows := [CrumbOf(t[folder])];
    var parent := t[folder].parentId;
    while parent in t
      invariant |rows| > 0 && rows[0].fileId == folder && Climbs(t, rows)
      invariant parent == rows[|rows| - 1].parentId
      decreases rank[rows[|rows| - 1].fileId]
    {
      rows := rows + [CrumbOf(t[parent])];
      parent := t[parent].parentId;
    }
    NoRepeats(t, rows);
    var files := new Crumb[|rows|](i requires 0 <= i < |rows| => rows[i]);
    assert files[..] == rows;
    ReverseInPlace(files);
    crumbs := files[..];
  }

  /** Counted from the asked folder upwards, two paths to it through tables with the same
      parents are through the same rows. */
  lemma {:induction false} PathsAgree(t: Table, u: Table, cs: seq<Crumb>, ds: seq<Crumb>, folder: string, k: nat)
    requires PathTo(t, cs, folder) && PathTo(u, ds, folder) && SameParents(t, u) && k < |cs| && k < |ds|
    ensures cs[|cs| - 1 - k].fileId == ds[|ds| - 1 - k].fileId && cs[|cs| - 1 - k].parentId == ds[|ds| - 1 - k].parentId
  {
    if k > 0 {
      PathsAgree(t, u, cs, ds, folder, k - 1);
      assert cs[|cs| - 1 - k].fileId == cs[|cs| - k].parentId && ds[|ds| - 1 - k].fileId == ds[|ds| - k].parentId;
    }
    assert Shows(cs[|cs| - 1 - k], t[cs[|cs| - 1 - k].fileId]) && Shows(ds[|ds| - 1 - k], u[ds[|ds| - 1 - k].fileId]);
  }

  ghost predicate SameParents(t: Table, u: Table) {
    t.Keys == u.Keys && forall id :: id in t ==> u[id].parentId == t[id].parentId
  }

  lemma ParentIsRow(t: Table, cs: seq<Crumb>, folder: string, k: nat)
    requires PathTo(t, cs, folder) && k + 1 < |cs|
    ensures cs[|cs| - 1 - k].parentId in t
  {
    assert cs[|cs| - 2 - k].fileId == cs[|cs| - 1 - k].parentId;
  }

  lemma PathsAreLong(t: Table, u: Table, cs: seq<Crumb>, ds: seq<Crumb>, folder: string)
    requires PathTo(t, cs, folder) && PathTo(u, ds, folder) && SameParents(t, u)
    ensures |cs| >= |ds|
  {
    if |cs| < |ds| {
      ParentIsRow(u, ds, folder, |cs| - 1);
      PathsAgree(t, u, cs, ds, folder, |cs| - 1);
    }
  }

  /** After an accepted rename every path through the row shows the new name there, and is
      otherwise the path before. */
  lemma RenameShowsInPath(sha: Sha, t: Table, owner: string, id: string, newName: string, now: int,
                          cs: seq<Crumb>, ds: seq<Crumb>, folder: string)
    requires KeysMatch(t) && Owned(t, owner, id) && Rename(sha, t, owner, id, newName, now).Some?
    requires PathTo(t, cs, folder) && PathTo(Apply(sha, t, RenameFile(owner, id, newName, now)), ds, folder)
    ensures |ds| == |cs|
    ensures forall i :: 0 <= i < |cs| ==>
              ds[i] == Crumb(cs[i].fileId, cs[i].parentId, if cs[i].fileId == id then newName else cs[i].name)
  {
    var u := Apply(sha, t, RenameFile(owner, id, newName, now));
    FileOutcomes.RenameOutcome(sha, t, owner, id, newName, now);
    PathsAreLong(t, u, cs, ds, folder);
    PathsAreLong(u, t, ds, cs, folder);
    forall i | 0 <= i < |cs|
      ensures ds[i] == Crumb(cs[i].fileId, cs[i].parentId, if cs[i].fileId == id then newName else cs[i].name)
    {
      PathsAgree(t, u, cs, ds, folder, |cs| - 1 - i);
      assert Shows(cs[i], t[cs[i].fileId]) && Shows(ds[i], u[ds[i].fileId]);
    }
  }
}
