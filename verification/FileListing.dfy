/** Which folder listings the gateway answers, and where a row can be found in them. */
module FileListing {
  import opened Text
  import opened FileModel
  import opened FileTable
  import FileForest
  import Upload

  /** The gateway answers for the root and for rows of the account; this is a row it lists. */
  predicate ListedIn(t: Table, owner: string, folder: string, id: string) {
    (folder == "" || Owned(t, owner, folder)) && id in Listing(t, owner, folder)
  }

  /** The row lies in the root or in a row of its owner. */
  predicate Homed(t: Table, id: string) {
    id in t && (t[id].parentId == "" || Owned(t, t[id].ownerId, t[id].parentId))
  }

  ghost predicate AllHomed(t: Table) {
    forall id :: id in t ==> Homed(t, id)
  }

  /** A row is found in some answered listing exactly when it is live and homed, and then
      in one only. */
  lemma ListedIff(t: Table, owner: string, id: string)
    requires Owned(t, owner, id)
    ensures (exists folder :: ListedIn(t, owner, folder, id)) <==> Live(t, id) && Homed(t, id)
    ensures forall p, q :: ListedIn(t, owner, p, id) && ListedIn(t, owner, q, id) ==> p == q
    ensures forall folder :: ListedIn(t, owner, folder, id) ==> folder == t[id].parentId && t[id].deletedOn == None
  {
    if Live(t, id) && Homed(t, id) {
      assert ListedIn(t, owner, t[id].parentId, id);
    }
  }

  lemma OneMoreRow(files: seq<File>, ids: set<string>, t: Table, id: string)
    requires KeysMatch(t) && AnswerOf(files, ids, t) && id in t && id !in ids
    ensures AnswerOf(files + [t[id]], ids + {id}, t)
  {
    var all := files + [t[id]];
    forall k | k in ids + {id} ensures HasId(all, k) {
      if k == id {
        assert all[|files|].fileId == id;
      } else {
        var i :| 0 <= i < |files| && files[i].fileId == k;
        assert all[i].fileId == k;
      }
    }
  }

  /** SELECT: the live rows of the owner in the folder, each once. */
  method SelectRows(t: Table, owner: string, folder: string) returns (files: seq<File>)
    requires KeysMatch(t)
    ensures AnswerOf(files, Listing(t, owner, folder), t)
  {
    files := [];
    var left := t.Keys;
    ghost var done := {};
    while left != {}
      invariant left <= t.Keys && done == Listing(t, owner, folder) - left
      invariant AnswerOf(files, done, t)
      decreases |left|
    {
      var id :| id in left;
      left := left - {id};
      if t[id].ownerId == owner && t[id].parentId == folder && t[id].deletedOn == None {
        OneMoreRow(files, done, t, id);
        files := files + [t[id]];
        done := done + {id};
      }
    }
    assert done == Listing(t, owner, folder);
  }

  // --------------------------------------------------------------- over runs

  /** Every file is added to the root or to a row of its owner that exists by then. */
  ghost predicate HomedRows(t: Table, files: seq<File>)
    decreases |files|
  {
    |files| > 0 ==>
      (files[0].parentId == "" || Owned(t, files[0].ownerId, files[0].parentId)) && HomedRows(t[files[0].fileId := files[0]], files[1..])
  }

  ghost predicate HomedRun(sha: Sha, t: Table, steps: seq<Step>)
    decreases |steps|
  {
    |steps| > 0 ==>
      (steps[0].AddFiles? ==> HomedRows(t, steps[0].files)) && HomedRun(sha, Apply(sha, t, steps[0]), steps[1..])
  }

  lemma {:induction false} InsertKeepsHomed(t: Table, files: seq<File>)
    requires AllHomed(t) && FreshRows(t, files) && HomedRows(t, files) && Insert(t, files).Some?
    ensures AllHomed(Insert(t, files).value)
    decreases |files|
  {
    if |files| > 0 {
      var u := t[files[0].fileId := files[0]];
      forall id | id in u ensures Homed(u, id) {
        assert id in t ==> Homed(t, id);
      }
      InsertKeepsHomed(u, files[1..]);
    }
  }

  lemma UprootingKeepsHomed(t: Table, u: Table)
    requires AllHomed(t) && FileForest.OnlyUprooted(t, u) && Conserved(t, u)
    ensures AllHomed(u)
  {
    forall id | id in u ensures Homed(u, id) {
      assert Homed(t, id);
    }
  }

  lemma StepKeepsHomed(sha: Sha, t: Table, s: Step)
    requires AllHomed(t) && KeysMatch(t) && FreshStep(t, s) && (s.AddFiles? ==> HomedRows(t, s.files))
    ensures AllHomed(Apply(sha, t, s))
  {
    if s.AddFiles? {
      if Insert(t, s.files).Some? {
        InsertKeepsHomed(t, s.files);
      }
    } else {
      FileForest.StepUproots(sha, t, s);
      StepConserves(sha, t, s);
      UprootingKeepsHomed(t, Apply(sha, t, s));
    }
  }

  lemma {:induction false} RunKeepsHomed(sha: Sha, t: Table, steps: seq<Step>)
    requires AllHomed(t) && KeysMatch(t) && Indexed(t) && FreshRun(sha, t, steps) && HomedRun(sha, t, steps)
    ensures AllHomed(Run(sha, t, steps))
    decreases |steps|
  {
    if |steps| > 0 {
      StepKeepsHomed(sha, t, steps[0]);
      StepKeepsIndex(sha, t, steps[0]);
      RunKeepsHomed(sha, Apply(sha, t, steps[0]), steps[1..]);
    }
  }

  /** Over every run in which each add names the root or a row of the same owner, every
      row of an owner is in the bin or in exactly one listing that the gateway answers,
      and never in both. */
  lemma TrashOrOneListing(sha: Sha, steps: seq<Step>, owner: string, id: string)
    requires FreshRun(sha, map[], steps) && HomedRun(sha, map[], steps)
    ensures var t := Run(sha, map[], steps);
            Owned(t, owner, id) ==>
              && (id !in Trash(t, owner) <==> exists folder :: ListedIn(t, owner, folder, id))
              && forall p, q :: ListedIn(t, owner, p, id) && ListedIn(t, owner, q, id) ==> p == q
  {
    RunKeepsHomed(sha, map[], steps);
    var t := Run(sha, map[], steps);
    if Owned(t, owner, id) {
      ListedIff(t, owner, id);
    }
  }

  /** Nothing checks the parent of a new row: it can be found in a listing exactly when the
      client named the root or a row of the account. */
  lemma AddedListedIff(t: Table, f: File)
    requires Insert(t, [f]).Some? && f.deletedOn == None && f.fileId != f.parentId
    ensures (exists folder :: ListedIn(Insert(t, [f]).value, f.ownerId, folder, f.fileId))
       <==> f.parentId == "" || Owned(t, f.ownerId, f.parentId)
  {
    InsertOne(t, f);
    ListedIff(t[f.fileId := f], f.ownerId, f.fileId);
  }

  /** An upload. */
  lemma GeneratedListedIff(sha: Sha, s: Upload.Server, u: string, meta: Upload.Meta, account: string, fileId: string, now: int)
    requires Upload.Generate(sha, s, u, meta, account, fileId, now).1 == Upload.Accepted && fileId != meta.parentId
    ensures var t := Upload.Generate(sha, s, u, meta, account, fileId, now).0.rows;
            (exists folder :: ListedIn(t, account, folder, fileId)) <==> meta.parentId == "" || Owned(s.rows, account, meta.parentId)
  {
    AddedListedIff(s.rows, Upload.Entry(sha, meta, account, fileId, now));
  }

  /** PostAddFolder */
  function NewFolder(sha: Sha, id: string, now: int, account: string, name: string, parent: string): File {
    NewFile(sha, id, now, account, if name == "" then "New folder" else name, Dir, "", 0, parent, Completed)
  }

  /** A folder: the index never refuses it, so names of folders may repeat. The row bears
      the name asked for, or a default, and is completed from the start. */
  lemma FolderListedIff(sha: Sha, t: Table, id: string, now: int, account: string, name: string, parent: string)
    requires id !in t && id != parent
    ensures var added := Insert(t, [NewFolder(sha, id, now, account, name, parent)]);
            var title := if name == "" then "New folder" else name;
            && added.Some?
            && added.value == t[id := File(account, title, Dir, id, "", parent, "", 0, now, None, Completed, sha(account + title + parent))]
            && ((exists folder :: ListedIn(added.value, account, folder, id)) <==> parent == "" || Owned(t, account, parent))
  {
    var f := NewFolder(sha, id, now, account, name, parent);
    InsertOne(t, f);
    assert !Rejected(t, f);
    assert HashInput(account, f.name, "", parent) == account + f.name + parent by { assert account + f.name + "" == account + f.name; }
    AddedListedIff(t, f);
  }

  // ------------------------------------------------------- rows along a path

  /** The query for the path joins rows without looking at their owner: every row it gives
      belongs to the account exactly when each below the first lies in a row of its owner. */
  lemma OwnCrumbsIff(t: Table, owner: string, crumbs: seq<FileForest.Crumb>, folder: string)
    requires KeysMatch(t) && Owned(t, owner, folder) && FileForest.PathTo(t, crumbs, folder)
    ensures (forall i :: 0 <= i < |crumbs| ==> Owned(t, owner, crumbs[i].fileId))
       <==> forall i :: 1 <= i < |crumbs| ==> Homed(t, crumbs[i].fileId)
  {
    if forall i :: 1 <= i < |crumbs| ==> Homed(t, crumbs[i].fileId) {
      forall i | 0 <= i < |crumbs| ensures Owned(t, owner, crumbs[i].fileId) {
        HomedPathIsOwn(t, owner, crumbs, folder, i);
      }
    }
    if forall i :: 0 <= i < |crumbs| ==> Owned(t, owner, crumbs[i].fileId) {
      forall i | 1 <= i < |crumbs| ensures Homed(t, crumbs[i].fileId) {
        assert crumbs[i - 1].fileId == crumbs[i].parentId == t[crumbs[i].fileId].parentId;
        assert Owned(t, owner, crumbs[i - 1].fileId) && Owned(t, owner, crumbs[i].fileId);
      }
    }
  }

  lemma {:induction false} HomedPathIsOwn(t: Table, owner: string, crumbs: seq<FileForest.Crumb>, folder: string, i: nat)
    requires KeysMatch(t) && Owned(t, owner, folder) && FileForest.PathTo(t, crumbs, folder) && i < |crumbs|
    requires forall k :: 1 <= k < |crumbs| ==> Homed(t, crumbs[k].fileId)
    ensures Owned(t, owner, crumbs[i].fileId)
    decreases |crumbs| - i
  {
    if i < |crumbs| - 1 {
      HomedPathIsOwn(t, owner, crumbs, folder, i + 1);
      assert crumbs[i].fileId == crumbs[i + 1].parentId && crumbs[i].fileId in t;
      assert Homed(t, crumbs[i + 1].fileId);
    }
  }

  /** Over every run in which each add names the root or a row of the same owner, a path
      shows rows of the account only. */
  lemma RunCrumbsAreOwn(sha: Sha, steps: seq<Step>, owner: string, crumbs: seq<FileForest.Crumb>, folder: string)
    requires FreshRun(sha, map[], steps) && HomedRun(sha, map[], steps)
    requires var t := Run(sha, map[], steps); Owned(t, owner, folder) && FileForest.PathTo(t, crumbs, folder)
    ensures forall i :: 0 <= i < |crumbs| ==> Owned(Run(sha, map[], steps), owner, crumbs[i].fileId)
  {
    RunKeepsHomed(sha, map[], steps);
    RunKeepsIndex(sha, map[], steps);
    OwnCrumbsIff(Run(sha, map[], steps), owner, crumbs, folder);
  }

  /** Otherwise it need not: a folder added to a folder of another account shows it. */
  lemma ForeignCrumb(sha: Sha, t: Table, id: string, now: int, account: string, name: string, parent: string, crumbs: seq<FileForest.Crumb>)
    requires KeysMatch(t) && id !in t && id != "" && parent in t && t[parent].ownerId != account
    requires var u := t[id := NewFolder(sha, id, now, account, name, parent)]; FileForest.PathTo(u, crumbs, id)
    ensures |crumbs| > 1 && crumbs[|crumbs| - 2].fileId == parent
  {
    var u := t[id := NewFolder(sha, id, now, account, name, parent)];
    var last := crumbs[|crumbs| - 1];
    assert last == FileForest.CrumbOf(u[id]) && last.parentId == parent;
    assert parent in u;
  }
}
