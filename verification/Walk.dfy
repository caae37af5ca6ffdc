/** Walking a directory tree into a flat list of records that point to their
    parents, and rebuilding the tree from that list alone. */
module Walk {
  import opened Text
  import opened FileModel

  /** What is on the disk. Children are in the order the walk visits them. */
  datatype Entry = FileE(name: string, size: int) | DirE(name: string, size: int, children: seq<Entry>)

  /** Names are not empty and have no separator; siblings differ. */
  predicate Proper(e: Entry)
    decreases e
  {
    ProperName(e.name) && (e.DirE? ==> ProperAll(e.children))
  }

  predicate ProperAll(es: seq<Entry>)
    decreases es
  {
    (forall i :: 0 <= i < |es| ==> Proper(es[i]))
    && forall i, j :: 0 <= i < j < |es| ==> es[i].name != es[j].name
  }

  predicate ProperName(s: string) {
    |s| > 0 && '/' !in s
  }

  function Weight(e: Entry): nat
    decreases e
  {
    if e.DirE? then 1 + WeightAll(e.children) else 1
  }

  function WeightAll(es: seq<Entry>): nat
    decreases es
  {
    if |es| == 0 then 0 else Weight(es[0]) + WeightAll(es[1..])
  }

  // ------------------------------------------------------------------- paths

  /** filepath.Join on a clean directory path. */
  function JoinPath(dir: string, name: string): string {
    dir + "/" + name
  }

  function LastSlash(p: string): int
    ensures -1 <= LastSlash(p) < |p|
  {
    if |p| == 0 then -1 else if p[|p| - 1] == '/' then |p| - 1 else LastSlash(p[..|p| - 1])
  }

  /** filepath.Dir on a clean path. */
  function DirOf(p: string): string {
    var i := LastSlash(p);
    if i < 0 then "." else if i == 0 then "/" else p[..i]
  }

  /** filepath.Base on a clean path. */
  function BaseOf(p: string): string {
    if p == "/" then "/" else p[LastSlash(p) + 1..]
  }

  /** filepath.Ext: from the last dot after the last separator. */
  function ExtOf(p: string): string {
    if |p| == 0 || p[|p| - 1] == '/' then ""
    else if p[|p| - 1] == '.' then "."
    else
      var front := ExtOf(p[..|p| - 1]);
      if front == "" then "" else front + [p[|p| - 1]]
  }

  lemma {:induction false} LastSlashJoin(dir: string, name: string)
    requires '/' !in name
    ensures LastSlash(dir + "/" + name) == |dir|
  {
    var p := dir + "/" + name;
    if |name| > 0 {
      assert p[..|p| - 1] == dir + "/" + name[..|name| - 1];
      LastSlashJoin(dir, name[..|name| - 1]);
    }
  }

  lemma BaseJoin(dir: string, name: string)
    requires ProperName(name)
    ensures BaseOf(JoinPath(dir, name)) == name
  {
    LastSlashJoin(dir, name);
    assert |JoinPath(dir, name)| > 1;
  }

  lemma DirJoin(dir: string, name: string)
    requires |dir| > 0 && ProperName(name)
    ensures DirOf(JoinPath(dir, name)) == dir
  {
    LastSlashJoin(dir, name);
  }

  /** k is p or lies below it. */
  predicate Under(k: string, p: string) {
    p <= k && (|k| == |p| || k[|p|] == '/')
  }

  function UntilSlash(s: string): string {
    if |s| == 0 || s[0] == '/' then "" else [s[0]] + UntilSlash(s[1..])
  }

  lemma {:induction false} UntilSlashOf(name: string, s: string)
    requires '/' !in name && name <= s && (|s| == |name| || s[|name|] == '/')
    ensures UntilSlash(s) == name
  {
    if |name| > 0 {
      assert s[0] == name[0];
      UntilSlashOf(name[1..], s[1..]);
      assert name == [name[0]] + name[1..];
    }
  }

  /** The name of the child of `dir` that a path is below can be read off the path,
      so no path is below two different siblings. */
  lemma ChildName(k: string, dir: string, name: string)
    requires ProperName(name) && Under(k, JoinPath(dir, name))
    ensures UntilSlash(k[|dir| + 1..]) == name
  {
    var p := JoinPath(dir, name);
    assert p[|dir| + 1..] == name;
    assert k[|dir| + 1..][..|name|] == k[..|p|][|dir| + 1..];
    UntilSlashOf(name, k[|dir| + 1..]);
  }

  lemma UnderChild(k: string, dir: string, name: string)
    requires Under(k, JoinPath(dir, name))
    ensures Under(k, dir) && k != dir
  {
    assert k[|dir|] == JoinPath(dir, name)[|dir|] == '/';
    assert dir == JoinPath(dir, name)[..|dir|] == k[..|dir|];
  }

  // ---------------------------------------------------------- flat list, spec

  /** A source of fresh ids: ids never repeat and are not empty. */
  type Ids = nat -> string

  ghost predicate FreshIds(ids: Ids) {
    (forall i :: ids(i) != "") && forall i, j :: ids(i) == ids(j) ==> i == j
  }

  /** The record of one entry; two ids are drawn, the second is overwritten. */
  function Record(sha: Sha, now: int, account: string, e: Entry, path: string, parent: string, id: string): File {
    NewFile(sha, id, now, account, e.name, if e.DirE? then Dir else Regular, ExtOf(path), e.size, parent, Pending)
      .(path := account + "/" + id)
  }

  function Flat(sha: Sha, now: int, account: string, ids: Ids, e: Entry, path: string, parent: string, n: nat): seq<File>
    decreases e
  {
    [Record(sha, now, account, e, path, parent, ids(n))]
    + (if e.DirE? then FlatAll(sha, now, account, ids, e.children, path, ids(n), n + 2) else [])
  }

  function FlatAll(sha: Sha, now: int, account: string, ids: Ids, es: seq<Entry>, dir: string, parent: string, n: nat): seq<File>
    decreases es
  {
    if |es| == 0 then []
    else
      Flat(sha, now, account, ids, es[0], JoinPath(dir, es[0].name), parent, n)
      + FlatAll(sha, now, account, ids, es[1..], dir, parent, n + 2 * Weight(es[0]))
  }

  lemma FlatDir(sha: Sha, now: int, account: string, ids: Ids, e: Entry, path: string, parent: string, n: nat, before: seq<File>)
    requires e.DirE?
    ensures before + [Record(sha, now, account, e, path, parent, ids(n))]
                   + FlatAll(sha, now, account, ids, e.children, path, ids(n), n + 2)
         == before + Flat(sha, now, account, ids, e, path, parent, n)
  {
    Regroup(before, [Record(sha, now, account, e, path, parent, ids(n))],
            FlatAll(sha, now, account, ids, e.children, path, ids(n), n + 2));
  }

  // -------------------------------------------------------- the folder table

  /** No key at p or below. */
  ghost predicate Clear(keys: set<string>, p: string) {
    forall k :: k in keys ==> !Under(k, p)
  }

  /** No key below p. */
  ghost predicate ClearBelow(keys: set<string>, p: string) {
    forall k :: k in keys && Under(k, p) ==> k == p
  }

  ghost predicate NewUnder(keys: set<string>, more: set<string>, p: string) {
    keys <= more && forall k :: k in more && k !in keys ==> Under(k, p)
  }

  /** Keys below dir belong to one of the first i children. */
  ghost predicate Visited(keys: set<string>, dir: string, children: seq<Entry>, i: nat) {
    forall k :: k in keys && Under(k, dir) && k != dir ==> IsChildName(UntilSlash(k[|dir| + 1..]), children, i)
  }

  predicate IsChildName(name: string, children: seq<Entry>, i: nat) {
    exists j :: 0 <= j < i <= |children| && name == children[j].name
  }

  lemma VisitFresh(keys: set<string>, p: string)
    requires Clear(keys, p)
    ensures ClearBelow(keys + {p}, p) && NewUnder(keys, keys + {p}, p)
  {
  }

  lemma NewUnderTwice(keys: set<string>, more: set<string>, most: set<string>, p: string)
    requires NewUnder(keys, more, p) && NewUnder(more, most, p)
    ensures NewUnder(keys, most, p)
  {
  }

  lemma NextClear(keys: set<string>, dir: string, children: seq<Entry>, i: nat)
    requires ProperAll(children) && i < |children| && Visited(keys, dir, children, i)
    ensures Clear(keys, JoinPath(dir, children[i].name))
  {
    forall k | k in keys ensures !Under(k, JoinPath(dir, children[i].name)) {
      if Under(k, JoinPath(dir, children[i].name)) {
        assert Proper(children[i]);
        UnderChild(k, dir, children[i].name);
        ChildName(k, dir, children[i].name);
      }
    }
  }

  lemma VisitedNext(keys: set<string>, more: set<string>, dir: string, children: seq<Entry>, i: nat)
    requires ProperAll(children) && i < |children| && Visited(keys, dir, children, i)
    requires NewUnder(keys, more, JoinPath(dir, children[i].name))
    ensures Visited(more, dir, children, i + 1) && NewUnder(keys, more, dir)
  {
    assert Proper(children[i]);
    forall k | k in more && k !in keys ensures Under(k, dir) {
      UnderChild(k, dir, children[i].name);
    }
    forall k | k in more && Under(k, dir) && k != dir
      ensures IsChildName(UntilSlash(k[|dir| + 1..]), children, i + 1)
    {
      if k !in keys {
        ChildName(k, dir, children[i].name);
      }
    }
  }

  // ------------------------------------------------------- the walk, imperative

  class Walker {
    const root: string
    const account: string
    const sha: Sha
    const now: int
    const ids: Ids
    var folderIds: map<string, string>
    var files: seq<File>
    var drawn: nat

    constructor (root: string, account: string, sha: Sha, now: int, ids: Ids)
      ensures this.root == root && this.account == account && this.sha == sha && this.now == now && this.ids == ids
      ensures folderIds == map[root := ""] && files == [] && drawn == 0
    {
      this.root, this.account, this.sha, this.now, this.ids := root, account, sha, now, ids;
      folderIds, files, drawn := map[root := ""], [], 0;
    }

    method NewId() returns (id: string)
      modifies this`drawn
      ensures id == ids(old(drawn)) && drawn == old(drawn) + 1
    {
      id := ids(drawn);
      drawn := drawn + 1;
    }

    /** The callback for one visited path. */
    method Visit(p: string, e: Entry)
      modifies this
      ensures p == root ==> files == old(files) && folderIds == old(folderIds) && drawn == old(drawn) + 1
      ensures p != root ==>
                var parent := if DirOf(p) in folderIds then folderIds[DirOf(p)] else "";
                files == old(files) + [Record(sha, now, account, e, p, parent, ids(old(drawn)))]
                && drawn == old(drawn) + 2
                && folderIds == if e.DirE? && p !in old(folderIds) then old(folderIds)[p := ids(old(drawn))]
                                else old(folderIds)
    {
      var id := NewId();
      if p != root {
        var fileType := Regular;
        var parentId := "";
        var parent := DirOf(p);
        if e.DirE? {
          fileType := Dir;
          if p !in folderIds {
            folderIds := folderIds[p := id];
          }
        }
        if parent in folderIds {
          parentId := folderIds[parent];
        }
        var overwritten := NewId();
        var f := NewFile(sha, overwritten, now, account, e.name, fileType, ExtOf(p), e.size, parentId, Pending);
        f := f.(fileId := id, path := account + "/" + id);
        files := files + [f];
      }
    }

    /** The old entries of the folder table are untouched. */
    twostate predicate TableKept()
      reads this
    {
      old(folderIds).Keys <= folderIds.Keys
      && forall k :: k in old(folderIds) ==> folderIds[k] == old(folderIds)[k]
    }

    /** Visiting a child: its directory's id is found in the table. */
    method VisitChild(p: string, e: Entry, ghost dir: string)
      requires Proper(e) && |dir| > 0 && p == JoinPath(dir, e.name) && root <= dir
      requires dir in folderIds && Clear(folderIds.Keys, p)
      modifies this
      ensures files == old(files) + [Record(sha, now, account, e, p, old(folderIds)[dir], ids(old(drawn)))]
      ensures drawn == old(drawn) + 2
      ensures folderIds == if e.DirE? then old(folderIds)[p := ids(old(drawn))] else old(folderIds)
      ensures TableKept() && ClearBelow(folderIds.Keys, p) && NewUnder(old(folderIds).Keys, folderIds.Keys, p)
    {
      DirJoin(dir, e.name);
      VisitFresh(folderIds.Keys, p);
      assert p !in folderIds by { assert Under(p, p); }
      ghost var keys := folderIds.Keys;
      Visit(p, e);
      assert folderIds.Keys == if e.DirE? then keys + {p} else keys;
    }

    /** filepath.Walk below a path other than the root. */
    method WalkEntry(p: string, e: Entry, ghost dir: string)
      requires Proper(e) && |dir| > 0 && p == JoinPath(dir, e.name) && root <= dir
      requires dir in folderIds && Clear(folderIds.Keys, p)
      modifies this
      ensures files == old(files) + Flat(sha, now, account, ids, e, p, old(folderIds)[dir], old(drawn))
      ensures drawn == old(drawn) + 2 * Weight(e)
      ensures TableKept() && NewUnder(old(folderIds).Keys, folderIds.Keys, p)
      decreases e, 1
    {
      ghost var before, n, parent, keys := files, drawn, folderIds[dir], folderIds.Keys;
      VisitChild(p, e, dir);
      if e.DirE? {
        ghost var visited := folderIds.Keys;
        BelowRoot(root, dir, e.name);
        WalkChildren(p, e.children);
        FlatDir(sha, now, account, ids, e, p, parent, n, before);
        NewUnderTwice(keys, visited, folderIds.Keys, p);
      }
    }

    lemma BelowRoot(root: string, dir: string, name: string)
      requires root <= dir
      ensures root <= JoinPath(dir, name)
    {
      assert dir <= JoinPath(dir, name);
    }

    method WalkChildren(dir: string, children: seq<Entry>)
      requires ProperAll(children) && |dir| > 0 && dir in folderIds && ClearBelow(folderIds.Keys, dir)
      requires root <= dir
      modifies this
      ensures files == old(files) + FlatAll(sha, now, account, ids, children, dir, old(folderIds)[dir], old(drawn))
      ensures drawn == old(drawn) + 2 * WeightAll(children)
      ensures TableKept() && NewUnder(old(folderIds).Keys, folderIds.Keys, dir)
      decreases children, 1
    {
      ghost var parent, first := folderIds[dir], drawn;
      for i := 0 to |children|
        invariant TableKept() && NewUnder(old(folderIds).Keys, folderIds.Keys, dir)
        invariant Visited(folderIds.Keys, dir, children, i)
        invariant drawn + 2 * WeightAll(children[i..]) == first + 2 * WeightAll(children)
        invariant files + FlatAll(sha, now, account, ids, children[i..], dir, parent, drawn)
               == old(files) + FlatAll(sha, now, account, ids, children, dir, parent, first)
      {
        WalkNext(dir, children, i, parent);
      }
      assert children[|children|..] == [] && files + [] == files;
    }

    /** One child of a directory. */
    method WalkNext(dir: string, children: seq<Entry>, i: nat, ghost parent: string)
      requires i < |children| && ProperAll(children) && |dir| > 0 && dir in folderIds && folderIds[dir] == parent
      requires root <= dir && Visited(folderIds.Keys, dir, children, i)
      modifies this
      ensures TableKept() && NewUnder(old(folderIds).Keys, folderIds.Keys, dir)
      ensures Visited(folderIds.Keys, dir, children, i + 1)
      ensures drawn + 2 * WeightAll(children[i + 1..]) == old(drawn) + 2 * WeightAll(children[i..])
      ensures files + FlatAll(sha, now, account, ids, children[i + 1..], dir, parent, drawn)
           == old(files) + FlatAll(sha, now, account, ids, children[i..], dir, parent, old(drawn))
      decreases children, 0
    {
      ghost var was, keys, n := files, folderIds.Keys, drawn;
      var p := JoinPath(dir, children[i].name);
      NextClear(keys, dir, children, i);
      assert Proper(children[i]);
      WalkEntry(p, children[i], dir);
      VisitedNext(keys, folderIds.Keys, dir, children, i);
      assert children[i..][1..] == children[i + 1..];
      Regroup(was, Flat(sha, now, account, ids, children[i], p, parent, n),
              FlatAll(sha, now, account, ids, children[i + 1..], dir, parent, drawn));
    }
  }

  // ------------------------------------------------------------- rebuilding

  /** The entries whose parent is `parent`, each with its own entries; an entry's
      children come after it in the list. */
  function Rebuild(fs: seq<File>, parent: string): seq<Entry>
    decreases |fs|
  {
    if |fs| == 0 then []
    else
      (if fs[0].parentId != parent then []
       else if fs[0].fileType == Dir then [DirE(fs[0].name, fs[0].size, Rebuild(fs[1..], fs[0].fileId))]
       else [FileE(fs[0].name, fs[0].size)])
      + Rebuild(fs[1..], parent)
  }

  /** No record names the id of draw lo, …, hi - 1 as its parent. */
  ghost predicate NoParentIn(fs: seq<File>, ids: Ids, lo: nat, hi: nat) {
    forall f, j :: f in fs && lo <= j < hi ==> f.parentId != ids(j)
  }

  /** q is not the id of draw lo, …, hi - 1. */
  ghost predicate NotDrawn(q: string, ids: Ids, lo: nat, hi: nat) {
    forall j :: lo <= j < hi ==> q != ids(j)
  }

  /** A record's parent is the given one or an id drawn for the segment. */
  ghost predicate ParentsWithin(fs: seq<File>, ids: Ids, parent: string, lo: nat, hi: nat) {
    forall f :: f in fs ==> f.parentId == parent || exists j :: lo <= j < hi && f.parentId == ids(j)
  }

  lemma {:induction false} FlatParents(sha: Sha, now: int, account: string, ids: Ids, e: Entry, path: string, parent: string, n: nat)
    ensures ParentsWithin(Flat(sha, now, account, ids, e, path, parent, n), ids, parent, n, n + 2 * Weight(e))
    decreases e
  {
    if e.DirE? {
      FlatAllParents(sha, now, account, ids, e.children, path, ids(n), n + 2);
      var inner := FlatAll(sha, now, account, ids, e.children, path, ids(n), n + 2);
      forall f | f in inner ensures exists j :: n <= j < n + 2 * Weight(e) && f.parentId == ids(j) {
        if f.parentId != ids(n) {
          var j :| n + 2 <= j < n + 2 + 2 * WeightAll(e.children) && f.parentId == ids(j);
        }
      }
    }
  }

  lemma {:induction false} FlatAllParents(sha: Sha, now: int, account: string, ids: Ids, es: seq<Entry>, dir: string, parent: string, n: nat)
    ensures ParentsWithin(FlatAll(sha, now, account, ids, es, dir, parent, n), ids, parent, n, n + 2 * WeightAll(es))
    decreases es
  {
    if |es| > 0 {
      var m := n + 2 * Weight(es[0]);
      FlatParents(sha, now, account, ids, es[0], JoinPath(dir, es[0].name), parent, n);
      FlatAllParents(sha, now, account, ids, es[1..], dir, parent, m);
    }
  }

  lemma {:induction false} RebuildNone(fs: seq<File>, q: string)
    requires forall f :: f in fs ==> f.parentId != q
    ensures Rebuild(fs, q) == []
  {
    if |fs| > 0 {
      assert fs[0] in fs;
      RebuildNone(fs[1..], q);
    }
  }

  /** A list none of whose records lies in q adds nothing to q. */
  lemma {:induction false} RebuildSkip(a: seq<File>, b: seq<File>, q: string)
    requires forall f :: f in a ==> f.parentId != q
    ensures Rebuild(a + b, q) == Rebuild(b, q)
  {
    if |a| == 0 {
      assert a + b == b;
    } else {
      assert a[0] in a && (a + b)[0] == a[0] && (a + b)[1..] == a[1..] + b;
      RebuildSkip(a[1..], b, q);
    }
  }

  /** What follows the entries of a segment names none of the segment's ids. */
  lemma RestIsForeign(sha: Sha, now: int, account: string, ids: Ids, es: seq<Entry>, dir: string, parent: string,
                      n: nat, m: nat, tail: seq<File>)
    requires FreshIds(ids) && n <= m && NotDrawn(parent, ids, n, m) && NoParentIn(tail, ids, n, m)
    ensures NoParentIn(FlatAll(sha, now, account, ids, es, dir, parent, m) + tail, ids, n, m)
  {
    FlatAllParents(sha, now, account, ids, es, dir, parent, m);
  }

  /** The records of one entry and its descendants rebuild to that entry. */
  lemma RebuildHead(first: File, inner: seq<File>, rest: seq<File>, parent: string, e: Entry)
    requires first.parentId == parent && first.name == e.name && first.size == e.size
    requires first.fileType == if e.DirE? then Dir else Regular
    requires if e.DirE? then Rebuild(inner + rest, first.fileId) == e.children else inner == []
    requires forall f :: f in inner ==> f.parentId != parent
    ensures Rebuild([first] + (inner + rest), parent) == [e] + Rebuild(rest, parent)
  {
    assert ([first] + (inner + rest))[1..] == inner + rest;
    RebuildSkip(inner, rest, parent);
  }

  lemma FlatCons(first: File, inner: seq<File>, others: seq<File>, tail: seq<File>)
    ensures [first] + inner + others + tail == [first] + (inner + (others + tail))
  {
    Regroup([first] + inner, others, tail);
    Regroup([first], inner, others + tail);
  }

  lemma RebuildCons(first: File, inner: seq<File>, others: seq<File>, tail: seq<File>, parent: string, e: Entry, more: seq<Entry>)
    requires first.parentId == parent && first.name == e.name && first.size == e.size
    requires first.fileType == if e.DirE? then Dir else Regular
    requires if e.DirE? then Rebuild(inner + (others + tail), first.fileId) == e.children else inner == []
    requires forall f :: f in inner ==> f.parentId != parent
    requires Rebuild(others + tail, parent) == more
    ensures Rebuild([first] + inner + others + tail, parent) == [e] + more
  {
    FlatCons(first, inner, others, tail);
    RebuildHead(first, inner, others + tail, parent, e);
  }

  lemma ConsEntry(es: seq<Entry>, more: seq<Entry>)
    requires |es| > 0
    ensures [es[0]] + (es[1..] + more) == es + more
  {
    assert [es[0]] + es[1..] == es;
    Regroup([es[0]], es[1..], more);
  }

  function Inner(sha: Sha, now: int, account: string, ids: Ids, e: Entry, p: string, n: nat): seq<File> {
    if e.DirE? then FlatAll(sha, now, account, ids, e.children, p, ids(n), n + 2) else []
  }

  /** The first record of a segment, the records below it, and the others. */
  lemma FlatAllCons(sha: Sha, now: int, account: string, ids: Ids, es: seq<Entry>, dir: string, parent: string, n: nat)
    returns (p: string, first: File, inner: seq<File>, others: seq<File>)
    requires |es| > 0
    ensures FlatAll(sha, now, account, ids, es, dir, parent, n) == [first] + inner + others
    ensures first.parentId == parent && first.fileId == ids(n) && first.name == es[0].name && first.size == es[0].size
    ensures first.fileType == if es[0].DirE? then Dir else Regular
    ensures inner == Inner(sha, now, account, ids, es[0], p, n)
    ensures others == FlatAll(sha, now, account, ids, es[1..], dir, parent, n + 2 * Weight(es[0]))
  {
    p := JoinPath(dir, es[0].name);
    first := Record(sha, now, account, es[0], p, parent, ids(n));
    inner := Inner(sha, now, account, ids, es[0], p, n);
    others := FlatAll(sha, now, account, ids, es[1..], dir, parent, n + 2 * Weight(es[0]));
  }

  /** The records below an entry and what follows rebuild to its children. */
  lemma {:induction false} RebuildInner(sha: Sha, now: int, account: string, ids: Ids, e: Entry, p: string, parent: string,
                                        n: nat, rest: seq<File>, inner: seq<File>)
    requires FreshIds(ids) && NotDrawn(parent, ids, n, n + 2 * Weight(e))
    requires NoParentIn(rest, ids, n, n + 2 * Weight(e)) && inner == Inner(sha, now, account, ids, e, p, n)
    ensures if e.DirE? then Rebuild(inner + rest, ids(n)) == e.children else inner == []
    ensures forall f :: f in inner ==> f.parentId != parent
    decreases e, 0
  {
    if e.DirE? {
      RebuildFlat(sha, now, account, ids, e.children, p, ids(n), n + 2, rest);
      FlatAllParents(sha, now, account, ids, e.children, p, ids(n), n + 2);
      RebuildNone(rest, ids(n));
      assert e.children + [] == e.children;
    }
  }

  lemma SplitRange(parent: string, tail: seq<File>, ids: Ids, n: nat, m: nat, end: nat)
    requires n <= m <= end && NotDrawn(parent, ids, n, end) && NoParentIn(tail, ids, n, end)
    ensures NotDrawn(parent, ids, n, m) && NotDrawn(parent, ids, m, end)
    ensures NoParentIn(tail, ids, n, m) && NoParentIn(tail, ids, m, end)
  {
  }

  /** Rebuilding a segment gives its entries, whatever foreign records follow. */
  lemma {:induction false} RebuildFlat(sha: Sha, now: int, account: string, ids: Ids, es: seq<Entry>, dir: string,
                                       parent: string, n: nat, tail: seq<File>)
    requires FreshIds(ids) && NotDrawn(parent, ids, n, n + 2 * WeightAll(es))
    requires NoParentIn(tail, ids, n, n + 2 * WeightAll(es))
    ensures Rebuild(FlatAll(sha, now, account, ids, es, dir, parent, n) + tail, parent) == es + Rebuild(tail, parent)
    decreases es
  {
    if |es| == 0 {
      EmptyFirst(tail);
      EmptyFirst(Rebuild(tail, parent));
    } else {
      var m := n + 2 * Weight(es[0]);
      SplitRange(parent, tail, ids, n, m, n + 2 * WeightAll(es));
      var p, first, inner, others := FlatAllCons(sha, now, account, ids, es, dir, parent, n);
      RebuildFlat(sha, now, account, ids, es[1..], dir, parent, m, tail);
      RestIsForeign(sha, now, account, ids, es[1..], dir, parent, n, m, tail);
      RebuildInner(sha, now, account, ids, es[0], p, parent, n, others + tail, inner);
      RebuildCons(first, inner, others, tail, parent, es[0], es[1..] + Rebuild(tail, parent));
      ConsEntry(es, Rebuild(tail, parent));
    }
  }

  lemma EmptyFirst<T>(s: seq<T>)
    ensures [] + s == s
  {
  }

  /** The tree of names, kinds and sizes can be read back from the flat list. */
  lemma WalkIsInvertible(sha: Sha, now: int, account: string, ids: Ids, root: string, children: seq<Entry>)
    requires FreshIds(ids)
    ensures Rebuild(FlatAll(sha, now, account, ids, children, root, "", 1), "") == children
  {
    RebuildFlat(sha, now, account, ids, children, root, "", 1, []);
    var fs := FlatAll(sha, now, account, ids, children, root, "", 1);
    assert fs + [] == fs && children + [] == children;
  }

  /** Record i lies in `parent`, or in a directory listed before it. */
  ghost predicate ParentBefore(fs: seq<File>, i: nat, parent: string) {
    i < |fs| && (fs[i].parentId == parent
                 || exists j :: 0 <= j < i && fs[j].fileType == Dir && fs[j].fileId == fs[i].parentId)
  }

  ghost predicate AllParentsBefore(fs: seq<File>, parent: string) {
    forall i {:trigger fs[i]} :: 0 <= i < |fs| ==> ParentBefore(fs, i, parent)
  }

  lemma ParentBeforeShift(a: seq<File>, b: seq<File>, i: nat, parent: string)
    requires ParentBefore(b, i, parent)
    ensures ParentBefore(a + b, |a| + i, parent)
  {
    var fs := a + b;
    assert fs[|a| + i] == b[i];
    if b[i].parentId != parent {
      var j :| 0 <= j < i && b[j].fileType == Dir && b[j].fileId == b[i].parentId;
      assert fs[|a| + j] == b[j];
    }
  }

  lemma ParentBeforeGrow(a: seq<File>, b: seq<File>, i: nat, parent: string)
    requires ParentBefore(a, i, parent)
    ensures ParentBefore(a + b, i, parent)
  {
    if a[i].parentId != parent {
      var j :| 0 <= j < i && a[j].fileType == Dir && a[j].fileId == a[i].parentId;
      assert (a + b)[j] == a[j];
    }
  }

  lemma ParentsJoin(a: seq<File>, b: seq<File>, parent: string)
    requires AllParentsBefore(a, parent) && AllParentsBefore(b, parent)
    ensures AllParentsBefore(a + b, parent)
  {
    forall i | 0 <= i < |a + b| ensures ParentBefore(a + b, i, parent) {
      if i < |a| {
        assert ParentBefore(a, i, parent);
        ParentBeforeGrow(a, b, i, parent);
      } else {
        assert ParentBefore(b, i - |a|, parent);
        ParentBeforeShift(a, b, i - |a|, parent);
      }
    }
  }

  lemma ParentsHead(first: File, inner: seq<File>, parent: string)
    requires first.parentId == parent
    requires inner == [] || (first.fileType == Dir && AllParentsBefore(inner, first.fileId))
    ensures AllParentsBefore([first] + inner, parent)
  {
    var fs := [first] + inner;
    forall i | 0 <= i < |fs| ensures ParentBefore(fs, i, parent) {
      if i > 0 {
        assert ParentBefore(inner, i - 1, first.fileId);
        ParentBeforeShift([first], inner, i - 1, first.fileId);
        assert fs[0] == first;
      }
    }
  }

  /** Every record lies directly under the root or in a directory listed before it. */
  lemma {:induction false} ParentsComeFirst(sha: Sha, now: int, account: string, ids: Ids, es: seq<Entry>, dir: string, parent: string, n: nat)
    ensures AllParentsBefore(FlatAll(sha, now, account, ids, es, dir, parent, n), parent)
    decreases es
  {
    if |es| > 0 {
      var e, p := es[0], JoinPath(dir, es[0].name);
      var first := Record(sha, now, account, e, p, parent, ids(n));
      ParentsComeFirst(sha, now, account, ids, es[1..], dir, parent, n + 2 * Weight(e));
      if e.DirE? {
        ParentsComeFirst(sha, now, account, ids, e.children, p, ids(n), n + 2);
      }
      ParentsHead(first, if e.DirE? then FlatAll(sha, now, account, ids, e.children, p, ids(n), n + 2) else [], parent);
      ParentsJoin(Flat(sha, now, account, ids, e, p, parent, n),
                  FlatAll(sha, now, account, ids, es[1..], dir, parent, n + 2 * Weight(e)), parent);
    }
  }

  /** file.Read: the flat list of everything below the root, from which the tree
      can be rebuilt. The root directory bears the name of the account. */
  method Read(root: string, top: Entry, sha: Sha, now: int, ids: Ids) returns (files: seq<File>)
    requires |root| > 0 && (top.DirE? ==> ProperAll(top.children))
    ensures files == if top.DirE? then FlatAll(sha, now, BaseOf(root), ids, top.children, root, "", 1) else []
    ensures top.DirE? && FreshIds(ids) ==> Rebuild(files, "") == top.children && AllParentsBefore(files, "")
  {
    var account := BaseOf(root);
    var w := new Walker(root, account, sha, now, ids);
    w.Visit(root, top);
    if top.DirE? {
      w.WalkChildren(root, top.children);
      ParentsComeFirst(sha, now, account, ids, top.children, root, "", 1);
      if FreshIds(ids) {
        WalkIsInvertible(sha, now, account, ids, root, top.children);
      }
    }
    files := w.files;
    assert [] + files == files;
  }
}
