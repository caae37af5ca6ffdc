/** The columns of a walked record that do not carry the tree. */
module WalkColumns {
  import opened Text
  import opened FileModel
  import opened Walk

  lemma DirOfShort(name: string)
    requires ProperName(name)
    ensures DirOf(name) == "." && DirOf("/" + name) == "/"
  {
    LastSlashJoin("", name);
    assert "" + "/" + name == "/" + name;
    NoSlash(name);
  }

  lemma {:induction false} NoSlash(s: string)
    requires '/' !in s
    ensures LastSlash(s) == -1
  {
    if |s| > 0 {
      NoSlash(s[..|s| - 1]);
    }
  }

  /** ext is what follows the last dot of the name, or empty when it has none. */
  predicate ExtensionFits(name: string, ext: string) {
    if '.' in name then |ext| < |name| && name[|name| - |ext|..] == ext && name[|name| - |ext| - 1] == '.' && '.' !in ext
    else ext == ""
  }

  /** The extension of a path is the text from the last dot of its last name on. */
  lemma {:induction false} ExtOfJoin(dir: string, name: string)
    requires '/' !in name
    ensures var ext := ExtOf(dir + "/" + name);
            if '.' in name then |ext| > 0 && ext[0] == '.' && ExtensionFits(name, ext[1..]) else ext == ""
  {
    if |name| > 0 {
      var p, most, c := dir + "/" + name, name[..|name| - 1], name[|name| - 1];
      assert p[..|p| - 1] == dir + "/" + most && name == most + [c];
      ExtOfJoin(dir, most);
      if c != '.' && '.' in most {
        var ext := ExtOf(dir + "/" + most);
        assert (ext + [c])[1..] == ext[1..] + [c];
        LongerFits(most, ext[1..], c);
      }
    }
  }

  lemma LongerFits(name: string, ext: string, c: char)
    requires '.' in name && ExtensionFits(name, ext) && c != '.'
    ensures ExtensionFits(name + [c], ext + [c])
  {
    var k := |name| - |ext|;
    assert (name + [c])[k..] == name[k..] + [c];
  }

  /** The columns that do not carry the tree: owner, path, extension, times, status, hash. */
  predicate PlainColumns(sha: Sha, now: int, account: string, f: File) {
    && f.ownerId == account && f.path == account + "/" + f.fileId && ExtensionFits(f.name, f.extension)
    && f.modifiedOn == now && f.deletedOn == None && f.uploadStatus == Pending
    && f.uniqueHash == sha(account + f.name + f.extension + f.parentId)
  }

  lemma RecordColumns(sha: Sha, now: int, account: string, e: Entry, dir: string, parent: string, id: string)
    requires ProperName(e.name)
    ensures PlainColumns(sha, now, account, Record(sha, now, account, e, JoinPath(dir, e.name), parent, id))
  {
    ExtOfJoin(dir, e.name);
  }

  /** Every record belongs to the account, under whose name it will be stored, is pending,
      and has the extension and the hash of its own name. */
  lemma {:induction false} FlatColumns(sha: Sha, now: int, account: string, ids: Ids, es: seq<Entry>, dir: string, parent: string, n: nat)
    requires ProperAll(es)
    ensures forall f :: f in FlatAll(sha, now, account, ids, es, dir, parent, n) ==> PlainColumns(sha, now, account, f)
    decreases es
  {
    if |es| > 0 {
      var e := es[0];
      assert Proper(e);
      RecordColumns(sha, now, account, e, dir, parent, ids(n));
      if e.DirE? {
        FlatColumns(sha, now, account, ids, e.children, JoinPath(dir, e.name), ids(n), n + 2);
      }
      FlatColumns(sha, now, account, ids, es[1..], dir, parent, n + 2 * Weight(e));
    }
  }
}
