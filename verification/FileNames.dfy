/** The name of an uploaded file: taken apart by the client, trimmed by the server,
    and put together again for the download. */
module FileNames {
  import opened Text
  import opened FileModel
  import FT = FileTable
  import FileOutcomes
  import opened Upload
  import Phc

  /** getNameAndExtension */
  function NameAndExtension(fileName: string): (string, string) {
    var parts := Phc.Split(fileName, '.');
    if |parts| == 1 then (parts[0], "") else (Join(parts[..|parts| - 1], "."), parts[|parts| - 1])
  }

  /** The name in the Content-Disposition header. */
  function DownloadName(f: File): string {
    f.name + "." + TrimDot(f.extension)
  }

  lemma {:induction false} PartsAreFree(s: string, c: char)
    ensures forall i :: 0 <= i < |Phc.Split(s, c)| ==> c !in Phc.Split(s, c)[i]
  {
    if |s| > 0 {
      PartsAreFree(s[1..], c);
    }
  }

  lemma {:induction false} JoinLast(parts: seq<string>, last: string)
    requires |parts| > 0
    ensures Join(parts + [last], ".") == Join(parts, ".") + "." + last
  {
    if |parts| == 1 {
      assert (parts + [last])[1..] == [last];
    } else {
      assert (parts + [last])[1..] == parts[1..] + [last];
      JoinLast(parts[1..], last);
      var most := Join(parts[1..], ".");
      assert Join(parts + [last], ".") == parts[0] + "." + (most + "." + last);
      assert parts[0] + "." + (most + "." + last) == parts[0] + "." + most + "." + last;
    }
  }

  lemma {:induction false} OnePartIff(s: string, c: char)
    ensures |Phc.Split(s, c)| == 1 <==> c !in s
  {
    if |s| > 0 {
      OnePartIff(s[1..], c);
      assert s == [s[0]] + s[1..];
    }
  }

  /** A downloaded file bears the name it was uploaded with exactly when that name has
      a dot; a name without one comes back with a dot after it. */
  lemma DownloadNameIff(sha: Sha, fileName: string, meta: Meta, account: string, fileId: string, now: int)
    requires (meta.fileName, meta.extension) == NameAndExtension(fileName)
    ensures var name := DownloadName(Entry(sha, meta, account, fileId, now));
            && (name == fileName <==> '.' in fileName)
            && ('.' !in fileName ==> name == fileName + ".")
  {
    var parts := Phc.Split(fileName, '.');
    OnePartIff(fileName, '.');
    Phc.JoinSplit(fileName, '.');
    PartsAreFree(fileName, '.');
    if |parts| > 1 {
      var last := |parts| - 1;
      assert parts == parts[..last] + [parts[last]];
      JoinLast(parts[..last], parts[last]);
      assert TrimDot(parts[last]) == parts[last];
    } else {
      assert |fileName + "."| != |fileName|;
    }
  }

  /** Where the last dot is; -1 without one. */
  function LastDot(s: string): (d: int)
    ensures -1 <= d < |s| && (d >= 0 ==> s[d] == '.') && forall k :: d < k < |s| ==> s[k] != '.'
  {
    if |s| == 0 then -1 else if s[|s| - 1] == '.' then |s| - 1 else LastDot(s[..|s| - 1])
  }

  lemma LastDotIs(s: string, before: string, after: string)
    requires s == before + "." + after && '.' !in after
    ensures LastDot(s) == |before|
  {
    forall k | |before| < k < |s| ensures s[k] != '.' {
      assert s[k] == after[k - |before| - 1];
    }
    LastDotAt(s, |before|);
  }

  lemma LastDotAt(s: string, n: nat)
    requires n < |s| && s[n] == '.' && forall k :: n < k < |s| ==> s[k] != '.'
    ensures LastDot(s) == n
  {
  }

  /** The client's name part: what precedes the last dot, or the whole name. */
  lemma NameIsBeforeLastDot(fileName: string)
    ensures NameAndExtension(fileName).0 == if LastDot(fileName) >= 0 then fileName[..LastDot(fileName)] else fileName
  {
    var parts := Phc.Split(fileName, '.');
    OnePartIff(fileName, '.');
    Phc.JoinSplit(fileName, '.');
    PartsAreFree(fileName, '.');
    if |parts| > 1 {
      var last := |parts| - 1;
      assert parts == parts[..last] + [parts[last]];
      JoinLast(parts[..last], parts[last]);
      LastDotIs(fileName, Join(parts[..last], "."), parts[last]);
    }
  }

  /** Where the name part of a client's file ends. */
  function NameEnd(fileName: string): (n: nat)
    ensures n <= |fileName|
    ensures if '.' in fileName then n < |fileName| && fileName[n] == '.' && '.' !in fileName[n + 1..] else n == |fileName|
  {
    if LastDot(fileName) >= 0 then LastDot(fileName) else |fileName|
  }

  /** The characters with the White_Space property, by code point. */
  predicate White(c: char) {
    var n := c as int;
    || 9 <= n <= 13 || n == 32 || n == 0x85 || n == 0xA0 || n == 0x1680 || 0x2000 <= n <= 0x200A
    || n == 0x2028 || n == 0x2029 || n == 0x202F || n == 0x205F || n == 0x3000
  }

  /** The name of a client's file is refused exactly when every character before its last
      dot, or every character of a name without one, is white space; so is every upload
      that announces no chunk. */
  lemma NameRefusedIff(sha: Sha, s: Server, u: string, meta: Meta, fileName: string, account: string, fileId: string, now: int)
    requires (meta.fileName, meta.extension) == NameAndExtension(fileName)
    ensures Generate(sha, s, u, meta, account, fileId, now).1 == BadRequest <==>
            meta.totalChunks == 0 || forall i :: 0 <= i < NameEnd(fileName) ==> White(fileName[i])
  {
    NameIsBeforeLastDot(fileName);
    var name := fileName[..NameEnd(fileName)];
    assert name == NameAndExtension(fileName).0;
    RefusedIff(sha, s, u, meta, account, fileId, now);
    BlankIff(name);
    assert forall i :: 0 <= i < |name| ==> name[i] == fileName[i];
  }

  lemma BlankIff(s: string)
    ensures IsBlank(s) <==> forall i :: 0 <= i < |s| ==> White(s[i])
  {
    forall i | 0 <= i < |s| ensures IsSpace(s[i]) <==> White(s[i]) {
    }
  }

  lemma RefusedIff(sha: Sha, s: Server, u: string, meta: Meta, account: string, fileId: string, now: int)
    ensures Generate(sha, s, u, meta, account, fileId, now).1 == BadRequest <==> IsBlank(meta.fileName) || meta.totalChunks == 0
  {
  }

  /** Every other upload is answered Accepted, or DuplicateData: exactly when the id is taken
      or a pending or completed file has the hash of its account, name, extension and parent. */
  lemma NameAcceptedIff(sha: Sha, s: Server, u: string, meta: Meta, fileName: string, account: string, fileId: string, now: int)
    requires FT.KeysMatch(s.rows) && (meta.fileName, meta.extension) == NameAndExtension(fileName)
    requires meta.totalChunks != 0 && exists i :: 0 <= i < NameEnd(fileName) && !White(fileName[i])
    ensures var r := Generate(sha, s, u, meta, account, fileId, now).1;
            && (r == Accepted || r == DuplicateData)
            && (r == DuplicateData <==>
                  || fileId in s.rows
                  || FileOutcomes.HashTaken(s.rows, fileId, sha(account + meta.fileName + meta.extension + meta.parentId)))
  {
    NameRefusedIff(sha, s, u, meta, fileName, account, fileId, now);
    ExtensionHasNoDot(fileName);
    DuplicateIff(sha, s, u, meta, account, fileId, now);
  }

  lemma ExtensionHasNoDot(fileName: string)
    ensures TrimDot(NameAndExtension(fileName).1) == NameAndExtension(fileName).1
  {
    PartsAreFree(fileName, '.');
  }

  lemma DuplicateIff(sha: Sha, s: Server, u: string, meta: Meta, account: string, fileId: string, now: int)
    requires FT.KeysMatch(s.rows) && TrimDot(meta.extension) == meta.extension
    requires Generate(sha, s, u, meta, account, fileId, now).1 != BadRequest
    ensures Generate(sha, s, u, meta, account, fileId, now).1 == DuplicateData <==>
              || fileId in s.rows
              || FileOutcomes.HashTaken(s.rows, fileId, sha(account + meta.fileName + meta.extension + meta.parentId))
  {
    var entry := Entry(sha, meta, account, fileId, now);
    FT.InsertOne(s.rows, entry);
    TakenIff(s.rows, entry);
  }

  lemma TakenIff(t: FT.Table, f: File)
    requires f.fileType == Regular && f.uploadStatus != Failed
    ensures FT.Rejected(t, f) <==> FileOutcomes.HashTaken(t, f.fileId, f.uniqueHash)
  {
    if FileOutcomes.HashTaken(t, f.fileId, f.uniqueHash) {
      var k :| k in t && k != f.fileId && t[k].fileType == Regular && t[k].uploadStatus != Failed && t[k].uniqueHash == f.uniqueHash;
      assert FT.Clash(f, t[k]);
    }
  }

  /** So is a name whose one dot leads it: nothing is left of it before the dot. */
  lemma LeadingDotRefused(sha: Sha, s: Server, u: string, meta: Meta, rest: string, account: string, fileId: string, now: int)
    requires '.' !in rest && (meta.fileName, meta.extension) == NameAndExtension("." + rest)
    ensures Generate(sha, s, u, meta, account, fileId, now) == (s, BadRequest)
  {
    LastDotIs("." + rest, "", rest);
    NameRefusedIff(sha, s, u, meta, "." + rest, account, fileId, now);
  }
}
