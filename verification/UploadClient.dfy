/** The uploading client, and what it obtains from the server end to end. */
module UploadClient {
  import opened Text
  import opened FileModel
  import FT = FileTable
  import opened Upload
  import opened UploadRuns
  import opened Division

  /** The file cut into pieces of the given size; the last may be shorter. */
  function Pieces(data: Bytes, size: nat): seq<Bytes>
    requires size > 0
    decreases |data|
  {
    if |data| == 0 then [] else if |data| <= size then [data] else [data[..size]] + Pieces(data[size..], size)
  }

  /** getTotalChunks: an empty file still announces one chunk. */
  function TotalChunks(length: nat, size: nat): nat
    requires size > 0
  {
    if length > 0 then CeilDiv(length, size) else 1
  }

  lemma {:induction false} PieceCount(data: Bytes, size: nat)
    requires size > 0
    ensures |Pieces(data, size)| == CeilDiv(|data|, size)
    decreases |data|
  {
    if |data| > size {
      PieceCount(data[size..], size);
      CeilDivStep(|data|, size);
    } else {
      CeilDivLast(|data|, size);
    }
  }

  /** Nothing is lost or repeated by cutting. */
  lemma {:induction false} PiecesAreTheFile(data: Bytes, size: nat)
    requires size > 0
    ensures Concat(Pieces(data, size)) == data
    decreases |data|
  {
    if |data| > size {
      PiecesAreTheFile(data[size..], size);
      assert ([data[..size]] + Pieces(data[size..], size))[1..] == Pieces(data[size..], size);
    } else if |data| > 0 {
      assert [data][1..] == [];
      assert data + Concat([]) == data;
    }
  }

  /** Each piece but the last has the given size, and none is empty or larger. */
  lemma {:induction false} PieceSizes(data: Bytes, size: nat, i: nat)
    requires size > 0 && i < |Pieces(data, size)|
    ensures 0 < |Pieces(data, size)[i]| <= size && (i + 1 < |Pieces(data, size)| ==> |Pieces(data, size)[i]| == size)
    decreases |data|
  {
    if |data| > size {
      var rest := Pieces(data[size..], size);
      assert Pieces(data, size) == [data[..size]] + rest;
      if i > 0 {
        PieceSizes(data[size..], size, i - 1);
      }
    }
  }

  /** The announced number is the number of pieces exactly for a file that is not empty. */
  lemma {:induction false} AnnouncedIsSentIff(data: Bytes, size: nat)
    requires size > 0
    ensures TotalChunks(|data|, size) == |Pieces(data, size)| <==> |data| > 0
  {
    PieceCount(data, size);
  }

  /** uploadChunks: the requests sent, in order. */
  method UploadChunks(data: Bytes, size: nat) returns (sent: seq<(int, Bytes)>)
    requires size > 0
    ensures |sent| == |Pieces(data, size)|
    ensures forall i :: 0 <= i < |sent| ==> sent[i] == (i, Pieces(data, size)[i])
  {
    var start := 0;
    var end := size;
    var chunkIndex := 0;
    sent := [];
    ghost var done := [];
    ghost var rest := data;
    while start < |data|
      invariant start < |data| ==> end == start + size
      invariant chunkIndex == |sent| == |done|
      invariant rest == if start < |data| then data[start..] else []
      invariant Pieces(data, size) == done + Pieces(rest, size)
      invariant forall i :: 0 <= i < |sent| ==> sent[i] == (i, done[i])
      decreases |data| - start
    {
      if end > |data| {
        end := |data|;
      }
      NextPiece(done, data, start, end, size);
      sent := sent + [(chunkIndex, data[start..end])];
      done := done + [data[start..end]];
      start := start + size;
      end := end + size;
      rest := if start < |data| then data[start..] else [];
      chunkIndex := chunkIndex + 1;
    }
    assert Pieces(rest, size) == [];
  }

  lemma NextPiece(done: seq<Bytes>, data: Bytes, start: nat, end: nat, size: nat)
    requires size > 0 && start < |data| && end == if start + size > |data| then |data| else start + size
    ensures done + Pieces(data[start..], size)
         == done + [data[start..end]] + Pieces(if start + size < |data| then data[start + size..] else [], size)
  {
    var rest := data[start..];
    var left := if start + size < |data| then data[start + size..] else [];
    if |rest| > size {
      assert rest[..size] == data[start..end] && rest[size..] == left;
    } else {
      assert rest == data[start..end] && [rest] + [] == [rest];
    }
    Regroup(done, [data[start..end]], Pieces(left, size));
  }
}
