/** Writing a file to the disk chunk by chunk. */
module DiskWriter {
  import opened Division
  import Base64

  type Bytes = seq<Base64.Byte>

  /** The disk operations that fail; the write loop fails at its k-th write. The last is
      the look at the finished file. */
  datatype Faults = Faults(mkdirFails: bool, openFails: bool, failingWrite: int, statFails: bool)

  /** A write at offset at, which is within the file or at its end. */
  function Overwrite(file: Bytes, at: nat, chunk: Bytes): Bytes
    requires at <= |file|
  {
    file[..at] + chunk + if at + |chunk| <= |file| then file[at + |chunk|..] else []
  }

  /** data written over the beginning of what was there. */
  function Over(data: Bytes, before: Bytes): Bytes {
    data + if |data| <= |before| then before[|data|..] else []
  }

  lemma OverwriteExtends(data: Bytes, before: Bytes, at: nat, end: nat)
    requires at <= end <= |data|
    ensures at <= |Over(data[..at], before)|
    ensures Overwrite(Over(data[..at], before), at, data[at..end]) == Over(data[..end], before)
  {
    var file := Over(data[..at], before);
    assert file[..at] == data[..at];
    assert data[..at] + data[at..end] == data[..end];
    if end <= |before| {
      assert |file| == |before| && file[end..] == before[end..];
    } else {
      assert |file| <= end;
    }
  }

  /** Byte for byte: the data first, then what was behind it before. */
  lemma OverIs(data: Bytes, before: Bytes)
    ensures var file := Over(data, before);
            && |file| == (if |data| <= |before| then |before| else |data|)
            && forall i :: 0 <= i < |file| ==> file[i] == if i < |data| then data[i] else before[i]
  {
  }

  function Min(a: int, b: int): int {
    if a <= b then a else b
  }

  lemma StepOver(writes: nat, left: nat, size: nat)
    requires size > 0 && left > 0
    ensures (writes + 1) * size == writes * size + size
    ensures CeilDiv(left, size) == 1 + CeilDiv(if left > size then left - size else 0, size)
  {
    if left > size {
      CeilDivStep(left, size);
    } else {
      CeilDivLast(left, size);
      CeilDivLast(0, size);
    }
  }

  class DiskReadWriter {
    const chunkSize: nat
    var files: map<string, Bytes>

    constructor (size: nat)
      requires size > 0
      ensures chunkSize == size && files == map[]
    {
      chunkSize := size;
      files := map[];
    }

    /** Opens without truncating, then writes chunk after chunk. */
    method WriteToDisk(path: string, data: Bytes, f: Faults) returns (ok: bool, writes: nat)
      requires chunkSize > 0
      modifies this
      ensures ok <==> |data| > 0 && !f.mkdirFails && !f.openFails
                      && !(0 <= f.failingWrite < CeilDiv(|data|, chunkSize)) && !f.statFails
      ensures ok ==> writes == CeilDiv(|data|, chunkSize)
      ensures |data| == 0 || f.mkdirFails || f.openFails ==> files == old(files)
      ensures var before := if path in old(files) then old(files)[path] else [];
              |data| > 0 && !f.mkdirFails && !f.openFails ==>
                var kept := if 0 <= f.failingWrite < CeilDiv(|data|, chunkSize) then f.failingWrite * chunkSize else |data|;
                0 <= kept <= |data| && files == old(files)[path := Over(data[..kept], before)]
    {
      writes := 0;
      var dataLen := |data|;
      if dataLen == 0 || f.mkdirFails || f.openFails {
        return false, 0;
      }
      ghost var before := if path in files then files[path] else [];
      if path !in files {
        files := files[path := []];
      }
      var currSize := 0;
      var chunk := Min(dataLen, chunkSize);
      assert Over(data[..0], before) == before;
      assert 0 * chunkSize == 0;
      while currSize < dataLen
        invariant 0 <= currSize <= dataLen
        invariant currSize < dataLen ==> currSize == writes * chunkSize
        invariant currSize < dataLen ==> Min(chunk, dataLen) == Min(currSize + chunkSize, dataLen)
        invariant CeilDiv(dataLen, chunkSize) == writes + CeilDiv(dataLen - currSize, chunkSize)
        invariant !(0 <= f.failingWrite < writes)
        invariant files == old(files)[path := Over(data[..currSize], before)]
        decreases dataLen - currSize
      {
        if chunk > dataLen {
          chunk := dataLen;
        }
        if f.failingWrite == writes {
          StepOver(writes, dataLen - currSize, chunkSize);
          return false, writes;
        }
        StepOver(writes, dataLen - currSize, chunkSize);
        var byteChunk := data[currSize..chunk];
        OverwriteExtends(data, before, currSize, chunk);
        files := files[path := Overwrite(files[path], currSize, byteChunk)];
        currSize := currSize + |byteChunk|;
        chunk := chunk + chunkSize;
        writes := writes + 1;
      }
      CeilDivLast(0, chunkSize);
      return !f.statFails, writes;
    }
  }
}
