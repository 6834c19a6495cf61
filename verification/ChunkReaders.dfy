/** Chunk geometry of a file, and reading chunks by number from one descriptor. */
module ChunkReaders {
  import opened Common

  const MAX_CHUNKS: nat := 32768

  // ------------------------------------------------------------ geometry

  /** The manifest's chunk count: size over chunk, rounded up. */
  function TotalChunks(size: nat, chunk: nat): nat
    requires chunk >= 1
  {
    (size + chunk - 1) / chunk
  }

  function Offset(chunk: nat, n: nat): nat
    requires n >= 1
  {
    (n - 1) * chunk
  }

  function End(size: nat, chunk: nat, n: nat): nat {
    if n * chunk < size then n * chunk else size
  }

  /** Chunk n starts inside the file and only the last one is short. */
  lemma ChunkInFile(size: nat, chunk: nat, n: nat)
    requires size >= 1 && chunk >= 1 && 1 <= n <= TotalChunks(size, chunk)
    ensures Offset(chunk, n) < End(size, chunk, n) <= size
    ensures n < TotalChunks(size, chunk) ==> End(size, chunk, n) == Offset(chunk, n) + chunk
    ensures n == TotalChunks(size, chunk) ==> End(size, chunk, n) == size
  {
    var total := TotalChunks(size, chunk);
    DivideUp(size, chunk);
    MulMono(n, total, chunk);
    MulMono(n - 1, total - 1, chunk);
    if n < total { MulMono(n, total - 1, chunk); }
    assert n * chunk == (n - 1) * chunk + chunk;
  }

  lemma DivideUp(size: nat, chunk: nat)
    requires size >= 1 && chunk >= 1
    ensures var total := TotalChunks(size, chunk);
      total >= 1 && (total - 1) * chunk < size <= total * chunk
  {
    var a, q := size + chunk - 1, (size + chunk - 1) / chunk;
    assert a == q * chunk + a % chunk;
    assert (q - 1) * chunk == q * chunk - chunk;
  }

  function Chunk(file: seq<Octet>, chunk: nat, n: nat): seq<Octet>
    requires |file| >= 1 && chunk >= 1 && 1 <= n <= TotalChunks(|file|, chunk)
  {
    ChunkInFile(|file|, chunk, n);
    file[Offset(chunk, n)..End(|file|, chunk, n)]
  }

  function Joined(file: seq<Octet>, chunk: nat, k: nat): seq<Octet>
    requires |file| >= 1 && chunk >= 1 && k <= TotalChunks(|file|, chunk)
  {
    if k == 0 then [] else Joined(file, chunk, k - 1) + Chunk(file, chunk, k)
  }

  lemma {:induction false} JoinedIsPrefix(file: seq<Octet>, chunk: nat, k: nat)
    requires |file| >= 1 && chunk >= 1 && k <= TotalChunks(|file|, chunk)
    ensures k > 0 ==> Joined(file, chunk, k) == file[..End(|file|, chunk, k)]
  {
    if k > 0 {
      ChunkInFile(|file|, chunk, k);
      if k > 1 {
        JoinedIsPrefix(file, chunk, k - 1);
        ChunkInFile(|file|, chunk, k - 1);
        assert Offset(chunk, k) == End(|file|, chunk, k - 1) by {
          assert Offset(chunk, k) == Offset(chunk, k - 1) + chunk;
        }
      } else {
        assert Offset(chunk, k) == 0;
      }
    }
  }

  /** Chunks 1 to the total, joined, are the file. */
  lemma ChunksTileTheFile(file: seq<Octet>, chunk: nat)
    requires |file| >= 1 && chunk >= 1
    ensures Joined(file, chunk, TotalChunks(|file|, chunk)) == file
  {
    var total := TotalChunks(|file|, chunk);
    DivideUp(|file|, chunk);
    JoinedIsPrefix(file, chunk, total);
    ChunkInFile(|file|, chunk, total);
  }

  // ------------------------------------------------------------ reading

  /** An open file: reads from its position, which a seek moves. */
  class FileHandle {
    const content: seq<Octet>
    var position: nat

    constructor (content: seq<Octet>)
      ensures this.content == content && position == 0
    {
      this.content, position := content, 0;
    }

    method Seek(offset: nat)
      modifies this
      ensures position == offset
    {
      position := offset;
    }

    method Read(n: nat) returns (data: seq<Octet>)
      modifies this
      ensures data == if old(position) >= |content| then []
                      else if old(position) + n < |content| then content[old(position)..old(position) + n]
                      else content[old(position)..]
      ensures position == old(position) + |data|
    {
      if position >= |content| { return []; }
      var to := if position + n < |content| then position + n else |content|;
      data := content[position..to];
      position := to;
    }
  }

  datatype ReadResult = Data(bytes: seq<Octet>) | BadNumber | Empty

  class ChunkReader {
    const chunk: nat
    const total: nat
    const handle: FileHandle
    var cursor: nat

    /** The cached cursor is the descriptor's real position. */
    ghost predicate Valid()
      reads this, handle
    {
      chunk >= 1 && cursor == handle.position
    }

    ghost predicate Fits()
      reads this, handle
    {
      Valid() && |handle.content| >= 1 && total == TotalChunks(|handle.content|, chunk)
    }

    constructor (content: seq<Octet>, chunk: nat, total: nat)
      requires chunk >= 1
      ensures Valid() && fresh(handle) && handle.content == content && this.chunk == chunk && this.total == total
    {
      var h := new FileHandle(content);
      this.chunk, this.total, handle, cursor := chunk, total, h, 0;
    }

    /** The length chunk n is expected to have; None for a number outside the file. */
    method ExpectedLength(n: int) returns (length: Option<nat>)
      requires Valid()
      ensures length.None? <==> !(1 <= n <= total)
      ensures Fits() && length.Some? ==> length.value == |Chunk(handle.content, chunk, n)|
    {
      if !(1 <= n <= total) { return None; }
      if n == total {
        var tail := |handle.content| - (total - 1) * chunk;
        length := Some(if tail > 1 then tail else 1);
      } else {
        length := Some(chunk);
      }
      if |handle.content| >= 1 && total == TotalChunks(|handle.content|, chunk) {
        ChunkInFile(|handle.content|, chunk, n);
      }
    }

    /** Chunk n, in any order and as often as asked; seeks only when the cursor is elsewhere. */
    method Read(n: int) returns (r: ReadResult)
      requires Valid()
      modifies this, handle
      ensures Valid()
      ensures r.BadNumber? <==> !(1 <= n <= total)
      ensures Fits() && 1 <= n <= total ==> r == Data(Chunk(handle.content, chunk, n))
      ensures r.Empty? <==> 1 <= n <= total && Offset(chunk, n) >= |handle.content|
      ensures r.Data? ==>
        var offset, size := Offset(chunk, n), |handle.content|;
        r.bytes == handle.content[offset..if offset + chunk < size then offset + chunk else size]
    {
      var expected := ExpectedLength(n);
      if expected.None? { return BadNumber; }
      var offset := Offset(chunk, n);
      if offset != cursor {
        handle.Seek(offset);
      }
      var data := handle.Read(chunk);
      cursor := offset + |data|;
      if |handle.content| >= 1 && total == TotalChunks(|handle.content|, chunk) {
        ChunkInFile(|handle.content|, chunk, n);
        assert offset + chunk == n * chunk;
      }
      if data == [] { return Empty; }
      return Data(data);
    }
  }

  /** Any schedule of chunk numbers, with repeats, reads exactly the slices it names. */
  method ReadSchedule(file: seq<Octet>, chunk: nat, schedule: seq<int>) returns (results: seq<ReadResult>)
    requires |file| >= 1 && chunk >= 1
    ensures |results| == |schedule|
    ensures forall i | 0 <= i < |schedule| ::
      results[i] == if 1 <= schedule[i] <= TotalChunks(|file|, chunk)
                    then Data(Chunk(file, chunk, schedule[i])) else BadNumber
  {
    var reader := new ChunkReader(file, chunk, TotalChunks(|file|, chunk));
    results := [];
    for t := 0 to |schedule|
      invariant reader.Fits() && fresh(reader.handle) && reader.handle.content == file && |results| == t
      invariant forall i | 0 <= i < t ::
        results[i] == if 1 <= schedule[i] <= TotalChunks(|file|, chunk)
                      then Data(Chunk(file, chunk, schedule[i])) else BadNumber
    {
      var r := reader.Read(schedule[t]);
      results := results + [r];
    }
  }

  // ------------------------------------------------------------ settings and manifests

  /** The settings cross-check: the largest file in the smallest allowed chunks stays bounded. */
  predicate SettingsAccepted(maxFileMb: int, chunkKb: int) {
    && 1 <= maxFileMb <= 4096 && 1 <= chunkKb <= 4
    && -(-(maxFileMb * 1024) / chunkKb) <= MAX_CHUNKS
  }

  /** The geometry checks of a received manifest. */
  predicate GeometryValid(size: int, chunk: int, total: int, maxFile: int, minChunk: int, maxChunk: int) {
    && 1 <= size <= maxFile && 1 <= minChunk <= chunk <= maxChunk
    && total == TotalChunks(size, chunk) && total <= MAX_CHUNKS
  }

  /**
   Whatever settings are accepted, the manifest of a file they admit passes a
   receiver's geometry checks exactly if size and chunk are within that
   receiver's own limits: count and chunk bound never fail.
   */
  lemma SenderManifestIsValid(maxFileMb: int, chunkKb: int, size: int, maxFile: int, minChunk: int, maxChunk: int)
    requires SettingsAccepted(maxFileMb, chunkKb) && 1 <= size <= maxFileMb * 1048576
    ensures GeometryValid(size, chunkKb * 1024, TotalChunks(size, chunkKb * 1024), maxFile, minChunk, maxChunk)
      <==> size <= maxFile && 1 <= minChunk <= chunkKb * 1024 <= maxChunk
  {
    if chunkKb == 1 {} else if chunkKb == 2 {} else if chunkKb == 3 {} else {}
  }
}
