/** How a large file is cut up for a web upload (internal/evs/client.go). */
module Chunks {
  import opened Store
  import opened Record

  const MIB: int := 1024 * 1024

  /** getChunkSize */
  function ChunkSize(size: nat): (n: nat)
    ensures n > 0
  {
    if size / (6 * MIB) > 16 then 16 * MIB
    else if size / (4 * MIB) > 4 then 4 * MIB
    else MIB
  }

  /** One MiB up to 20 MiB, four up to 102 MiB, then sixteen. */
  lemma ChunkSizes(size: nat)
    ensures ChunkSize(size) ==
      if size < 20_971_520 then 1_048_576 else if size < 106_954_752 then 4_194_304 else 16_777_216
  {
  }

  function TotalChunks(size: nat): nat {
    (size + ChunkSize(size) - 1) / ChunkSize(size)
  }

  function Joined(parts: seq<Bytes>): Bytes {
    if parts == [] then [] else Joined(parts[..|parts| - 1]) + parts[|parts| - 1]
  }

  /** The service takes at most this many chunks for any file it takes at all. */
  lemma AtMost120Chunks(size: nat)
    requires size <= MAX_UPLOAD_SIZE
    ensures TotalChunks(size) <= 120
    ensures size == 119 * (16 * MIB) + 1 ==> TotalChunks(size) == 120
  {
  }

  /** Where chunk k begins. */
  function Offset(chunkSize: nat, k: nat): nat {
    if k == 0 then 0 else Offset(chunkSize, k - 1) + chunkSize
  }

  lemma {:induction false} OffsetIsProduct(chunkSize: nat, k: nat)
    ensures Offset(chunkSize, k) == k * chunkSize
  {
    if k == 0 {
    } else {
      OffsetIsProduct(chunkSize, k - 1);
      assert k * chunkSize == (k - 1) * chunkSize + chunkSize;
    }
  }

  /** Every chunk but the last is full, and the last is not empty. */
  predicate Ends(chunkSize: nat, k: nat, totalChunks: nat, size: nat) {
    && Offset(chunkSize, k) < size
    && (if k + 1 < totalChunks then Offset(chunkSize, k + 1) <= size else size <= Offset(chunkSize, k + 1))
  }

  lemma OffsetWithin(size: nat, k: nat)
    requires k < TotalChunks(size)
    ensures Ends(ChunkSize(size), k, TotalChunks(size), size)
  {
    var c, n := ChunkSize(size), TotalChunks(size);
    OffsetIsProduct(c, k);
    OffsetIsProduct(c, k + 1);
    assert size + c - 1 == n * c + (size + c - 1) % c;
    assert (k + 1) * c == k * c + c;
    if k + 1 < n {
      assert (k + 2) * c <= n * c;
    } else {
      assert (k + 1) * c == n * c;
    }
  }

  /** The part of the file that is chunk k. */
  function Part(file: Bytes, chunkSize: nat, k: nat): Bytes {
    var from, to := Offset(chunkSize, k), Offset(chunkSize, k) + chunkSize;
    if to <= |file| then file[from..to] else if from <= |file| then file[from..] else []
  }

  function Parts(file: Bytes, chunkSize: nat, n: nat): seq<Bytes> {
    if n == 0 then [] else Parts(file, chunkSize, n - 1) + [Part(file, chunkSize, n - 1)]
  }

  function Offsets(chunkSize: nat, n: nat): seq<nat> {
    if n == 0 then [] else Offsets(chunkSize, n - 1) + [Offset(chunkSize, n - 1)]
  }

  lemma {:induction false} PartAt(file: Bytes, chunkSize: nat, n: nat, k: nat)
    requires k < n
    ensures |Parts(file, chunkSize, n)| == |Offsets(chunkSize, n)| == n
    ensures Parts(file, chunkSize, n)[k] == Part(file, chunkSize, k) && Offsets(chunkSize, n)[k] == Offset(chunkSize, k)
  {
    if n == 1 {
    } else {
      PartAt(file, chunkSize, n - 1, if k < n - 1 then k else 0);
    }
  }

  lemma {:induction false} PartsJoinUpTo(file: Bytes, chunkSize: nat, n: nat)
    requires n > 0 ==> Offset(chunkSize, n - 1) < |file|
    ensures Joined(Parts(file, chunkSize, n)) ==
      if Offset(chunkSize, n) < |file| then file[..Offset(chunkSize, n)] else file
  {
    if n == 0 {
    } else {
      PartsJoinUpTo(file, chunkSize, n - 1);
      var before := Parts(file, chunkSize, n - 1);
      assert Parts(file, chunkSize, n)[..|before|] == before;
      TakeOn(file, Offset(chunkSize, n - 1), |Part(file, chunkSize, n - 1)|);
    }
  }

  lemma TakeOn(file: Bytes, from: nat, length: nat)
    requires from + length <= |file|
    ensures file[..from] + file[from..from + length] == file[..from + length]
    ensures from + length == |file| ==> file[..from] + file[from..] == file
  {
  }

  /** The chunks are not empty, not too long, all but the last full, and put back
      together they are the file. */
  lemma PartsAreTheFile(file: Bytes)
    ensures var c, n := ChunkSize(|file|), TotalChunks(|file|);
      && Joined(Parts(file, c, n)) == file && |Parts(file, c, n)| == |Offsets(c, n)| == n
      && (forall k :: 0 <= k < n ==> 0 < |Part(file, c, k)| <= c)
      && (forall k :: 0 <= k < n - 1 ==> |Part(file, c, k)| == c)
  {
    var c, n := ChunkSize(|file|), TotalChunks(|file|);
    forall k | 0 <= k < n
      ensures 0 < |Part(file, c, k)| <= c && (k < n - 1 ==> |Part(file, c, k)| == c)
    {
      OffsetWithin(|file|, k);
    }
    if n > 0 {
      OffsetWithin(|file|, n - 1);
      PartAt(file, c, n, 0);
    }
    PartsJoinUpTo(file, c, n);
  }

  /** What the upload loop sends: every part with the offset announced for it, and
      the bytes its checksum was taken of. */
  method UploadChunked(file: Bytes) returns (parts: seq<Bytes>, offsets: seq<nat>, hashed: Bytes)
    ensures parts == Parts(file, ChunkSize(|file|), TotalChunks(|file|))
    ensures offsets == Offsets(ChunkSize(|file|), TotalChunks(|file|))
    ensures hashed == file
  {
    var chunkSize, totalChunks := ChunkSize(|file|), TotalChunks(|file|);
    var chunkOffset, read := 0, 0;
    parts, offsets, hashed := [], [], [];
    for chunkIndex := 0 to totalChunks
      invariant read <= |file| && chunkOffset == Offset(chunkSize, chunkIndex)
      invariant read == if chunkIndex < totalChunks then chunkOffset else |file|
      invariant parts == Parts(file, chunkSize, chunkIndex) && offsets == Offsets(chunkSize, chunkIndex)
      invariant hashed == file[..read]
    {
      OffsetWithin(|file|, chunkIndex);
      var chunkLength := if chunkSize < |file| - chunkOffset then chunkSize else |file| - chunkOffset;
      var chunkData := file[read..read + chunkLength];
      assert chunkData == Part(file, chunkSize, chunkIndex);
      TakeOn(file, read, chunkLength);
      hashed := hashed + chunkData;
      parts, offsets := parts + [chunkData], offsets + [chunkOffset];
      read := read + chunkLength;
      chunkOffset := chunkOffset + chunkSize;
    }
  }
}
