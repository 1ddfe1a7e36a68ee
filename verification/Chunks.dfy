/** Chunk arithmetic of FileManager::initFileInfo and of the four chunk loops. */
module Chunks {
  import opened Config

  function ChunksNum(size: nat): nat {
    (size + CHUNK_SIZE - 1) / CHUNK_SIZE
  }

  function LastChunkSize(size: nat): nat {
    if size % CHUNK_SIZE != 0 then size % CHUNK_SIZE else CHUNK_SIZE
  }

  /** The size a loop uses for chunk `i`. */
  function ChunkLen(size: nat, i: nat): nat {
    if i == ChunksNum(size) - 1 then LastChunkSize(size) else CHUNK_SIZE
  }

  /** How many bytes the first `i` chunks hold. */
  function PrefixLen(size: nat, i: nat): nat {
    if i * CHUNK_SIZE <= size then i * CHUNK_SIZE else size
  }

  lemma ChunkBounds(size: nat, i: nat)
    requires i < ChunksNum(size)
    ensures 1 <= ChunkLen(size, i) <= CHUNK_SIZE
    ensures PrefixLen(size, i) + ChunkLen(size, i) == PrefixLen(size, i + 1) <= size
    ensures PrefixLen(size, i) == i * CHUNK_SIZE
  {
  }

  lemma ChunkEnds(size: nat)
    ensures PrefixLen(size, 0) == 0 && PrefixLen(size, ChunksNum(size)) == size
    ensures ChunksNum(size) == 0 <==> size == 0
    ensures size > 0 ==> (ChunksNum(size) - 1) * CHUNK_SIZE + LastChunkSize(size) == size
  {
  }

  /** What `readChunk` yields for chunk `i` of a file. */
  function Chunk(content: bytes, i: nat): (r: bytes)
    requires i < ChunksNum(|content|)
    ensures |r| == ChunkLen(|content|, i)
  {
    ChunkBounds(|content|, i);
    content[PrefixLen(|content|, i)..PrefixLen(|content|, i + 1)]
  }

  function Prefix(content: bytes, i: nat): bytes {
    content[..PrefixLen(|content|, i)]
  }

  lemma PrefixExtends(content: bytes, i: nat)
    requires i < ChunksNum(|content|)
    ensures Prefix(content, i) + Chunk(content, i) == Prefix(content, i + 1)
  {
    ChunkBounds(|content|, i);
  }

  lemma PrefixEnds(content: bytes)
    ensures Prefix(content, 0) == [] && Prefix(content, ChunksNum(|content|)) == content
  {
    ChunkEnds(|content|);
  }

  function Concat(parts: seq<bytes>): bytes {
    if parts == [] then [] else Concat(parts[..|parts| - 1]) + parts[|parts| - 1]
  }

  function Split(content: bytes): (r: seq<bytes>)
    ensures |r| == ChunksNum(|content|)
    ensures forall i :: 0 <= i < |r| ==> r[i] == Chunk(content, i)
  {
    seq(ChunksNum(|content|), i requires 0 <= i < ChunksNum(|content|) => Chunk(content, i))
  }

  lemma {:induction false} ConcatPrefix(content: bytes, i: nat)
    requires i <= ChunksNum(|content|)
    ensures Concat(Split(content)[..i]) == Prefix(content, i)
  {
    if i > 0 {
      ConcatPrefix(content, i - 1);
      PrefixExtends(content, i - 1);
      var part := Split(content)[..i];
      assert part[..i - 1] == Split(content)[..i - 1];
    }
  }

  /** Cutting a file into chunks and writing them one after another gives the file back. */
  lemma SplitConcat(content: bytes)
    ensures Concat(Split(content)) == content
  {
    var parts := Split(content);
    ConcatPrefix(content, |parts|);
    assert parts[..|parts|] == parts;
    PrefixEnds(content);
  }

  /** The size UploadM1 announces: 0 from four billion bytes up. */
  function AnnouncedUpload(size: nat): u32 {
    if size < MAX_FILE_SIZE then size else 0
  }

  /** The size DownloadM2 announces: the low 32 bits. */
  function AnnouncedDownload(size: nat): u32 {
    size % U32_RANGE
  }

  /** An accepted upload is planned alike on both sides unless it has exactly four billion bytes. */
  lemma UploadPlanAgrees(size: nat)
    requires 0 < size <= MAX_FILE_SIZE
    ensures ChunksNum(AnnouncedUpload(size)) == ChunksNum(size) <==> size != MAX_FILE_SIZE
    ensures size != MAX_FILE_SIZE ==> LastChunkSize(AnnouncedUpload(size)) == LastChunkSize(size)
  {
  }

  /** A download is announced with its true size exactly when the size fits in 32 bits. */
  lemma DownloadPlanAgrees(size: nat)
    ensures AnnouncedDownload(size) == size <==> size < U32_RANGE
    ensures ChunksNum(AnnouncedDownload(size)) == ChunksNum(size) <==> size < U32_RANGE
  {
    if size >= U32_RANGE {
      assert ChunksNum(AnnouncedDownload(size)) <= ChunksNum(size - U32_RANGE);
    }
  }
}
