/** Files opened for reading or writing by chunks. */
module FileManager {
  import opened Config
  import opened Bytes
  import opened Chunks
  import opened FloatCeil
  import opened Env
  import opened Store
  import opened Messages

  /** The floating-point unit rounds to nearest. */
  ghost predicate Rounds(env: Env) {
    forall size: nat :: size < TWO_53 ==> Nearest(size as real / CHUNK_SIZE as real, env.Quotient(size))
  }

  /** A directory of regular files. */
  class Storage {
    var files: Dir

    constructor (files: Dir)
      ensures this.files == files
    {
      this.files := files;
    }
  }

  datatype OpenMode = READ | WRITE

  class FileManager {
    const storage: Storage
    const name: Name
    const mode: OpenMode
    var isOpen: bool
    var position: nat                // of the stream being read
    var fileSize: nat
    var chunksNum: int
    var lastChunkSize: nat

    predicate PlannedFor(size: nat)
      reads this
    {
      fileSize == size && chunksNum == ChunksNum(size) && lastChunkSize == LastChunkSize(size)
    }

    /** Opening to read plans the chunks; opening to write creates an empty file, but never over an existing one. */
    constructor (env: Env, storage: Storage, name: Name, mode: OpenMode)
      requires Rounds(env)
      modifies if mode.WRITE? then {storage} else {}
      ensures this.storage == storage && this.name == name && this.mode == mode && position == 0
      ensures isOpen <==> ((name in old(storage.files)) <==> mode.READ?)
      ensures storage.files == if mode.WRITE? && isOpen then old(storage.files)[name := []] else old(storage.files)
      ensures mode.READ? && isOpen ==> fileSize == |storage.files[name]| && (fileSize < TWO_53 ==> PlannedFor(fileSize))
    {
      this.storage := storage;
      this.name := name;
      this.mode := mode;
      isOpen, position := false, 0;
      fileSize, chunksNum, lastChunkSize := 0, 0, 0;
      new;
      if mode.READ? {
        if name in storage.files {
          isOpen := true;
          InitFileInfo(env, |storage.files[name]|);
        }
      } else if name !in storage.files {
        storage.files := storage.files[name := []];
        isOpen := true;
      }
    }

    /** The chunk count is the ceiling of a floating-point quotient, which is exact below 2^53 bytes. */
    method InitFileInfo(env: Env, size: nat)
      requires Rounds(env)
      modifies this`fileSize, this`chunksNum, this`lastChunkSize
      ensures fileSize == size && (size < TWO_53 ==> PlannedFor(size))
    {
      fileSize := size;
      chunksNum := Ceil(env.Quotient(size));
      if fileSize % CHUNK_SIZE != 0 {
        lastChunkSize := fileSize % CHUNK_SIZE;
      } else {
        lastChunkSize := CHUNK_SIZE;
      }
      if size < TWO_53 {
        ChunkCountExact(size, env.Quotient(size));
      }
    }

    /** Reads the next `size` bytes, or those that are left, to the start of the buffer. */
    method ReadChunk(buffer: array<byte>, size: nat) returns (code: int)
      requires size <= buffer.Length
      modifies this`position, buffer
      ensures code == if mode.READ? then 0 else -1
      ensures mode.READ? && isOpen && name in storage.files && old(position) + size <= |storage.files[name]| ==>
                && position == old(position) + size
                && buffer[..size] == storage.files[name][old(position)..position]
    {
      if mode.READ? {
        code := 0;
        if isOpen && name in storage.files {
          var content := storage.files[name];
          var i := 0;
          while i < size && position < |content|
            invariant 0 <= i <= size && position == old(position) + i
            invariant i > 0 ==> position <= |content|
            invariant i > 0 ==> buffer[..i] == content[old(position)..position]
          {
            buffer[i] := content[position];
            i := i + 1;
            position := position + 1;
          }
        }
      } else {
        code := -1;
      }
    }

    /** Appends the start of the buffer to the file. */
    method WriteChunk(buffer: array<byte>, size: nat) returns (code: int)
      requires size <= buffer.Length
      modifies storage
      ensures code == if mode.WRITE? then 0 else -1
      ensures storage.files ==
                if mode.WRITE? && isOpen && name in old(storage.files)
                then old(storage.files)[name := old(storage.files)[name] + buffer[..size]]
                else old(storage.files)
    {
      if mode.WRITE? {
        code := 0;
        if isOpen && name in storage.files {
          storage.files := storage.files[name := storage.files[name] + buffer[..size]];
        }
      } else {
        code := -1;
      }
    }
  }

  lemma ChunkAt(content: bytes, i: nat)
    requires i < ChunksNum(|content|)
    ensures PrefixLen(|content|, i) + ChunkLen(|content|, i) <= |content|
    ensures content[PrefixLen(|content|, i)..PrefixLen(|content|, i) + ChunkLen(|content|, i)] == Chunk(content, i)
  {
    ChunkBounds(|content|, i);
  }

  /** The size a chunk loop uses, full except for the last chunk. */
  lemma LoopSize(size: nat, i: nat, chunks: int, last: nat, chunkSize: nat)
    requires i < chunks == ChunksNum(size) && last == LastChunkSize(size)
    requires chunkSize == if i == chunks - 1 then last else CHUNK_SIZE
    ensures chunkSize == ChunkLen(size, i) <= CHUNK_SIZE
  {
    ChunkBounds(size, i);
  }

  lemma WrittenSoFar(content: bytes, i: nat)
    requires i < ChunksNum(|content|)
    ensures Concat(Split(content)[..i]) + Chunk(content, i) == Concat(Split(content)[..i + 1])
  {
    var more := Split(content)[..i + 1];
    assert more[..i] == Split(content)[..i];
  }

  /** One chunk of an upload: read, put in a message, sealed; opened, taken out of the message, written. */
  method PassChunk(env: Env, key: bytes, iv: bytes, counter: u32, input: FileManager, output: FileManager,
                   chunk: array<byte>, chunkSize: nat, ghost content: bytes, ghost i: nat)
    requires SealOpens(env) && |iv| == IV_LEN && input.storage != output.storage
    requires input.mode.READ? && input.isOpen && input.name in input.storage.files && input.storage.files[input.name] == content
    requires i < ChunksNum(|content|) && chunkSize == ChunkLen(|content|, i) <= chunk.Length
    requires input.position == PrefixLen(|content|, i)
    requires output.mode.WRITE? && output.isOpen && output.name in output.storage.files
    modifies input`position, chunk, output.storage
    ensures input.position == PrefixLen(|content|, i + 1)
    ensures output.storage.files
         == old(output.storage.files)[output.name := old(output.storage.files)[output.name] + Chunk(content, i)]
  {
    hide ChunksNum, LastChunkSize, PrefixLen, Chunk, Wrap, Unwrap, SealOpens;
    ChunkBounds(|content|, i);
    ChunkAt(content, i);
    var read := input.ReadChunk(chunk, chunkSize);
    var text := WriteUploadMi(chunk, chunkSize);
    var frame := SealFrame(env, key, iv, counter, text);
    WrapAccepted(env, key, iv, counter, text);
    var plaintext := OpenFrame(env, key, frame, 1 + chunkSize);
    var payload := ReadUploadMi(plaintext.value, chunkSize);
    assert payload[..] == Chunk(content, i) && payload[..chunkSize] == payload[..];
    var written := output.WriteChunk(payload, chunkSize);
  }

  /** The sender's and the receiver's chunk loops, with the sealed messages between them. */
  method PassChunks(env: Env, key: bytes, iv: bytes, input: FileManager, output: FileManager, ghost content: bytes)
    requires SealOpens(env) && |iv| == IV_LEN && input.storage != output.storage
    requires input.mode.READ? && input.isOpen && input.name in input.storage.files && input.storage.files[input.name] == content
    requires input.position == 0 && output.PlannedFor(|content|)
    requires output.mode.WRITE? && output.isOpen && output.name in output.storage.files && output.storage.files[output.name] == []
    modifies input`position, output.storage
    ensures output.storage.files == old(output.storage.files)[output.name := content]
  {
    hide ChunksNum, LastChunkSize, ChunkLen, PrefixLen, Chunk, Split, Concat, SealOpens;
    var chunk, chunkSize := new byte[CHUNK_SIZE], CHUNK_SIZE;
    NothingWritten(content);
    var i := 0;
    while i < output.chunksNum
      invariant 0 <= i <= ChunksNum(|content|)
      invariant input.position == PrefixLen(|content|, i)
      invariant output.storage.files == old(output.storage.files)[output.name := Concat(Split(content)[..i])]
      invariant i < output.chunksNum ==> chunkSize == CHUNK_SIZE
    {
      if i == output.chunksNum - 1 {
        chunkSize := output.lastChunkSize;
      }
      LoopSize(|content|, i, output.chunksNum, output.lastChunkSize, chunkSize);
      PassChunk(env, key, iv, i % U32_RANGE, input, output, chunk, chunkSize, content, i);
      WrittenSoFar(content, i);
      i := i + 1;
    }
    SplitConcat(content);
    assert Split(content)[..i] == Split(content);
  }

  lemma NothingWritten(content: bytes)
    ensures PrefixLen(|content|, 0) == 0 && Concat(Split(content)[..0]) == []
  {
  }

  /** What travels are the chunks of the file in order, and the new file has the same bytes. */
  method Transfer(env: Env, key: bytes, iv: bytes, source: Storage, target: Storage, name: Name) returns (code: int)
    requires Rounds(env) && SealOpens(env) && |iv| == IV_LEN && source != target
    requires name in source.files ==> |source.files[name]| < TWO_53
    modifies target
    ensures source.files == old(source.files)
    ensures code == if name in source.files && name !in old(target.files) then 0 else -1
    ensures target.files == if code == 0 then old(target.files)[name := source.files[name]] else old(target.files)
  {
    hide Nearest, ChunksNum, LastChunkSize, SealOpens, Rounds;
    if name !in source.files || name in target.files {
      return -1;
    }
    var input := new FileManager(env, source, name, READ);
    var output := new FileManager(env, target, name, WRITE);
    output.InitFileInfo(env, input.fileSize);
    PassChunks(env, key, iv, input, output, source.files[name]);
    code := 0;
  }
}
