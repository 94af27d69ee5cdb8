/** Partition images, and the interpreter for Android sparse images. */
module SparseImages {
  import opened Bytes
  import opened Link
  import opened LinkHost
  import opened Effects
  import opened Plans
  import opened Batch
  import opened Blocks
  import opened BlockDevices
  import opened Streams

  const SPARSE_HEADER_MAGIC: u32 := 0xed26ff3a
  const CHUNK_TYPE_RAW: u16 := 0xCAC1
  const CHUNK_TYPE_FILL: u16 := 0xCAC2
  const CHUNK_TYPE_DONT_CARE: u16 := 0xCAC3
  const CHUNK_TYPE_CRC32: u16 := 0xCAC4

  const SPARSE_HEADER_LENGTH := 28
  const CHUNK_HEADER_LENGTH := 12

  datatype SparseHeader = SparseHeader(magic: u32, majorVersion: u16, minorVersion: u16, fileHdrSz: u16, chunkHdrSz: u16,
                                       blkSz: u32, totalBlks: u32, totalChunks: u32, imageChecksum: u32)

  datatype ChunkHeader = ChunkHeader(chunkType: u16, chunkSz: u32, totalSz: u32)

  datatype ImageError =
    | Io(error: IoError)
    | UnexpectedEof
    | InvalidMagic
    | UnsupportedVersion
    | UnknownSparseChunkType
    | ImageTooLarge

  function ParseHeader(b: seq<byte>): SparseHeader
    requires |b| == SPARSE_HEADER_LENGTH
  {
    SparseHeader(FromLe32(b[0..4]), FromLe16(b[4..6]), FromLe16(b[6..8]), FromLe16(b[8..10]), FromLe16(b[10..12]),
                 FromLe32(b[12..16]), FromLe32(b[16..20]), FromLe32(b[20..24]), FromLe32(b[24..28]))
  }

  function ParseChunk(b: seq<byte>): ChunkHeader
    requires |b| == CHUNK_HEADER_LENGTH
  {
    ChunkHeader(FromLe16(b[0..2]), FromLe32(b[4..8]), FromLe32(b[8..12]))
  }

  /** The bytes of the disk a chunk stands for. */
  function DataSize(h: SparseHeader, c: ChunkHeader): nat {
    Times(h.blkSz, c.chunkSz)
  }

  function Times(a: nat, b: nat): nat {
    a * b
  }

  /** A partition: where it starts and how long it is, in bytes. */
  datatype Partition = Partition(start: u64, length: u64)

  /** At most `limit` bytes of a file from `pos` on; fewer at its end. */
  function Portion(data: seq<byte>, pos: nat, limit: nat): (b: seq<byte>)
    ensures |b| <= limit
    ensures pos + limit <= |data| ==> b == data[pos..pos + limit]
  {
    if pos >= |data| then [] else data[pos..Min(pos + limit, |data|)]
  }

  /** A 4-byte pattern repeated over `length` bytes, as far as whole patterns go. */
  function FillBytes(pattern: seq<byte>, length: nat): (b: seq<byte>)
    requires |pattern| == 4
    ensures |b| == length - length % 4
    ensures forall i | 0 <= i < |b| :: b[i] == pattern[i % 4]
  {
    seq(length - length % 4, i requires 0 <= i => pattern[i % 4])
  }

  /** A file being read: its bytes and a position. */
  class ImageReader {
    const data: seq<byte>
    var pos: nat

    constructor (data: seq<byte>)
      ensures this.data == data && pos == 0
    {
      this.data, this.pos := data, 0;
    }

    method SeekStart(p: nat)
      modifies this
      ensures pos == p
    {
      pos := p;
    }

    method ReadExact(n: nat) returns (r: Option<seq<byte>>)
      modifies this
      ensures r == (if old(pos) + n <= |data| then Some(data[old(pos)..old(pos) + n]) else None)
      ensures r.Some? ==> pos == old(pos) + n
    {
      if pos + n > |data| { return None; }
      r := Some(data[pos..pos + n]);
      pos := pos + n;
    }

    /** The next `limit` bytes as a stream. */
    method Take(limit: nat) returns (stream: seq<byte>)
      modifies this
      ensures stream == Portion(data, old(pos), limit) && pos == old(pos) + |stream|
    {
      stream := Portion(data, pos, limit);
      pos := pos + |stream|;
    }
  }

  /** The phase of the pattern survives from read to read. */
  lemma PatternPart(pattern: seq<byte>, length: nat, off: nat, piece: seq<byte>)
    requires |pattern| == 4 && off % 4 == 0 && off + |piece| <= length - length % 4
    requires forall i | 0 <= i < |piece| :: piece[i] == pattern[i % 4]
    ensures piece == FillBytes(pattern, length)[off..off + |piece|]
  {
    assert forall i | 0 <= i < |piece| :: (off + i) % 4 == i % 4;
  }

  /** What one buffer takes of it: whole patterns, none of them only when fewer than 4 bytes are left. */
  lemma FillStep(length: nat, off: nat, room: nat, n: nat)
    requires off <= length && off % 4 == 0 && n == room - room % 4
    requires room == length - off || 4 <= room <= length - off
    ensures off + n <= length - length % 4 && (off + n) % 4 == 0
    ensures n == 0 ==> off == length - length % 4
  {
  }

  /** Copy a repeated 4-byte pattern through buffers of at least 4 bytes. The last buffer was begun in `began`. */
  method CopyFill(dev: RkBlockDevice, pattern: seq<byte>, length: nat)
    returns (r: Result<nat, IoError>, ghost done: nat, ghost chunk: nat, ghost began: World)
    requires Wf(dev.rkdev.device.world) && |pattern| == 4
    modifies dev`pos, dev.rkdev.device
    ensures var w0, w, src := old(dev.rkdev.device.world), dev.rkdev.device.world, FillBytes(pattern, length);
            && Aged(w0, began) && Aged(began, w)
            && (if r.Ok? then Streamed(w0, w, old(dev.pos), src, |src|)
                else && old(dev.pos) <= dev.pos && Streamed(w0, began, old(dev.pos), src, dev.pos - old(dev.pos))
                     && Broke(w0, w, old(dev.pos), src, done, chunk))
            && (r.Err? && AddressError(r.error) ==> !Addressable(old(dev.pos), |src|))
            && (r.Ok? ==> Addressable(old(dev.pos), |src|))
            && (Clean(w0) && Healthy(w0, began, w, dev.timeout) ==>
                  if Addressable(old(dev.pos), |src|) then r.Ok? else r.Err? && AddressError(r.error))
    ensures r.Ok? ==> r.value == length - length % 4 && dev.pos == old(dev.pos) + r.value
  {
    hide Wf, Written, Stopped, Clean, Streamed, Broke, Addressable, AddressError;
    ghost var w0, base := dev.rkdev.device.world, dev.pos;
    NothingAddressable(base);
    ghost var src := FillBytes(pattern, length);
    StreamStart(w0, base, src);
    var off, limit := 0, length;
    began := w0;
    while true
      invariant off + limit == length && off % 4 == 0 && off <= |src| && dev.pos == base + off
      invariant Streamed(w0, dev.rkdev.device.world, base, src, off)
      invariant Addressable(base, off)
      invariant Aged(w0, began) && Aged(began, dev.rkdev.device.world)
      invariant Clean(w0) && dev.rkdev.device.world.mishaps == w0.mishaps ==> Clean(dev.rkdev.device.world)
      decreases limit
    {
      var capacity: nat :| capacity >= 4;
      var buf := new byte[Min(capacity, limit)](_ => 0);
      var n := RepeatRead(pattern, buf);
      FillStep(length, off, buf.Length, n);
      if n == 0 { break; }
      PatternPart(pattern, length, off, buf[..n]);
      began := dev.rkdev.device.world;
      var written;
      written, done, chunk := WriteBuffer(dev, buf[..n], src, off, w0, base);
      if written.Err? { return Err(written.error), done, chunk, began; }
      off, limit := off + n, limit - n;
    }
    return Ok(off), 0, 0, began;
  }

  lemma NothingAddressable(pos: nat)
    ensures Addressable(pos, 0)
  {
  }

  /** A 64-bit size cast to a signed number. */
  function AsI64(n: nat): (r: int)
    ensures n < U64_LIMIT ==> -0x8000_0000_0000_0000 <= r < 0x8000_0000_0000_0000
    ensures r == n || r == n - 0x1_0000_0000_0000_0000
  {
    if n < 0x8000_0000_0000_0000 then n else n - U64_LIMIT
  }

  /** How the interpretation of an image ends. */
  datatype Stop = Completed | AddressStop | SeekStop | EofStop | UnknownStop | MagicStop | VersionStop | TooLargeStop

  /** What an image stores where, where the cursor ends up, and how the interpretation ends. */
  datatype Outcome = Outcome(patch: Patch, cursor: nat, stop: Stop)

  function Prepend(m: Patch, o: Outcome): Outcome {
    o.(patch := m + o.patch)
  }

  /** The next `left` chunks, the first with its header at `at`, for a device whose cursor is at `cursor`. */
  function Interpret(data: seq<byte>, h: SparseHeader, left: nat, at: nat, cursor: nat, size: nat): Outcome
    decreases left
  {
    if left == 0 then Outcome(map[], cursor, Completed)
    else if at + CHUNK_HEADER_LENGTH > |data| then Outcome(map[], cursor, EofStop)
    else
      var chunk := ParseChunk(data[at..at + CHUNK_HEADER_LENGTH]);
      var dataSize := DataSize(h, chunk);
      var body, next := at + h.chunkHdrSz, at + chunk.totalSz;
      if chunk.chunkType == CHUNK_TYPE_RAW then
        InterpretStream(data, h, left, next, cursor, size, Portion(data, body, dataSize))
      else if chunk.chunkType == CHUNK_TYPE_FILL then
        if body + 4 > |data| then Outcome(map[], cursor, EofStop)
        else InterpretStream(data, h, left, next, cursor, size, FillBytes(data[body..body + 4], dataSize))
      else if chunk.chunkType == CHUNK_TYPE_DONT_CARE then
        var target := cursor + AsI64(dataSize);
        if 0 <= target < size then Interpret(data, h, left - 1, next, target, size)
        else Outcome(map[], cursor, SeekStop)
      else if chunk.chunkType == CHUNK_TYPE_CRC32 then
        Interpret(data, h, left - 1, next, cursor, size)
      else Outcome(map[], cursor, UnknownStop)
  }

  function InterpretStream(data: seq<byte>, h: SparseHeader, left: nat, next: nat, cursor: nat, size: nat,
                           stream: seq<byte>): Outcome
    requires left > 0
    decreases left, 0
  {
    if !Addressable(cursor, |stream|) then Outcome(Splice(cursor, stream), cursor, AddressStop)
    else Prepend(Splice(cursor, stream), Interpret(data, h, left - 1, next, cursor + |stream|, size))
  }

  function TotalSize(h: SparseHeader): nat {
    Times(h.blkSz, h.totalBlks)
  }

  /** A whole image, read from `pos` of the file on, for a partition of a disk of `size` bytes. */
  function InterpretImage(data: seq<byte>, pos: nat, part: Partition, size: nat, cursor: nat): Outcome {
    if pos + SPARSE_HEADER_LENGTH > |data| then Outcome(map[], cursor, EofStop)
    else
      var h := ParseHeader(data[pos..pos + SPARSE_HEADER_LENGTH]);
      if h.magic != SPARSE_HEADER_MAGIC then Outcome(map[], cursor, MagicStop)
      else if h.majorVersion > 1 || h.minorVersion > 0 then Outcome(map[], cursor, VersionStop)
      else if TotalSize(h) > part.length then Outcome(map[], cursor, TooLargeStop)
      else if part.start >= size then Outcome(map[], cursor, SeekStop)
      else Interpret(data, h, h.totalChunks, h.fileHdrSz, part.start, size)
  }

  predicate Reported(stop: Stop, e: ImageError) {
    match stop
    case Completed => false
    case AddressStop => e.Io? && AddressError(e.error)
    case SeekStop => e == Io(OutOfRange)
    case EofStop => e == UnexpectedEof
    case UnknownStop => e == UnknownSparseChunkType
    case MagicStop => e == InvalidMagic
    case VersionStop => e == UnsupportedVersion
    case TooLargeStop => e == ImageTooLarge
  }

  lemma PrependTwice(m: Patch, n: Patch, o: Outcome)
    ensures Prepend(m, Prepend(n, o)) == Prepend(m + n, o)
  {
    assert m + (n + o.patch) == (m + n) + o.patch;
  }

  lemma PrependNothing(o: Outcome)
    ensures Prepend(map[], o) == o
  {
  }

  /** One stream of an image: copied, or broken off. */
  lemma StreamCarried(w0: World, w1: World, w: World, m: Patch, cursor: nat, stream: seq<byte>,
                      ok: bool, done: nat, chunk: nat, total: Outcome,
                      data: seq<byte>, h: SparseHeader, left: nat, next: nat, size: nat)
    requires left > 0 && Applied(w0, w1, m)
    requires total == Prepend(m, InterpretStream(data, h, left, next, cursor, size, stream))
    requires if ok then Streamed(w1, w, cursor, stream, |stream|) && Addressable(cursor, |stream|)
             else Broke(w1, w, cursor, stream, done, chunk)
    ensures w0.faults <= w1.faults <= w.faults && Aged(w1, w)
    ensures if ok then
              && Applied(w0, w, m + Splice(cursor, stream)) && (Clean(w1) && w.mishaps == w1.mishaps ==> Clean(w))
              && total == Prepend(m + Splice(cursor, stream), Interpret(data, h, left - 1, next, cursor + |stream|, size))
            else OutsideKept(w0, w, total.patch)
    ensures !Addressable(cursor, |stream|) ==> total.stop == AddressStop
  {
    hide Wf, Written, Stopped, Applied, OutsideKept, Clean, Interpret;
    var rest := Interpret(data, h, left - 1, next, cursor + |stream|, size);
    if ok {
      ApplyStream(w0, w1, w, m, cursor, stream);
      PrependTwice(m, Splice(cursor, stream), rest);
    } else {
      var tail := if Addressable(cursor, |stream|) then rest.patch else map[];
      BreakStream(w0, w1, w, m, cursor, stream, done, chunk, tail);
      assert Splice(cursor, stream) + map[] == Splice(cursor, stream);
    }
  }

  /** What one chunk has to achieve; its last write was begun in `began`. */
  ghost predicate ChunkCarried(w0: World, w1: World, began: World, w: World, timeout: nat, m: Patch, total: Outcome,
                               r: Result<nat, ImageError>, more: Patch, data: seq<byte>, h: SparseHeader, left: nat,
                               cursor: nat, size: nat)
    requires left > 0
  {
    && w0.faults <= w1.faults && Aged(w1, began) && Aged(began, w)
    && (if r.Ok? then
          && Applied(w0, w, m + more) && (Clean(w1) && w.mishaps == w1.mishaps ==> Clean(w))
          && total == Prepend(m + more, Interpret(data, h, left - 1, r.value, cursor, size))
        else OutsideKept(w0, w, total.patch))
    && (r.Err? && Clean(w1) && Healthy(w1, began, w, timeout) ==> Reported(total.stop, r.error))
  }

  /** Where the header of chunk `k` lies, counted from the one at `at`. */
  function ChunkAt(data: seq<byte>, at: nat, k: nat): nat
    decreases k
  {
    if k == 0 || at + CHUNK_HEADER_LENGTH > |data| then at
    else ChunkAt(data, at + ParseChunk(data[at..at + CHUNK_HEADER_LENGTH]).totalSz, k - 1)
  }

  lemma {:induction false} ChunkAfter(data: seq<byte>, at: nat, k: nat)
    requires ChunkAt(data, at, k) + CHUNK_HEADER_LENGTH <= |data|
    ensures ChunkAt(data, at, k + 1) == ChunkAt(data, ChunkAt(data, at, k), 1)
    decreases k
  {
    hide ParseChunk;
    if k > 0 && at + CHUNK_HEADER_LENGTH <= |data| {
      ChunkAfter(data, at + ParseChunk(data[at..at + CHUNK_HEADER_LENGTH]).totalSz, k - 1);
    }
  }

  /** One chunk more: what the first `k` chunks do, and then what the next one does. */
  lemma {:induction false} OneChunkMore(data: seq<byte>, h: SparseHeader, k: nat, at: nat, cursor: nat, size: nat)
    requires Interpret(data, h, k, at, cursor, size).stop == Completed
    ensures var o := Interpret(data, h, k, at, cursor, size);
            Interpret(data, h, k + 1, at, cursor, size)
              == Prepend(o.patch, Interpret(data, h, 1, ChunkAt(data, at, k), o.cursor, size))
    decreases k
  {
    hide ParseChunk, AsI64, DataSize, Addressable;
    if k == 0 {
      PrependNothing(Interpret(data, h, 1, at, cursor, size));
      return;
    }
    var chunk := ParseChunk(data[at..at + CHUNK_HEADER_LENGTH]);
    var dataSize := DataSize(h, chunk);
    var body, next := at + h.chunkHdrSz, at + chunk.totalSz;
    if chunk.chunkType == CHUNK_TYPE_RAW {
      StreamMoreChunks(data, h, k, next, cursor, size, Portion(data, body, dataSize));
    } else if chunk.chunkType == CHUNK_TYPE_FILL {
      StreamMoreChunks(data, h, k, next, cursor, size, FillBytes(data[body..body + 4], dataSize));
    } else if chunk.chunkType == CHUNK_TYPE_DONT_CARE {
      OneChunkMore(data, h, k - 1, next, cursor + AsI64(dataSize), size);
    } else {
      OneChunkMore(data, h, k - 1, next, cursor, size);
    }
  }

  lemma {:induction false} StreamMoreChunks(data: seq<byte>, h: SparseHeader, k: nat, next: nat, cursor: nat, size: nat,
                                            stream: seq<byte>)
    requires k > 0 && InterpretStream(data, h, k, next, cursor, size, stream).stop == Completed
    ensures var o := InterpretStream(data, h, k, next, cursor, size, stream);
            InterpretStream(data, h, k + 1, next, cursor, size, stream)
              == Prepend(o.patch, Interpret(data, h, 1, ChunkAt(data, next, k - 1), o.cursor, size))
    decreases k, 0
  {
    hide Interpret, ChunkAt, Addressable;
    OneChunkMore(data, h, k - 1, next, cursor + |stream|, size);
    var o := Interpret(data, h, k - 1, next, cursor + |stream|, size);
    PrependTwice(Splice(cursor, stream), o.patch,
                 Interpret(data, h, 1, ChunkAt(data, next, k - 1), o.cursor, size));
  }

  /** One chunk of an image by itself: done, or stopped in the middle of its stream. */
  ghost predicate ChunkDone(w1: World, w: World, data: seq<byte>, h: SparseHeader, at: nat, before: nat, cursor: nat,
                            size: nat, r: Result<nat, ImageError>, more: Patch, src: seq<byte>, done: nat, torn: nat)
  {
    var o := Interpret(data, h, 1, at, before, size);
    if r.Ok? then o == Outcome(more, cursor, Completed) && r.value == ChunkAt(data, at, 1)
                  && at + CHUNK_HEADER_LENGTH <= |data|
    else o.patch == Splice(before, src) && Broke(w1, w, before, src, done, torn)
  }

  lemma StreamAlone(data: seq<byte>, h: SparseHeader, next: nat, cursor: nat, size: nat, stream: seq<byte>)
    ensures var o := InterpretStream(data, h, 1, next, cursor, size, stream);
            && o.patch == Splice(cursor, stream)
            && (Addressable(cursor, |stream|) ==> o == Outcome(Splice(cursor, stream), cursor + |stream|, Completed))
  {
    hide Addressable;
    InterpretEnd(data, h, next, cursor + |stream|, size, Splice(cursor, stream));
  }

  lemma StreamDone(w1: World, w: World, data: seq<byte>, h: SparseHeader, at: nat, cursor: nat, size: nat,
                   r: Result<nat, ImageError>, src: seq<byte>, done: nat, torn: nat)
    requires at + CHUNK_HEADER_LENGTH <= |data|
    requires var next := at + ParseChunk(data[at..at + CHUNK_HEADER_LENGTH]).totalSz;
             && Interpret(data, h, 1, at, cursor, size) == InterpretStream(data, h, 1, next, cursor, size, src)
             && (r.Ok? ==> r.value == next && Addressable(cursor, |src|))
    requires r.Err? ==> Broke(w1, w, cursor, src, done, torn)
    ensures ChunkDone(w1, w, data, h, at, cursor, cursor + |src|, size, r, Splice(cursor, src), src, done, torn)
    ensures forall p: nat | r.Err? :: ChunkDone(w1, w, data, h, at, cursor, p, size, r, Splice(cursor, src), src, done, torn)
  {
    hide Broke, ParseChunk, Interpret, InterpretStream, Addressable;
    var next := at + ParseChunk(data[at..at + CHUNK_HEADER_LENGTH]).totalSz;
    StreamAlone(data, h, next, cursor, size, src);
    assert ChunkAt(data, at, 1) == ChunkAt(data, next, 0);
  }

  /** The chunk with its header at `at` is this stream. */
  predicate IsStream(data: seq<byte>, h: SparseHeader, left: nat, at: nat, next: nat, cursor: nat, size: nat, src: seq<byte>)
    requires left > 0
  {
    && at + CHUNK_HEADER_LENGTH <= |data| && next == at + ParseChunk(data[at..at + CHUNK_HEADER_LENGTH]).totalSz
    && Interpret(data, h, left, at, cursor, size) == InterpretStream(data, h, left, next, cursor, size, src)
    && Interpret(data, h, 1, at, cursor, size) == InterpretStream(data, h, 1, next, cursor, size, src)
  }

  /** A RAW chunk: bytes of the file. */
  method WriteRaw(dev: RkBlockDevice, img: ImageReader, h: SparseHeader, dataSize: nat, ghost at: nat, next: nat,
                  ghost left: nat, ghost w0: World, ghost m: Patch, ghost total: Outcome)
    returns (r: Result<nat, ImageError>, ghost more: Patch, ghost src: seq<byte>, ghost done: nat, ghost torn: nat,
             ghost began: World)
    requires left > 0 && Applied(w0, dev.rkdev.device.world, m)
    requires total == Prepend(m, Interpret(img.data, h, left, at, dev.pos, dev.diskSizeBytes))
    requires IsStream(img.data, h, left, at, next, dev.pos, dev.diskSizeBytes, Portion(img.data, img.pos, dataSize))
    modifies dev`pos, dev.rkdev.device, img
    ensures ChunkCarried(w0, old(dev.rkdev.device.world), began, dev.rkdev.device.world, dev.timeout, m, total, r, more,
                         img.data, h, left, dev.pos, dev.diskSizeBytes)
    ensures ChunkDone(old(dev.rkdev.device.world), dev.rkdev.device.world, img.data, h, at, old(dev.pos), dev.pos,
                      dev.diskSizeBytes, r, more, src, done, torn)
  {
    hide Wf, Clean, Streamed, Broke, Applied, OutsideKept, Addressable, Later, Interpret, InterpretStream, ParseChunk;
    ghost var w1, cursor := dev.rkdev.device.world, dev.pos;
    AppliedFacts(w0, w1, m);
    var stream := img.Take(dataSize);
    var copied;
    copied, done, torn, began := Copy(dev, stream);
    src, more := stream, Splice(cursor, stream);
    StreamCarried(w0, w1, dev.rkdev.device.world, m, cursor, stream, copied.Ok?, done, torn, total,
                  img.data, h, left, next, dev.diskSizeBytes);
    r := if copied.Ok? then Ok(next) else Err(Io(copied.error));
    StreamDone(w1, dev.rkdev.device.world, img.data, h, at, cursor, dev.diskSizeBytes, r, src, done, torn);
  }

  /** A FILL chunk: a 4-byte pattern. */
  method WriteFill(dev: RkBlockDevice, img: ImageReader, h: SparseHeader, pattern: seq<byte>, dataSize: nat,
                   ghost at: nat, next: nat, ghost left: nat, ghost w0: World, ghost m: Patch, ghost total: Outcome)
    returns (r: Result<nat, ImageError>, ghost more: Patch, ghost src: seq<byte>, ghost done: nat, ghost torn: nat,
             ghost began: World)
    requires left > 0 && Applied(w0, dev.rkdev.device.world, m) && |pattern| == 4
    requires total == Prepend(m, Interpret(img.data, h, left, at, dev.pos, dev.diskSizeBytes))
    requires IsStream(img.data, h, left, at, next, dev.pos, dev.diskSizeBytes, FillBytes(pattern, dataSize))
    modifies dev`pos, dev.rkdev.device
    ensures ChunkCarried(w0, old(dev.rkdev.device.world), began, dev.rkdev.device.world, dev.timeout, m, total, r, more,
                         img.data, h, left, dev.pos, dev.diskSizeBytes)
    ensures ChunkDone(old(dev.rkdev.device.world), dev.rkdev.device.world, img.data, h, at, old(dev.pos), dev.pos,
                      dev.diskSizeBytes, r, more, src, done, torn)
  {
    hide Wf, Clean, Streamed, Broke, Applied, OutsideKept, Addressable, Later, Interpret, InterpretStream, ParseChunk;
    ghost var w1, cursor, stream := dev.rkdev.device.world, dev.pos, FillBytes(pattern, dataSize);
    AppliedFacts(w0, w1, m);
    var copied;
    copied, done, torn, began := CopyFill(dev, pattern, dataSize);
    src, more := stream, Splice(cursor, stream);
    StreamCarried(w0, w1, dev.rkdev.device.world, m, cursor, stream, copied.Ok?, done, torn, total,
                  img.data, h, left, next, dev.diskSizeBytes);
    r := if copied.Ok? then Ok(next) else Err(Io(copied.error));
    StreamDone(w1, dev.rkdev.device.world, img.data, h, at, cursor, dev.diskSizeBytes, r, src, done, torn);
  }

  /** One chunk: header at `at`, data into the device. `m` is what the image has stored so far, `total` what the
      interpretation of the whole image is. */
  method WriteChunk(dev: RkBlockDevice, img: ImageReader, h: SparseHeader, at: nat,
                    ghost left: nat, ghost w0: World, ghost m: Patch, ghost total: Outcome)
    returns (r: Result<nat, ImageError>, ghost more: Patch, ghost src: seq<byte>, ghost done: nat, ghost torn: nat,
             ghost began: World)
    requires left > 0 && Applied(w0, dev.rkdev.device.world, m)
    requires total == Prepend(m, Interpret(img.data, h, left, at, dev.pos, dev.diskSizeBytes))
    modifies dev`pos, dev.rkdev.device, img
    ensures ChunkCarried(w0, old(dev.rkdev.device.world), began, dev.rkdev.device.world, dev.timeout, m, total, r, more,
                         img.data, h, left, dev.pos, dev.diskSizeBytes)
    ensures ChunkDone(old(dev.rkdev.device.world), dev.rkdev.device.world, img.data, h, at, old(dev.pos), dev.pos,
                      dev.diskSizeBytes, r, more, src, done, torn)
  {
    hide Wf, Clean, Applied, OutsideKept, InterpretStream, Times, ChunkCarried, ChunkDone, Later, ParseChunk, AsI64, DataSize,
         Broke, Addressable;
    ghost var w1, cursor, size := dev.rkdev.device.world, dev.pos, dev.diskSizeBytes;
    more, src, done, torn, began := map[], [], 0, 0, w1;
    AppliedFacts(w0, w1, m);
    img.SeekStart(at);
    var header := img.ReadExact(CHUNK_HEADER_LENGTH);
    if header.None? {
      ChunkStops(w0, w1, m, total, UnexpectedEof, img.data, h, left, at, cursor, size, dev.timeout);
      return Err(UnexpectedEof), more, src, 0, 0, w1;
    }
    var chunk := ParseChunk(header.value);
    var dataSize := DataSize(h, chunk);
    var next := at + chunk.totalSz;
    img.SeekStart(at + h.chunkHdrSz);
    if chunk.chunkType == CHUNK_TYPE_RAW {
      r, more, src, done, torn, began := WriteRaw(dev, img, h, dataSize, at, next, left, w0, m, total);
    } else if chunk.chunkType == CHUNK_TYPE_FILL {
      var pattern := img.ReadExact(4);
      if pattern.None? {
        ChunkStops(w0, w1, m, total, UnexpectedEof, img.data, h, left, at, cursor, size, dev.timeout);
        return Err(UnexpectedEof), more, src, 0, 0, w1;
      }
      r, more, src, done, torn, began := WriteFill(dev, img, h, pattern.value, dataSize, at, next, left, w0, m, total);
    } else {
      r := PassChunk(dev, chunk, dataSize, img.data, h, at, left, w0, m, total);
    }
  }

  /** A chunk without data of its own. */
  method PassChunk(dev: RkBlockDevice, chunk: ChunkHeader, dataSize: nat, ghost data: seq<byte>, ghost h: SparseHeader,
                   at: nat, ghost left: nat, ghost w0: World, ghost m: Patch, ghost total: Outcome)
    returns (r: Result<nat, ImageError>)
    requires left > 0 && Applied(w0, dev.rkdev.device.world, m)
    requires total == Prepend(m, Interpret(data, h, left, at, dev.pos, dev.diskSizeBytes))
    requires at + CHUNK_HEADER_LENGTH <= |data| && chunk == ParseChunk(data[at..at + CHUNK_HEADER_LENGTH])
    requires chunk.chunkType != CHUNK_TYPE_RAW && chunk.chunkType != CHUNK_TYPE_FILL && dataSize == DataSize(h, chunk)
    modifies dev`pos
    ensures var w := dev.rkdev.device.world;
            && ChunkCarried(w0, w, w, w, dev.timeout, m, total, r, map[], data, h, left, dev.pos, dev.diskSizeBytes)
            && ChunkDone(w, w, data, h, at, old(dev.pos), dev.pos, dev.diskSizeBytes, r, map[], [], 0, 0)
  {
    hide Wf, Clean, Applied, OutsideKept, InterpretStream, Times, ChunkCarried, ChunkDone, Later, ParseChunk, AsI64, DataSize;
    ghost var w, cursor, size := dev.rkdev.device.world, dev.pos, dev.diskSizeBytes;
    var next := at + chunk.totalSz;
    if chunk.chunkType == CHUNK_TYPE_DONT_CARE {
      var moved := dev.Seek(Current(AsI64(dataSize)));
      if moved.Err? {
        ChunkStops(w0, w, m, total, Io(OutOfRange), data, h, left, at, cursor, size, dev.timeout);
        return Err(Io(moved.error));
      }
      ChunkPasses(w0, w, m, total, at, next, data, h, left, cursor, dev.pos, size, dev.timeout);
      return Ok(next);
    }
    if chunk.chunkType == CHUNK_TYPE_CRC32 {
      ChunkPasses(w0, w, m, total, at, next, data, h, left, cursor, dev.pos, size, dev.timeout);
      return Ok(next);
    }
    ChunkStops(w0, w, m, total, UnknownSparseChunkType, data, h, left, at, cursor, size, dev.timeout);
    return Err(UnknownSparseChunkType);
  }

  /** A chunk the interpretation stops at. */
  lemma ChunkStops(w0: World, w: World, m: Patch, total: Outcome, e: ImageError,
                   data: seq<byte>, h: SparseHeader, left: nat, at: nat, cursor: nat, size: nat, timeout: nat)
    requires left > 0 && Applied(w0, w, m) && total == Prepend(m, Interpret(data, h, left, at, cursor, size))
    requires Reported(total.stop, e) && Interpret(data, h, 1, at, cursor, size).patch == map[]
    ensures ChunkCarried(w0, w, w, w, timeout, m, total, Err(e), map[], data, h, left, cursor, size)
    ensures ChunkDone(w, w, data, h, at, cursor, cursor, size, Err(e), map[], [], 0, 0)
  {
    hide Wf, Clean, Applied, OutsideKept, Interpret, Broke;
    AppliedFacts(w0, w, m);
    AppliedOutside(w0, w, m, Interpret(data, h, left, at, cursor, size).patch);
    NothingBroke(w, cursor, []);
  }

  /** A chunk that stores nothing. */
  lemma ChunkPasses(w0: World, w: World, m: Patch, total: Outcome, at: nat, next: nat,
                    data: seq<byte>, h: SparseHeader, left: nat, before: nat, cursor: nat, size: nat, timeout: nat)
    requires left > 0 && Applied(w0, w, m) && total == Prepend(m, Interpret(data, h, left - 1, next, cursor, size))
    requires at + CHUNK_HEADER_LENGTH <= |data| && next == at + ParseChunk(data[at..at + CHUNK_HEADER_LENGTH]).totalSz
    requires Interpret(data, h, 1, at, before, size) == Interpret(data, h, 0, next, cursor, size)
    ensures ChunkCarried(w0, w, w, w, timeout, m, total, Ok(next), map[], data, h, left, cursor, size)
    ensures ChunkDone(w, w, data, h, at, before, cursor, size, Ok(next), map[], [], 0, 0)
  {
    hide Wf, Clean, Applied, OutsideKept, ParseChunk;
    AppliedFacts(w0, w, m);
    var nothing: Patch := map[];
    assert m + nothing == m;
    assert ChunkAt(data, at, 1) == ChunkAt(data, next, 0);
  }

  lemma AppliedFacts(w0: World, w: World, m: Patch)
    requires Applied(w0, w, m)
    ensures Wf(w) && w0.faults <= w.faults
  {
  }

  lemma CarriedFacts(w0: World, w1: World, began: World, w: World, timeout: nat, m: Patch, total: Outcome,
                     r: Result<nat, ImageError>, more: Patch,
                     data: seq<byte>, h: SparseHeader, left: nat, cursor: nat, size: nat)
    requires left > 0 && ChunkCarried(w0, w1, began, w, timeout, m, total, r, more, data, h, left, cursor, size)
    ensures w0.faults <= w1.faults && Aged(w1, began) && Aged(began, w)
    ensures if r.Ok? then
              && Applied(w0, w, m + more) && (Clean(w1) && w.mishaps == w1.mishaps ==> Clean(w))
              && total == Prepend(m + more, Interpret(data, h, left - 1, r.value, cursor, size))
            else OutsideKept(w0, w, total.patch)
    ensures r.Err? && Clean(w1) && Healthy(w1, began, w, timeout) ==> Reported(total.stop, r.error)
  {
  }

  /** A call that stopped in chunk `k`: the chunks before it are in place, and so is the beginning of its stream;
      the bytes of the command that failed are old or new, and everything else is as it was. */
  ghost predicate StoppedIn(w0: World, w: World, data: seq<byte>, h: SparseHeader, start: nat, size: nat,
                            k: nat, src: seq<byte>, done: nat, torn: nat) {
    var before := Interpret(data, h, k, h.fileHdrSz, start, size);
    var through := Interpret(data, h, k + 1, h.fileHdrSz, start, size);
    && k < h.totalChunks && before.stop == Completed
    && through.patch == before.patch + Splice(before.cursor, src)
    && Interrupted(w0, w, before.patch, before.cursor, src, done, torn)
  }

  /** The next chunk of an image, as part of the image. */
  lemma ChunkInImage(w0: World, w1: World, w: World, data: seq<byte>, h: SparseHeader, start: nat, size: nat, k: nat,
                     m: Patch, at: nat, before: nat, cursor: nat, r: Result<nat, ImageError>, more: Patch,
                     src: seq<byte>, done: nat, torn: nat)
    requires k < h.totalChunks && Applied(w0, w1, m) && at == ChunkAt(data, h.fileHdrSz, k)
    requires Interpret(data, h, k, h.fileHdrSz, start, size) == Outcome(m, before, Completed)
    requires ChunkDone(w1, w, data, h, at, before, cursor, size, r, more, src, done, torn)
    ensures if r.Ok? then
              && Interpret(data, h, k + 1, h.fileHdrSz, start, size) == Outcome(m + more, cursor, Completed)
              && r.value == ChunkAt(data, h.fileHdrSz, k + 1)
            else StoppedIn(w0, w, data, h, start, size, k, src, done, torn)
  {
    hide Applied, Broke, Interrupted, Interpret, ChunkAt;
    OneChunkMore(data, h, k, h.fileHdrSz, start, size);
    if r.Ok? {
      ChunkAfter(data, h.fileHdrSz, k);
    } else {
      InterruptStream(w0, w1, w, m, before, src, done, torn);
    }
  }

  /** Write a sparse image into a partition. A success is exactly what the interpretation of the image says; a
      failure has done so for the first `k` chunks and for a beginning of the next one; and when the device works
      and no write, the last one begun in `began`, takes as long as its timeout, the call succeeds exactly when the
      interpretation runs to the end. */
  method WriteSparseImage(dev: RkBlockDevice, part: Partition, img: ImageReader)
    returns (r: Result<(), ImageError>, ghost k: nat, ghost src: seq<byte>, ghost done: nat, ghost torn: nat,
             ghost began: World)
    requires Wf(dev.rkdev.device.world)
    modifies dev`pos, dev.rkdev.device, img
    ensures var w0, w := old(dev.rkdev.device.world), dev.rkdev.device.world;
            var o := InterpretImage(img.data, old(img.pos), part, dev.diskSizeBytes, old(dev.pos));
            && (if r.Ok? then o.stop == Completed && dev.pos == o.cursor && Applied(w0, w, o.patch)
                else OutsideKept(w0, w, o.patch))
            && (r.Err? ==>
                  || w == w0
                  || (&& old(img.pos) + SPARSE_HEADER_LENGTH <= |img.data|
                      && StoppedIn(w0, w, img.data,
                                   ParseHeader(img.data[old(img.pos)..old(img.pos) + SPARSE_HEADER_LENGTH]),
                                   part.start, dev.diskSizeBytes, k, src, done, torn)))
            && Aged(w0, began) && Aged(began, w)
            && (Clean(w0) && Healthy(w0, began, w, dev.timeout) ==>
                  if o.stop == Completed then r.Ok? else r.Err? && Reported(o.stop, r.error))
  {
    hide Wf, Clean, Applied, OutsideKept, Interpret, Times, ChunkCarried, ChunkDone, StoppedIn, Later, ParseHeader, ChunkAt;
    ghost var w0, size := dev.rkdev.device.world, dev.diskSizeBytes;
    ghost var total := InterpretImage(img.data, img.pos, part, size, dev.pos);
    NothingApplied(w0);
    k, src, done, torn, began := 0, [], 0, 0, w0;
    var header := img.ReadExact(SPARSE_HEADER_LENGTH);
    if header.None? { return Err(UnexpectedEof), k, src, done, torn, w0; }
    var h := ParseHeader(header.value);
    if h.magic != SPARSE_HEADER_MAGIC { return Err(InvalidMagic), k, src, done, torn, w0; }
    if h.majorVersion > 1 || h.minorVersion > 0 { return Err(UnsupportedVersion), k, src, done, torn, w0; }
    if TotalSize(h) > part.length { return Err(ImageTooLarge), k, src, done, torn, w0; }
    var at: nat := h.fileHdrSz;
    var moved := dev.Seek(Start(part.start));
    if moved.Err? { return Err(Io(moved.error)), k, src, done, torn, w0; }
    PrependNothing(Interpret(img.data, h, h.totalChunks, at, dev.pos, size));
    NoChunksYet(img.data, h, at, dev.pos, size);
    var left: nat := h.totalChunks;
    ghost var m: Patch := map[];
    while left > 0
      invariant k + left == h.totalChunks
      invariant Applied(w0, dev.rkdev.device.world, m)
      invariant total == Prepend(m, Interpret(img.data, h, left, at, dev.pos, size))
      invariant Interpret(img.data, h, k, h.fileHdrSz, part.start, size) == Outcome(m, dev.pos, Completed)
      invariant at == ChunkAt(img.data, h.fileHdrSz, k)
      invariant Aged(w0, began) && Aged(began, dev.rkdev.device.world)
      invariant Clean(w0) && dev.rkdev.device.world.mishaps == w0.mishaps ==> Clean(dev.rkdev.device.world)
    {
      ghost var w1, before := dev.rkdev.device.world, dev.pos;
      var next; ghost var more;
      next, more, src, done, torn, began := WriteChunk(dev, img, h, at, left, w0, m, total);
      CarriedFacts(w0, w1, began, dev.rkdev.device.world, dev.timeout, m, total, next, more, img.data, h, left, dev.pos,
                   size);
      ChunkInImage(w0, w1, dev.rkdev.device.world, img.data, h, part.start, size, k, m, at, before, dev.pos,
                   next, more, src, done, torn);
      if next.Err? { return Err(next.error), k, src, done, torn, began; }
      at, left, m, k := next.value, left - 1, m + more, k + 1;
    }
    InterpretEnd(img.data, h, at, dev.pos, size, m);
    r := Ok(());
  }

  lemma NoChunksYet(data: seq<byte>, h: SparseHeader, at: nat, cursor: nat, size: nat)
    ensures Interpret(data, h, 0, at, cursor, size) == Outcome(map[], cursor, Completed)
    ensures ChunkAt(data, at, 0) == at
  {
  }

  lemma InterpretEnd(data: seq<byte>, h: SparseHeader, at: nat, cursor: nat, size: nat, m: Patch)
    ensures Prepend(m, Interpret(data, h, 0, at, cursor, size)) == Outcome(m, cursor, Completed)
  {
    var nothing: Patch := map[];
    assert m + nothing == m;
  }

  /** Write an image into a partition as it is, as far as the partition reaches. */
  method WriteRegularImage(dev: RkBlockDevice, part: Partition, img: ImageReader)
    returns (r: Result<(), ImageError>, ghost done: nat, ghost chunk: nat, ghost began: World)
    requires Wf(dev.rkdev.device.world)
    modifies dev`pos, dev.rkdev.device, img
    ensures var w0, w := old(dev.rkdev.device.world), dev.rkdev.device.world;
            var src := Portion(img.data, old(img.pos), part.length);
            && (if r.Ok? then Applied(w0, w, Splice(part.start, src)) && dev.pos == part.start + |src|
                else Broke(w0, w, part.start, src, done, chunk) && OutsideKept(w0, w, Splice(part.start, src)))
            && Aged(w0, began) && Aged(began, w)
            && (Clean(w0) && Healthy(w0, began, w, dev.timeout) ==>
                  (r.Ok? <==> part.start < dev.diskSizeBytes && Addressable(part.start, |src|)))
  {
    hide Wf, Clean, Applied, OutsideKept, Streamed, Broke, Addressable, Later;
    ghost var w0 := dev.rkdev.device.world;
    NothingApplied(w0);
    NothingBroke(w0, part.start, Portion(img.data, img.pos, part.length));
    done, chunk, began := 0, 0, w0;
    var moved := dev.Seek(Start(part.start));
    if moved.Err? { return Err(Io(moved.error)), 0, 0, w0; }
    var src := img.Take(part.length);
    var copied;
    copied, done, chunk, began := Copy(dev, src);
    ghost var nothing: Patch := map[];
    assert nothing + Splice(part.start, src) == Splice(part.start, src);
    if copied.Err? {
      BreakStream(w0, w0, dev.rkdev.device.world, map[], part.start, src, done, chunk, map[]);
      assert nothing + (Splice(part.start, src) + nothing) == Splice(part.start, src);
      return Err(Io(copied.error)), done, chunk, began;
    }
    ApplyStream(w0, w0, dev.rkdev.device.world, map[], part.start, src);
    return Ok(()), done, chunk, began;
  }

  /** A regular image stays in its partition, and is written as far as it fits, from wherever the file is read. */
  lemma RegularContained(data: seq<byte>, pos: nat, part: Partition)
    ensures var src := Portion(data, pos, part.length);
            && (pos <= |data| ==> src == data[pos..][..Min(|data| - pos, part.length)])
            && (pos >= |data| ==> src == [])
            && (forall i :: i in Splice(part.start, src) ==> part.start <= i < part.start + part.length)
  {
  }
}
