/** What a sparse image means: its expansion. The interpreter agrees with it. */
module SparseMeanings {
  import opened Bytes
  import opened Link
  import opened Plans
  import opened Blocks
  import opened Effects
  import opened BlockDevices
  import opened Streams
  import opened SparseImages

  datatype Chunk = Raw(bytes: seq<byte>) | Fill(pattern: seq<byte>, length: nat) | Skip(length: nat) | Crc

  /** The chunks of an image, if its headers and its data are all there and of a known kind. */
  function Chunks(data: seq<byte>, h: SparseHeader, left: nat, at: nat): Option<seq<Chunk>>
    decreases left
  {
    if left == 0 then Some([])
    else if at + CHUNK_HEADER_LENGTH > |data| then None
    else
      var chunk := ParseChunk(data[at..at + CHUNK_HEADER_LENGTH]);
      var first := FirstChunk(data, chunk.chunkType, at + h.chunkHdrSz, DataSize(h, chunk));
      var others := Chunks(data, h, left - 1, at + chunk.totalSz);
      if first.None? || others.None? then None else Some([first.value] + others.value)
  }

  function FirstChunk(data: seq<byte>, kind: u16, body: nat, length: nat): Option<Chunk> {
    if kind == CHUNK_TYPE_RAW then
      if body + length > |data| then None else Some(Raw(data[body..body + length]))
    else if kind == CHUNK_TYPE_FILL then
      if body + 4 > |data| then None else Some(Fill(data[body..body + 4], length))
    else if kind == CHUNK_TYPE_DONT_CARE then Some(Skip(length))
    else if kind == CHUNK_TYPE_CRC32 then Some(Crc)
    else None
  }

  predicate ChunkOk(c: Chunk) {
    c.Fill? ==> |c.pattern| == 4 && c.length % 4 == 0
  }

  predicate ChunksOk(cs: seq<Chunk>) {
    forall k | 0 <= k < |cs| :: ChunkOk(cs[k])
  }

  /** The bytes a chunk puts on the disk; None where it keeps what is there. */
  function ExpandOne(c: Chunk): seq<Option<byte>> {
    match c
    case Raw(bytes) => AllSome(bytes)
    case Fill(pattern, length) => if |pattern| == 4 then AllSome(FillBytes(pattern, length)) else []
    case Skip(length) => seq(length, _ => None)
    case Crc => []
  }

  function AllSome(bytes: seq<byte>): (e: seq<Option<byte>>)
    ensures |e| == |bytes|
  {
    seq(|bytes|, i requires 0 <= i < |bytes| => Some(bytes[i]))
  }

  function Expand(cs: seq<Chunk>): seq<Option<byte>> {
    if cs == [] then [] else ExpandOne(cs[0]) + Expand(cs[1..])
  }

  /** An expansion laid over the disk from `start` on. */
  function PatchOf(start: int, e: seq<Option<byte>>): (m: Patch)
    ensures forall i :: i in m <==> start <= i < start + |e| && e[i - start].Some?
    ensures forall i | i in m :: m[i] == e[i - start].value
  {
    if e == [] then map[]
    else
      var n := |e| - 1;
      var m := PatchOf(start, e[..n]);
      if e[n].Some? then m[start + n := e[n].value] else m
  }

  lemma PatchOfConcat(start: int, a: seq<Option<byte>>, b: seq<Option<byte>>)
    ensures PatchOf(start, a + b) == PatchOf(start, a) + PatchOf(start + |a|, b)
  {
  }

  lemma PatchOfBytes(start: int, bytes: seq<byte>)
    ensures PatchOf(start, AllSome(bytes)) == Splice(start, bytes)
  {
  }

  lemma PatchOfNothing(start: int, n: nat)
    ensures PatchOf(start, seq(n, _ => None)) == map[]
  {
  }

  /** Some DONT_CARE chunk ends at (or beyond) the end of the disk. */
  predicate SkipsToEnd(cs: seq<Chunk>, cursor: nat, size: nat) {
    cs != [] &&
    var next := cursor + |ExpandOne(cs[0])|;
    (cs[0].Skip? && next >= size) || SkipsToEnd(cs[1..], next, size)
  }

  predicate DiskSize(size: nat) {
    size % SECTOR == 0 && size / SECTOR < U32_LIMIT
  }

  lemma AddressableInside(cursor: nat, length: nat, size: nat)
    requires cursor + length <= size && DiskSize(size)
    ensures Addressable(cursor, length)
  {
    InsideDisk(cursor, length, size);
  }

  /** What the interpreter has to say about chunks `cs` at `cursor`. Either way it stores the whole expansion: a
      DONT_CARE chunk that ends at the end of the disk leaves room for nothing after it. */
  ghost predicate Means(o: Outcome, cs: seq<Chunk>, cursor: nat, size: nat) {
    && o.patch == PatchOf(cursor, Expand(cs))
    && if SkipsToEnd(cs, cursor, size) then o.stop == SeekStop
       else o.stop == Completed && o.cursor == cursor + |Expand(cs)|
  }

  lemma StreamMeans(data: seq<byte>, h: SparseHeader, left: nat, next: nat, cursor: nat, size: nat,
                    bytes: seq<byte>, c: Chunk, others: seq<Chunk>)
    requires left > 0 && DiskSize(size) && cursor + |bytes| <= size
    requires (c.Raw? || c.Fill?) && ExpandOne(c) == AllSome(bytes)
    requires Means(Interpret(data, h, left - 1, next, cursor + |bytes|, size), others, cursor + |bytes|, size)
    ensures Means(InterpretStream(data, h, left, next, cursor, size, bytes), [c] + others, cursor, size)
  {
    hide Interpret, Expand, ExpandOne, Addressable, DiskSize, SkipsToEnd, AllSome, PatchOf, Splice;
    AddressableInside(cursor, |bytes|, size);
    var e := Expand(others);
    ExpandCons(c, others);
    PatchOfConcat(cursor, AllSome(bytes), e);
    PatchOfBytes(cursor, bytes);
    SkipsToEndCons(c, others, cursor, size);
  }

  lemma SkipsToEndCons(c: Chunk, others: seq<Chunk>, cursor: nat, size: nat)
    ensures SkipsToEnd([c] + others, cursor, size)
       <==> (c.Skip? && cursor + |ExpandOne(c)| >= size) || SkipsToEnd(others, cursor + |ExpandOne(c)|, size)
  {
    assert ([c] + others)[1..] == others;
  }

  lemma SkipMeans(rest: Outcome, cursor: nat, size: nat, length: nat, others: seq<Chunk>)
    requires cursor + length < size && Means(rest, others, cursor + length, size)
    ensures Means(rest, [Skip(length)] + others, cursor, size)
  {
    hide Expand;
    ExpandCons(Skip(length), others);
    PatchOfConcat(cursor, ExpandOne(Skip(length)), Expand(others));
    PatchOfNothing(cursor, length);
    var nothing: Patch := map[];
    assert nothing + PatchOf(cursor + length, Expand(others)) == PatchOf(cursor + length, Expand(others));
    assert ([Skip(length)] + others)[1..] == others;
  }

  lemma CrcMeans(rest: Outcome, cursor: nat, size: nat, others: seq<Chunk>)
    requires Means(rest, others, cursor, size)
    ensures Means(rest, [Crc] + others, cursor, size)
  {
    ExpandCons(Crc, others);
    assert ([Crc] + others)[1..] == others && ExpandOne(Crc) + Expand(others) == Expand(others);
  }

  lemma ExpandCons(c: Chunk, others: seq<Chunk>)
    ensures Expand([c] + others) == ExpandOne(c) + Expand(others)
  {
    assert ([c] + others)[1..] == others;
  }

  /** On a disk the expansion fits, the interpreter does exactly what the expansion says, unless it has to move
      the cursor to the end of the disk. */
  lemma {:induction false} InterpretMeans(data: seq<byte>, h: SparseHeader, left: nat, at: nat, cursor: nat, size: nat,
                                          cs: seq<Chunk>)
    requires Chunks(data, h, left, at) == Some(cs) && ChunksOk(cs)
    requires DiskSize(size) && cursor + |Expand(cs)| <= size
    ensures Means(Interpret(data, h, left, at, cursor, size), cs, cursor, size)
    decreases left
  {
    hide Means, Expand, ExpandOne, SkipsToEnd, InterpretStream, Interpret, Chunks, NextChunk;
    if left == 0 {
      NoChunks(data, h, at, cursor, size);
      return;
    }
    InterpretStep(data, h, left, at, cursor, size, cs);
    var c, others, next := cs[0], cs[1..], NextChunk(data, at);
    assert cs == [c] + others;
    assert forall k | 0 <= k < |others| :: others[k] == cs[k + 1];
    ExpandCons(c, others);
    InterpretMeans(data, h, left - 1, next, cursor + |ExpandOne(c)|, size, others);
    ChunkLength(c);
    match c
    case Raw(bytes) => StreamMeans(data, h, left, next, cursor, size, bytes, c, others);
    case Fill(pattern, length) => StreamMeans(data, h, left, next, cursor, size, FillBytes(pattern, length), c, others);
    case Skip(length) =>
      if cursor + length < size {
        SkipMeans(Interpret(data, h, left - 1, next, cursor + length, size), cursor, size, length, others);
      } else {
        SkipStops(cursor, size, length, others);
      }
    case Crc => CrcMeans(Interpret(data, h, left - 1, next, cursor, size), cursor, size, others);
  }

  function NextChunk(data: seq<byte>, at: nat): nat
    requires at + CHUNK_HEADER_LENGTH <= |data|
  {
    at + ParseChunk(data[at..at + CHUNK_HEADER_LENGTH]).totalSz
  }

  /** The interpreter and the list of chunks read the same chunk next. */
  lemma InterpretStep(data: seq<byte>, h: SparseHeader, left: nat, at: nat, cursor: nat, size: nat, cs: seq<Chunk>)
    requires left > 0 && Chunks(data, h, left, at) == Some(cs) && size < 0x8000_0000_0000_0000
    ensures at + CHUNK_HEADER_LENGTH <= |data| && cs != []
    ensures var next, o := NextChunk(data, at), Interpret(data, h, left, at, cursor, size);
            && Chunks(data, h, left - 1, next) == Some(cs[1..])
            && match cs[0]
               case Raw(bytes) => o == InterpretStream(data, h, left, next, cursor, size, bytes)
               case Fill(pattern, length) =>
                 |pattern| == 4 && o == InterpretStream(data, h, left, next, cursor, size, FillBytes(pattern, length))
               case Skip(length) =>
                 cursor + length <= size ==>
                   o == if cursor + length < size then Interpret(data, h, left - 1, next, cursor + length, size)
                        else Outcome(map[], cursor, SeekStop)
               case Crc => o == Interpret(data, h, left - 1, next, cursor, size)
  {
    hide InterpretStream, DataSize;
  }

  lemma NoChunks(data: seq<byte>, h: SparseHeader, at: nat, cursor: nat, size: nat)
    ensures Means(Interpret(data, h, 0, at, cursor, size), [], cursor, size)
    ensures Chunks(data, h, 0, at) == Some([])
  {
  }

  lemma ChunkLength(c: Chunk)
    requires ChunkOk(c)
    ensures match c
            case Raw(bytes) => ExpandOne(c) == AllSome(bytes)
            case Fill(pattern, length) => ExpandOne(c) == AllSome(FillBytes(pattern, length)) && |ExpandOne(c)| == length
            case Skip(length) => |ExpandOne(c)| == length
            case Crc => ExpandOne(c) == []
  {
  }

  lemma SkipStops(cursor: nat, size: nat, length: nat, others: seq<Chunk>)
    requires cursor + length >= size && cursor + |Expand([Skip(length)] + others)| <= size
    ensures Means(Outcome(map[], cursor, SeekStop), [Skip(length)] + others, cursor, size)
  {
    ExpandCons(Skip(length), others);
    assert Expand([Skip(length)] + others) == ExpandOne(Skip(length));
    PatchOfNothing(cursor, length);
  }

  /** Blocks of a multiple of 4 bytes leave no fragment of a pattern. */
  lemma {:induction false} WholePatterns(data: seq<byte>, h: SparseHeader, left: nat, at: nat, cs: seq<Chunk>)
    requires Chunks(data, h, left, at) == Some(cs) && h.blkSz % 4 == 0
    ensures ChunksOk(cs)
    decreases left
  {
    if left > 0 {
      var chunk := ParseChunk(data[at..at + CHUNK_HEADER_LENGTH]);
      WholePatterns(data, h, left - 1, at + chunk.totalSz, cs[1..]);
      MultipleOfFour(h.blkSz, chunk.chunkSz);
      forall k | 0 <= k < |cs| ensures ChunkOk(cs[k]) {
        if k > 0 { assert cs[k] == cs[1..][k - 1]; }
      }
    }
  }

  lemma MultipleOfFour(a: nat, b: nat)
    requires a % 4 == 0
    ensures Times(a, b) % 4 == 0
  {
    var q := a / 4;
    assert a * b == 4 * (q * b);
  }

  /** An image as the format has it: a supported header, every chunk and its data in the file, blocks of a
      multiple of 4 bytes, and chunks that add up to the blocks the header announces. */
  ghost predicate WellFormed(data: seq<byte>, pos: nat, cs: seq<Chunk>) {
    pos + SPARSE_HEADER_LENGTH <= |data| &&
    var h := ParseHeader(data[pos..pos + SPARSE_HEADER_LENGTH]);
    && h.magic == SPARSE_HEADER_MAGIC && h.majorVersion <= 1 && h.minorVersion == 0
    && h.blkSz % 4 == 0
    && Chunks(data, h, h.totalChunks, h.fileHdrSz) == Some(cs)
    && |Expand(cs)| == TotalSize(h)
  }

  lemma {:induction false} NoSkipToEnd(cs: seq<Chunk>, cursor: nat, size: nat)
    requires cursor + |Expand(cs)| < size
    ensures !SkipsToEnd(cs, cursor, size)
  {
    if cs != [] {
      NoSkipToEnd(cs[1..], cursor + |ExpandOne(cs[0])|, size);
    }
  }

  /** A well-formed image for a partition within the disk: too large for it, or expanded into it, unless a
      DONT_CARE chunk reaches the very end of the disk. */
  lemma ImageMeans(data: seq<byte>, pos: nat, part: Partition, size: nat, cursor: nat, cs: seq<Chunk>)
    requires WellFormed(data, pos, cs) && DiskSize(size) && part.start < size && part.start + part.length <= size
    ensures var o := InterpretImage(data, pos, part, size, cursor);
            if |Expand(cs)| > part.length then o == Outcome(map[], cursor, TooLargeStop)
            else && o.patch == PatchOf(part.start, Expand(cs))
                 && if SkipsToEnd(cs, part.start, size) then o.stop == SeekStop
                    else o.stop == Completed && o.cursor == part.start + |Expand(cs)|
    ensures part.start + part.length < size && |Expand(cs)| <= part.length ==> !SkipsToEnd(cs, part.start, size)
  {
    hide Interpret, Chunks, Expand, SkipsToEnd, ParseHeader;
    var h := ParseHeader(data[pos..pos + SPARSE_HEADER_LENGTH]);
    WholePatterns(data, h, h.totalChunks, h.fileHdrSz, cs);
    if |Expand(cs)| <= part.length {
      InterpretMeans(data, h, h.totalChunks, h.fileHdrSz, part.start, size, cs);
      if part.start + part.length < size { NoSkipToEnd(cs, part.start, size); }
    }
  }

  /** What a successful call leaves behind, byte by byte: the expansion where it says something, the old disk
      everywhere else, which includes everything outside the partition. */
  lemma ImageOnDisk(w0: World, w: World, data: seq<byte>, pos: nat, part: Partition, size: nat, cursor: nat, cs: seq<Chunk>)
    requires WellFormed(data, pos, cs) && DiskSize(size) && part.start < size && part.start + part.length <= size
    requires var o := InterpretImage(data, pos, part, size, cursor); o.stop == Completed && Applied(w0, w, o.patch)
    requires Clean(w0) && w.mishaps == w0.mishaps
    ensures |w.disk| == |w0.disk| && |Expand(cs)| <= part.length
    ensures forall i | 0 <= i < |w.disk| ::
      w.disk[i] == if part.start <= i < part.start + |Expand(cs)| && Expand(cs)[i - part.start].Some?
                   then Expand(cs)[i - part.start].value else w0.disk[i]
  {
    hide Interpret, Chunks, Expand, SkipsToEnd, InterpretImage;
    ImageMeans(data, pos, part, size, cursor, cs);
    PatchedClean(w0, w, PatchOf(part.start, Expand(cs)));
  }

  /** The header of an image of one block of 1024 bytes in one chunk. */
  const FILL_HEADER: seq<byte> :=
    [0x3a, 0xff, 0x26, 0xed, 1, 0, 0, 0, 28, 0, 12, 0, 0, 4, 0, 0, 1, 0, 0, 0, 1, 0, 0, 0, 0, 0, 0, 0]

  lemma FillHeaderFields()
    ensures |FILL_HEADER| == SPARSE_HEADER_LENGTH
    ensures ParseHeader(FILL_HEADER) == SparseHeader(SPARSE_HEADER_MAGIC, 1, 0, 28, 12, 1024, 1, 1, 0)
  {
    var b := FILL_HEADER;
    assert b[0] == 58 && b[1] == 0xff && b[2] == 38 && b[3] == 0xed && b[4] == 1 && b[5] == 0 && b[6] == 0;
    assert b[7] == 0 && b[8] == 28 && b[9] == 0 && b[10] == 12 && b[11] == 0 && b[12] == 0 && b[13] == 4;
    assert b[14] == 0 && b[15] == 0 && b[16] == 1 && b[17] == 0 && b[18] == 0 && b[19] == 0 && b[20] == 1;
    assert b[21] == 0 && b[22] == 0 && b[23] == 0 && b[24] == 0 && b[25] == 0 && b[26] == 0 && b[27] == 0;
  }

  /** One well-formed image, byte by byte. */
  lemma FillImage()
    ensures WellFormed(FILL_HEADER + OVERRUN_CHUNK + OVERRUN_PATTERN, 0, [Fill(OVERRUN_PATTERN, 1024)])
  {
    hide ParseHeader, ParseChunk;
    var data, h := FILL_HEADER + OVERRUN_CHUNK + OVERRUN_PATTERN, ParseHeader(FILL_HEADER);
    FillHeaderFields();
    assert data[0..0 + SPARSE_HEADER_LENGTH] == FILL_HEADER;
    OneFill(data, h);
    assert TotalSize(h) == 1024;
    assert |FillBytes(OVERRUN_PATTERN, 1024)| == 1024;
  }

  /** The chunk list of an image with one FILL chunk of one 1024-byte block right after its header. */
  lemma OneFill(data: seq<byte>, h: SparseHeader)
    requires |data| == 44 && data[28..40] == OVERRUN_CHUNK && data[40..44] == OVERRUN_PATTERN
    requires h.blkSz == 1024 && h.chunkHdrSz == 12
    ensures var cs := [Fill(OVERRUN_PATTERN, 1024)];
            && Chunks(data, h, 1, 28) == Some(cs)
            && Expand(cs) == AllSome(FillBytes(OVERRUN_PATTERN, 1024))
  {
    hide ParseChunk;
    OverrunChunkFields();
    var cs := [Fill(OVERRUN_PATTERN, 1024)];
    assert DataSize(h, ParseChunk(OVERRUN_CHUNK)) == 1024;
    assert Chunks(data, h, 0, 44) == Some([]);
    assert FirstChunk(data, CHUNK_TYPE_FILL, 40, 1024) == Some(cs[0]);
    assert cs == [cs[0]] + [];
    assert Expand(cs) == ExpandOne(cs[0]) + Expand([]);
  }

  const SKIP_CHUNK: seq<byte> := [0xC3, 0xCA, 0, 0, 1, 0, 0, 0, 12, 0, 0, 0]

  lemma SkipChunkFields()
    ensures |SKIP_CHUNK| == CHUNK_HEADER_LENGTH
    ensures ParseChunk(SKIP_CHUNK) == ChunkHeader(CHUNK_TYPE_DONT_CARE, 1, 12)
  {
    var c := SKIP_CHUNK;
    assert c[0..2] == [0xC3, 0xCA] && c[4..8] == [1, 0, 0, 0] && c[8..12] == [12, 0, 0, 0];
  }

  /** A well-formed image that fails: it leaves one block alone, and that block is the last of the disk. */
  lemma SkipImage(cursor: nat)
    ensures var data, part := FILL_HEADER + SKIP_CHUNK, Partition(0, 1024);
            && WellFormed(data, 0, [Skip(1024)])
            && InterpretImage(data, 0, part, 1024, cursor) == Outcome(map[], 0, SeekStop)
  {
    hide ParseHeader, ParseChunk;
    var data, h, cs := FILL_HEADER + SKIP_CHUNK, ParseHeader(FILL_HEADER), [Skip(1024)];
    FillHeaderFields();
    SkipChunkFields();
    assert data[0..0 + SPARSE_HEADER_LENGTH] == FILL_HEADER && data[28..40] == SKIP_CHUNK;
    assert DataSize(h, ParseChunk(SKIP_CHUNK)) == 1024 == TotalSize(h);
    assert Chunks(data, h, 0, 40) == Some([]);
    assert cs == [cs[0]] + [];
    assert Chunks(data, h, 1, 28) == Some(cs);
    assert Expand(cs) == ExpandOne(cs[0]) + Expand([]);
    assert Interpret(data, h, 1, 28, 0, 1024) == Outcome(map[], 0, SeekStop);
  }

  // ----- Containment -----

  /** Where the last byte an image stores is, counted from its start. */
  function DataEnd(cs: seq<Chunk>): nat {
    if cs == [] then 0
    else
      var n, rest := |ExpandOne(cs[0])|, DataEnd(cs[1..]);
      if rest > 0 then n + rest else if cs[0].Raw? || cs[0].Fill? then n else 0
  }

  lemma {:induction false} DataEndIsLast(cs: seq<Chunk>)
    ensures DataEnd(cs) <= |Expand(cs)|
    ensures DataEnd(cs) > 0 ==> Expand(cs)[DataEnd(cs) - 1].Some?
    ensures forall i | DataEnd(cs) <= i < |Expand(cs)| :: Expand(cs)[i].None?
  {
    if cs != [] {
      DataEndIsLast(cs[1..]);
    }
  }

  /** A stream written at the cursor stays within the bounds. */
  predicate StreamInside(cursor: nat, length: nat, lo: int, hi: int) {
    length == 0 || (lo <= cursor && cursor + length <= hi)
  }

  /** Every stream the interpreter reaches stays within the bounds. Only the headers and the length of the file
      matter: where each chunk takes the cursor, and how many bytes it has. */
  predicate Inside(data: seq<byte>, h: SparseHeader, left: nat, at: nat, cursor: nat, size: nat, lo: int, hi: int)
    decreases left
  {
    left == 0 || at + CHUNK_HEADER_LENGTH > |data| ||
    var chunk := ParseChunk(data[at..at + CHUNK_HEADER_LENGTH]);
    var dataSize := DataSize(h, chunk);
    var body, next := at + h.chunkHdrSz, at + chunk.totalSz;
    if chunk.chunkType == CHUNK_TYPE_RAW then
      var n := if body >= |data| then 0 else Min(dataSize, |data| - body);
      StreamInside(cursor, n, lo, hi)
      && (Addressable(cursor, n) ==> Inside(data, h, left - 1, next, cursor + n, size, lo, hi))
    else if chunk.chunkType == CHUNK_TYPE_FILL then
      var n := dataSize - dataSize % 4;
      body + 4 > |data|
      || (StreamInside(cursor, n, lo, hi)
          && (Addressable(cursor, n) ==> Inside(data, h, left - 1, next, cursor + n, size, lo, hi)))
    else if chunk.chunkType == CHUNK_TYPE_DONT_CARE then
      var target := cursor + AsI64(dataSize);
      0 <= target < size ==> Inside(data, h, left - 1, next, target, size, lo, hi)
    else chunk.chunkType == CHUNK_TYPE_CRC32 ==> Inside(data, h, left - 1, next, cursor, size, lo, hi)
  }

  ghost predicate KeysInside(m: Patch, lo: int, hi: int) {
    forall i :: i in m ==> lo <= i < hi
  }

  lemma StreamKeys(data: seq<byte>, h: SparseHeader, left: nat, next: nat, cursor: nat, size: nat, stream: seq<byte>,
                   lo: int, hi: int)
    requires left > 0
    ensures KeysInside(InterpretStream(data, h, left, next, cursor, size, stream).patch, lo, hi)
       <==> StreamInside(cursor, |stream|, lo, hi)
            && (Addressable(cursor, |stream|) ==>
                  KeysInside(Interpret(data, h, left - 1, next, cursor + |stream|, size).patch, lo, hi))
  {
    hide Interpret, Addressable;
    var m := Splice(cursor, stream);
    if stream != [] {
      assert cursor in m && cursor + |stream| - 1 in m;
    }
    var rest := Interpret(data, h, left - 1, next, cursor + |stream|, size).patch;
    assert forall i :: i in m + rest <==> i in m || i in rest;
  }

  /** Only the header's total is checked against the partition, not the chunks. Whatever the file holds, all that is
      stored stays within the bounds if and only if every stream that is reached does. */
  lemma {:induction false} StaysInside(data: seq<byte>, h: SparseHeader, left: nat, at: nat, cursor: nat, size: nat,
                                       lo: int, hi: int)
    ensures KeysInside(Interpret(data, h, left, at, cursor, size).patch, lo, hi)
       <==> Inside(data, h, left, at, cursor, size, lo, hi)
    decreases left
  {
    hide InterpretStream, ParseChunk, DataSize, AsI64, Addressable, StreamInside, KeysInside;
    NoKeys(lo, hi);
    if left > 0 && at + CHUNK_HEADER_LENGTH <= |data| {
      var chunk := ParseChunk(data[at..at + CHUNK_HEADER_LENGTH]);
      var dataSize := DataSize(h, chunk);
      var body, next := at + h.chunkHdrSz, at + chunk.totalSz;
      if chunk.chunkType == CHUNK_TYPE_RAW {
        var stream := Portion(data, body, dataSize);
        StreamKeys(data, h, left, next, cursor, size, stream, lo, hi);
        StaysInside(data, h, left - 1, next, cursor + |stream|, size, lo, hi);
      } else if chunk.chunkType == CHUNK_TYPE_FILL {
        if body + 4 <= |data| {
          var stream := FillBytes(data[body..body + 4], dataSize);
          StreamKeys(data, h, left, next, cursor, size, stream, lo, hi);
          StaysInside(data, h, left - 1, next, cursor + |stream|, size, lo, hi);
        }
      } else if chunk.chunkType == CHUNK_TYPE_DONT_CARE {
        if 0 <= cursor + AsI64(dataSize) < size {
          StaysInside(data, h, left - 1, next, cursor + AsI64(dataSize), size, lo, hi);
        }
      } else {
        StaysInside(data, h, left - 1, next, cursor, size, lo, hi);
      }
    }
  }

  lemma NoKeys(lo: int, hi: int)
    ensures KeysInside(map[], lo, hi)
  {
  }

  lemma ExpansionInside(cs: seq<Chunk>, start: nat, length: nat)
    ensures KeysInside(PatchOf(start, Expand(cs)), start, start + length) <==> DataEnd(cs) <= length
  {
    DataEndIsLast(cs);
    if DataEnd(cs) > 0 {
      assert start + DataEnd(cs) - 1 in PatchOf(start, Expand(cs));
    }
  }

  /** For chunks that are all in the file and fit the disk: the condition is that the last RAW or FILL byte lies in the
      partition. */
  lemma ChunksInside(data: seq<byte>, h: SparseHeader, left: nat, at: nat, part: Partition, size: nat, cs: seq<Chunk>)
    requires Chunks(data, h, left, at) == Some(cs) && ChunksOk(cs)
    requires DiskSize(size) && part.start + |Expand(cs)| <= size
    ensures Inside(data, h, left, at, part.start, size, part.start, part.start + part.length)
       <==> DataEnd(cs) <= part.length
    ensures KeysInside(Interpret(data, h, left, at, part.start, size).patch, part.start, part.start + part.length)
       <==> DataEnd(cs) <= part.length
  {
    hide Interpret, Inside, Chunks, Expand, SkipsToEnd, ChunksOk, DataEnd, KeysInside, PatchOf, DiskSize;
    InterpretMeans(data, h, left, at, part.start, size, cs);
    assert Interpret(data, h, left, at, part.start, size).patch == PatchOf(part.start, Expand(cs));
    ExpansionInside(cs, part.start, part.length);
    StaysInside(data, h, left, at, part.start, size, part.start, part.start + part.length);
  }

  // ----- Backwards -----

  /** Two chunks of the largest size there is; the header announces no blocks. */
  const BACK_HEADER: seq<byte> :=
    [0x3a, 0xff, 0x26, 0xed, 1, 0, 0, 0, 28, 0, 12, 0, 0xff, 0xff, 0xff, 0xff, 0, 0, 0, 0, 2, 0, 0, 0, 0, 0, 0, 0]
  const BACK_SKIP: seq<byte> := [0xC3, 0xCA, 0, 0, 0xff, 0xff, 0xff, 0xff, 12, 0, 0, 0]
  const BACK_RAW: seq<byte> := [0xC1, 0xCA, 0, 0, 0xff, 0xff, 0xff, 0xff, 16, 0, 0, 0]
  const BACK_IMAGE: seq<byte> := BACK_HEADER + BACK_SKIP + BACK_RAW + OVERRUN_PATTERN

  lemma BackHeaderFields()
    ensures |BACK_HEADER| == SPARSE_HEADER_LENGTH
    ensures ParseHeader(BACK_HEADER) == SparseHeader(SPARSE_HEADER_MAGIC, 1, 0, 28, 12, 0xFFFF_FFFF, 0, 2, 0)
  {
    var b := BACK_HEADER;
    assert b[0] == 58 && b[1] == 0xff && b[2] == 38 && b[3] == 0xed && b[4] == 1 && b[5] == 0 && b[6] == 0;
    assert b[7] == 0 && b[8] == 28 && b[9] == 0 && b[10] == 12 && b[11] == 0 && b[12] == 0xff && b[13] == 0xff;
    assert b[14] == 0xff && b[15] == 0xff && b[16] == 0 && b[17] == 0 && b[18] == 0 && b[19] == 0 && b[20] == 2;
    assert b[21] == 0 && b[22] == 0 && b[23] == 0 && b[24] == 0 && b[25] == 0 && b[26] == 0 && b[27] == 0;
  }

  lemma BackChunkFields()
    ensures |BACK_SKIP| == |BACK_RAW| == CHUNK_HEADER_LENGTH
    ensures ParseChunk(BACK_SKIP) == ChunkHeader(CHUNK_TYPE_DONT_CARE, 0xFFFF_FFFF, 12)
    ensures ParseChunk(BACK_RAW) == ChunkHeader(CHUNK_TYPE_RAW, 0xFFFF_FFFF, 16)
  {
    var c, d := BACK_SKIP, BACK_RAW;
    assert c[0..2] == [0xC3, 0xCA] && c[4..8] == [0xff, 0xff, 0xff, 0xff] && c[8..12] == [12, 0, 0, 0];
    assert d[0..2] == [0xC1, 0xCA] && d[4..8] == [0xff, 0xff, 0xff, 0xff] && d[8..12] == [16, 0, 0, 0];
  }

  /** A 56-byte image that is accepted for any partition behind the first 8 GiB and stores bytes in front of it:
      the size of its DONT_CARE chunk, cast to a signed number, is negative. */
  lemma Backwards(part: Partition, size: nat, cursor: nat)
    requires 0x2_0000_0000 <= part.start < size <= 0xFFFF_FFFF * SECTOR
    ensures var at := part.start - 0x1_FFFF_FFFF;
            && InterpretImage(BACK_IMAGE, 0, part, size, cursor)
               == Outcome(Splice(at, OVERRUN_PATTERN), at + 4, Completed)
            && at in Splice(at, OVERRUN_PATTERN) && at < part.start
  {
    hide ParseHeader, ParseChunk, Interpret;
    var data, h := BACK_IMAGE, ParseHeader(BACK_HEADER);
    BackHeaderFields();
    BackChunkFields();
    assert data[0..28] == BACK_HEADER && data[28..40] == BACK_SKIP && data[40..52] == BACK_RAW;
    assert data[52..56] == OVERRUN_PATTERN;
    assert TotalSize(h) == 0;
    BackSteps(data, h, part.start, size);
  }

  lemma BackSteps(data: seq<byte>, h: SparseHeader, start: nat, size: nat)
    requires |data| == 56 && data[28..40] == BACK_SKIP && data[40..52] == BACK_RAW && data[52..56] == OVERRUN_PATTERN
    requires h.blkSz == 0xFFFF_FFFF && h.chunkHdrSz == 12
    requires 0x2_0000_0000 <= start < size <= 0xFFFF_FFFF * SECTOR
    ensures var at := start - 0x1_FFFF_FFFF;
            Interpret(data, h, 2, 28, start, size) == Outcome(Splice(at, OVERRUN_PATTERN), at + 4, Completed)
  {
    hide ParseChunk, Splice;
    BackChunkFields();
    var at := start - 0x1_FFFF_FFFF;
    var dataSize := DataSize(h, ParseChunk(BACK_RAW));
    assert dataSize == 0xFFFF_FFFF * 0xFFFF_FFFF;
    assert AsI64(dataSize) == -0x1_FFFF_FFFF;
    assert Portion(data, 52, dataSize) == OVERRUN_PATTERN;
    assert Addressable(at, 4);
    InterpretEnd(data, h, 56, at + 4, size, Splice(at, OVERRUN_PATTERN));
    assert Interpret(data, h, 1, 40, at, size) == InterpretStream(data, h, 1, 56, at, size, OVERRUN_PATTERN);
    assert Interpret(data, h, 2, 28, start, size) == Interpret(data, h, 1, 40, at, size);
  }

  /** An image whose header announces no blocks and whose one chunk fills 1024 bytes. */
  const OVERRUN_HEADER: seq<byte> :=
    [0x3a, 0xff, 0x26, 0xed, 1, 0, 0, 0, 28, 0, 12, 0, 0, 4, 0, 0, 0, 0, 0, 0, 1, 0, 0, 0, 0, 0, 0, 0]
  const OVERRUN_CHUNK: seq<byte> := [0xC2, 0xCA, 0, 0, 1, 0, 0, 0, 16, 0, 0, 0]
  const OVERRUN_PATTERN: seq<byte> := [1, 2, 3, 4]
  const OVERRUN_IMAGE: seq<byte> := OVERRUN_HEADER + OVERRUN_CHUNK + OVERRUN_PATTERN

  lemma OverrunHeaderFields()
    ensures |OVERRUN_HEADER| == SPARSE_HEADER_LENGTH
    ensures ParseHeader(OVERRUN_HEADER) == SparseHeader(SPARSE_HEADER_MAGIC, 1, 0, 28, 12, 1024, 0, 1, 0)
  {
    var b := OVERRUN_HEADER;
    assert b[0] == 58 && b[1] == 0xff && b[2] == 38 && b[3] == 0xed && b[4] == 1 && b[5] == 0 && b[6] == 0;
    assert b[7] == 0 && b[8] == 28 && b[9] == 0 && b[10] == 12 && b[11] == 0 && b[12] == 0 && b[13] == 4;
    assert b[14] == 0 && b[15] == 0 && b[16] == 0 && b[17] == 0 && b[18] == 0 && b[19] == 0 && b[20] == 1;
    assert b[21] == 0 && b[22] == 0 && b[23] == 0 && b[24] == 0 && b[25] == 0 && b[26] == 0 && b[27] == 0;
  }

  lemma OverrunChunkFields()
    ensures |OVERRUN_CHUNK| == CHUNK_HEADER_LENGTH
    ensures ParseChunk(OVERRUN_CHUNK) == ChunkHeader(CHUNK_TYPE_FILL, 1, 16)
  {
    var c := OVERRUN_CHUNK;
    assert c[0..2] == [0xC2, 0xCA] && c[4..8] == [1, 0, 0, 0] && c[8..12] == [16, 0, 0, 0];
  }

  /** It is accepted for any partition of 512 bytes, and stores bytes behind it. */
  lemma Overrun(part: Partition, size: nat, cursor: nat)
    requires part.length == 512 && part.start + 1024 <= size && DiskSize(size)
    ensures var o := InterpretImage(OVERRUN_IMAGE, 0, part, size, cursor);
            o.stop == Completed && part.start + part.length in o.patch
  {
    hide ParseHeader, ParseChunk, Interpret, Chunks;
    var data, h := OVERRUN_IMAGE, ParseHeader(OVERRUN_HEADER);
    OverrunHeaderFields();
    assert data[0..28] == OVERRUN_HEADER;
    OneFill(data, h);
    var cs := [Fill(OVERRUN_PATTERN, 1024)];
    assert !SkipsToEnd([], part.start + 1024, size);
    InterpretMeans(data, h, 1, 28, part.start, size, cs);
  }
}
