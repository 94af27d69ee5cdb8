/** Sparse images as a writer lays them out: the reader gets back every field and every chunk. */
module SparsePackings {
  import opened Bytes
  import opened SparseImages
  import opened SparseMeanings

  // ----- Headers -----

  function HeaderBytes(h: SparseHeader): (b: seq<byte>)
    ensures |b| == SPARSE_HEADER_LENGTH
  {
    Le32(h.magic) + Le16(h.majorVersion) + Le16(h.minorVersion) + Le16(h.fileHdrSz) + Le16(h.chunkHdrSz)
    + Le32(h.blkSz) + Le32(h.totalBlks) + Le32(h.totalChunks) + Le32(h.imageChecksum)
  }

  function ChunkBytes(c: ChunkHeader, reserved: u16): (b: seq<byte>)
    ensures |b| == CHUNK_HEADER_LENGTH
  {
    Le16(c.chunkType) + Le16(reserved) + Le32(c.chunkSz) + Le32(c.totalSz)
  }

  lemma HeaderSlices(h: SparseHeader)
    ensures var b := HeaderBytes(h);
            && b[0..4] == Le32(h.magic) && b[4..6] == Le16(h.majorVersion) && b[6..8] == Le16(h.minorVersion)
            && b[8..10] == Le16(h.fileHdrSz) && b[10..12] == Le16(h.chunkHdrSz) && b[12..16] == Le32(h.blkSz)
            && b[16..20] == Le32(h.totalBlks) && b[20..24] == Le32(h.totalChunks) && b[24..28] == Le32(h.imageChecksum)
  {
    hide Le16, Le32;
    var front := Le32(h.magic) + Le16(h.majorVersion) + Le16(h.minorVersion) + Le16(h.fileHdrSz) + Le16(h.chunkHdrSz);
    var back := Le32(h.blkSz) + Le32(h.totalBlks) + Le32(h.totalChunks) + Le32(h.imageChecksum);
    var b := HeaderBytes(h);
    assert b == front + back;
    assert b[..12] == front && b[12..] == back;
    assert front[0..4] == Le32(h.magic) && front[4..6] == Le16(h.majorVersion) && front[6..8] == Le16(h.minorVersion);
    assert front[8..10] == Le16(h.fileHdrSz) && front[10..12] == Le16(h.chunkHdrSz);
    assert back[0..4] == Le32(h.blkSz) && back[4..8] == Le32(h.totalBlks);
    assert back[8..12] == Le32(h.totalChunks) && back[12..16] == Le32(h.imageChecksum);
  }

  /** Parsing undoes packing, for all values of all fields. */
  lemma HeaderRoundTrip(h: SparseHeader)
    ensures ParseHeader(HeaderBytes(h)) == h
  {
    hide Le16, Le32, FromLe16, FromLe32, HeaderBytes;
    HeaderSlices(h);
    IntegersRoundTrip(h.majorVersion, h.magic);
    IntegersRoundTrip(h.minorVersion, h.blkSz);
    IntegersRoundTrip(h.fileHdrSz, h.totalBlks);
    IntegersRoundTrip(h.chunkHdrSz, h.totalChunks);
    IntegersRoundTrip(0, h.imageChecksum);
  }

  lemma ChunkRoundTrip(c: ChunkHeader, reserved: u16)
    ensures ParseChunk(ChunkBytes(c, reserved)) == c
  {
    hide Le16, Le32, FromLe16, FromLe32;
    var b := ChunkBytes(c, reserved);
    assert b[0..2] == Le16(c.chunkType) && b[4..8] == Le32(c.chunkSz) && b[8..12] == Le32(c.totalSz);
    IntegersRoundTrip(c.chunkType, c.chunkSz);
    IntegersRoundTrip(0, c.totalSz);
  }

  // ----- Whole images -----

  function KindOf(c: Chunk): u16 {
    match c
    case Raw(_) => 0xCAC1
    case Fill(_, _) => 0xCAC2
    case Skip(_) => 0xCAC3
    case Crc => 0xCAC4
  }

  function LengthOf(c: Chunk): nat {
    match c
    case Raw(bytes) => |bytes|
    case Fill(_, length) => length
    case Skip(length) => length
    case Crc => 0
  }

  /** What follows the header of a chunk; of a checksum, any four bytes. */
  function BodyOf(c: Chunk): seq<byte> {
    match c
    case Raw(bytes) => bytes
    case Fill(pattern, _) => pattern
    case Skip(_) => []
    case Crc => Zeros(4)
  }

  function BlocksIn(length: nat, blkSz: nat): nat {
    if blkSz == 0 then 0 else length / blkSz
  }

  /** A chunk of whole blocks that the fields of its header can describe. */
  predicate Packable(c: Chunk, h: SparseHeader) {
    && BlocksIn(LengthOf(c), h.blkSz) < 0x1_0000_0000 && h.blkSz * BlocksIn(LengthOf(c), h.blkSz) == LengthOf(c)
    && CHUNK_HEADER_LENGTH <= h.chunkHdrSz && h.chunkHdrSz + |BodyOf(c)| < 0x1_0000_0000
    && (c.Fill? ==> |c.pattern| == 4)
  }

  predicate AllPackable(cs: seq<Chunk>, h: SparseHeader) {
    forall k | 0 <= k < |cs| :: Packable(cs[k], h)
  }

  /** Header, room the header size leaves, data. */
  function Packed(c: Chunk, h: SparseHeader): (b: seq<byte>)
    requires Packable(c, h)
    ensures |b| == h.chunkHdrSz + |BodyOf(c)|
  {
    ChunkBytes(ChunkHeader(KindOf(c), BlocksIn(LengthOf(c), h.blkSz), h.chunkHdrSz + |BodyOf(c)|), 0)
    + Zeros(h.chunkHdrSz - CHUNK_HEADER_LENGTH) + BodyOf(c)
  }

  function PackedAll(cs: seq<Chunk>, h: SparseHeader): seq<byte>
    requires AllPackable(cs, h)
  {
    if cs == [] then [] else Packed(cs[0], h) + PackedAll(cs[1..], h)
  }

  /** One chunk within a file. */
  lemma PackedOne(data: seq<byte>, at: nat, c: Chunk, h: SparseHeader)
    requires Packable(c, h) && at + |Packed(c, h)| <= |data| && data[at..at + |Packed(c, h)|] == Packed(c, h)
    ensures at + CHUNK_HEADER_LENGTH <= |data|
    ensures var chunk := ParseChunk(data[at..at + CHUNK_HEADER_LENGTH]);
            && chunk.totalSz == |Packed(c, h)|
            && FirstChunk(data, chunk.chunkType, at + h.chunkHdrSz, DataSize(h, chunk)) == Some(c)
  {
    hide ChunkBytes, ParseChunk, BlocksIn;
    var header := ChunkHeader(KindOf(c), BlocksIn(LengthOf(c), h.blkSz), h.chunkHdrSz + |BodyOf(c)|);
    var p, n := Packed(c, h), |Packed(c, h)|;
    ChunkRoundTrip(header, 0);
    SubSlice(data, at, n, 0, CHUNK_HEADER_LENGTH);
    assert p[0..CHUNK_HEADER_LENGTH] == ChunkBytes(header, 0);
    SubSlice(data, at, n, h.chunkHdrSz, n);
    assert p[h.chunkHdrSz..n] == BodyOf(c);
  }

  lemma PackedParts(data: seq<byte>, at: nat, cs: seq<Chunk>, h: SparseHeader)
    requires cs != [] && AllPackable(cs, h)
    requires at + |PackedAll(cs, h)| <= |data| && data[at..at + |PackedAll(cs, h)|] == PackedAll(cs, h)
    ensures var first, others := Packed(cs[0], h), PackedAll(cs[1..], h);
            && at + |first| + |others| <= |data|
            && data[at..at + |first|] == first && data[at + |first|..at + |first| + |others|] == others
  {
    hide Packed, Packable;
    var first, others := Packed(cs[0], h), PackedAll(cs[1..], h);
    var n := |first| + |others|;
    SubSlice(data, at, n, 0, |first|);
    SubSlice(data, at, n, |first|, n);
    assert (first + others)[0..|first|] == first && (first + others)[|first|..n] == others;
  }

  /** What is read from packed chunks, with anything before and after them, is these chunks. */
  lemma {:induction false} PackedChunks(data: seq<byte>, at: nat, cs: seq<Chunk>, h: SparseHeader)
    requires AllPackable(cs, h)
    requires at + |PackedAll(cs, h)| <= |data| && data[at..at + |PackedAll(cs, h)|] == PackedAll(cs, h)
    ensures Chunks(data, h, |cs|, at) == Some(cs)
    decreases |cs|
  {
    hide Packed, Packable, PackedAll, ParseChunk, FirstChunk, DataSize;
    if cs != [] {
      PackedParts(data, at, cs, h);
      PackedOne(data, at, cs[0], h);
      PackedChunks(data, at + |Packed(cs[0], h)|, cs[1..], h);
      assert cs == [cs[0]] + cs[1..];
    }
  }

  /** A header that announces these chunks, which it leaves room for. */
  predicate Announces(h: SparseHeader, cs: seq<Chunk>) {
    && h.magic == 0xED26_FF3A && h.majorVersion <= 1 && h.minorVersion == 0
    && SPARSE_HEADER_LENGTH <= h.fileHdrSz && h.totalChunks == |cs| && AllPackable(cs, h)
    && h.blkSz % 4 == 0 && |Expand(cs)| == h.blkSz * h.totalBlks
  }

  function ImageBytes(h: SparseHeader, cs: seq<Chunk>): seq<byte>
    requires Announces(h, cs)
  {
    HeaderBytes(h) + Zeros(h.fileHdrSz - SPARSE_HEADER_LENGTH) + PackedAll(cs, h)
  }

  /** Every list of chunks of whole blocks, laid out with headers of any size, is a well-formed image of just these
      chunks. */
  lemma PackedImage(h: SparseHeader, cs: seq<Chunk>)
    requires Announces(h, cs)
    ensures WellFormed(ImageBytes(h, cs), 0, cs)
  {
    hide HeaderBytes, ParseHeader, PackedAll, Expand, Packable, Chunks;
    var data, all := ImageBytes(h, cs), PackedAll(cs, h);
    HeaderRoundTrip(h);
    assert data[0..SPARSE_HEADER_LENGTH] == HeaderBytes(h);
    var at: nat := h.fileHdrSz;
    assert data[at..at + |all|] == all;
    PackedChunks(data, at, cs, h);
  }
}
