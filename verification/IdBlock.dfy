/** The block a boot ROM looks for: what the two forms of it contain, and how to take one apart again. */
module IdBlocks {
  import opened Bytes
  import opened Crc16
  import opened Rc4

  const ALIGNMENT := 2048
  const HEADER_LENGTH := 2048
  const IDBLOCK_TAG: u32 := 0x0FF0AA55
  const CHIP_TAG: u32 := 0x38324B52
  const RESERVED_BLOCK: u16 := 0x000C
  const DISK0_SIZE: u16 := 0xFFFF
  const U16_LIMIT := 0x1_0000
  const USIZE_LIMIT := 0x1_0000_0000_0000_0000
  const VERSION_MARK: seq<byte> := [0x56, 0x43, 0]
  const CRC_MARK: seq<byte> := [0x43, 0x52, 0x43, 0]

  datatype IdBlockError = DdrTooLarge | LoaderTooLarge | SizeOverflow

  function NextMultiple(n: nat): (m: nat)
    ensures n <= m < n + 2048 && m % 2048 == 0 && m % SECTOR_SIZE == 0
  {
    RoundedUp(n);
    (n + ALIGNMENT - 1) / ALIGNMENT * ALIGNMENT
  }

  lemma RoundedUp(n: nat)
    ensures var m := (n + ALIGNMENT - 1) / ALIGNMENT * ALIGNMENT;
            n <= m < n + ALIGNMENT && m % ALIGNMENT == 0 && m % SECTOR_SIZE == 0
  {
    var x := n + ALIGNMENT - 1;
    var q := x / ALIGNMENT;
    assert x == q * ALIGNMENT + x % ALIGNMENT;
    WholeSectors(q);
  }

  lemma WholeLength(length: nat, n: nat)
    requires length == HEADER_LENGTH + n * SECTOR_SIZE
    ensures length % SECTOR_SIZE == 0
  {
    assert length == (4 + n) * SECTOR_SIZE;
    WholeSectors(4 + n);
  }

  lemma WholeSum(a: nat, b: nat, c: nat)
    requires a % SECTOR_SIZE == 0 && b % SECTOR_SIZE == 0 && c % SECTOR_SIZE == 0
    ensures (a + b + c) % SECTOR_SIZE == 0
  {
    var n := a / SECTOR_SIZE + b / SECTOR_SIZE + c / SECTOR_SIZE;
    assert a + b + c == n * SECTOR_SIZE;
    WholeSectors(n);
  }

  lemma WholeSectors(q: nat)
    ensures q * ALIGNMENT % SECTOR_SIZE == 0 && q * SECTOR_SIZE % SECTOR_SIZE == 0 && q * ALIGNMENT % ALIGNMENT == 0
  {
    Division(q * ALIGNMENT, SECTOR_SIZE, 4 * q, 0);
    Division(q * SECTOR_SIZE, SECTOR_SIZE, q, 0);
    Division(q * ALIGNMENT, ALIGNMENT, q, 0);
  }

  /** The data and zeros up to the next boundary. */
  function Padded(data: seq<byte>): (p: seq<byte>)
    ensures |p| == NextMultiple(|data|) && |p| % SECTOR_SIZE == 0
  {
    data + Zeros(NextMultiple(|data|) - |data|)
  }

  function Sectors(data: seq<byte>): nat {
    |Padded(data)| / SECTOR_SIZE
  }

  /** An area as it is stored; encrypting twice is not encrypting, so also the area a stored one stands for. */
  function Area(area: seq<byte>, rc4: bool): (r: seq<byte>)
    ensures |r| == |area|
  {
    if rc4 then Crypt(area) else area
  }

  lemma AreaTwice(area: seq<byte>, rc4: bool)
    ensures Area(Area(area, rc4), rc4) == area
  {
    hide Crypt;
    CryptTwice(area);
  }

  // ----- The header sectors -----

  function Sector0(rc4: bool, dataSectors: u16, codeSectors: u16): (s: seq<byte>)
    ensures |s| == SECTOR_SIZE
  {
    Le32(IDBLOCK_TAG) + Zeros(4) + Le32(if rc4 then 1 else 0) + Le16(4) + Le16(4) + Zeros(484)
    + Le16(dataSectors) + Le16(codeSectors) + Zeros(8)
  }

  function Sector1(): (s: seq<byte>)
    ensures |s| == SECTOR_SIZE
  {
    Le16(RESERVED_BLOCK) + Le16(DISK0_SIZE) + Zeros(4) + Le32(CHIP_TAG) + Zeros(500)
  }

  function Sector2(crc0: seq<byte>, crc1: seq<byte>, codeCrc: u32, crc3: seq<byte>): (s: seq<byte>)
    requires |crc0| == |crc1| == |crc3| == 2
    ensures |s| == SECTOR_SIZE
  {
    Zeros(491) + VERSION_MARK + crc0 + crc1 + Le32(codeCrc) + Zeros(2) + CRC_MARK + crc3 + Zeros(2)
  }

  function Sector3(): seq<byte> {
    Zeros(SECTOR_SIZE)
  }

  /** A 16-bit check as it is stored, low byte first. */
  function CrcBytes(c: bv16): (b: seq<byte>)
    ensures |b| == 2
  {
    [Low(c) as int, High(c) as int]
  }

  lemma CrcStored(c: bv16)
    ensures FromLe16(CrcBytes(c)) == c as int
  {
    hide High, Low;
    Halves(c);
    HalvesAsInt(High(c), Low(c));
  }

  lemma Halves(c: bv16)
    ensures c == ((High(c) as bv16) << 8) | (Low(c) as bv16)
  {
  }

  lemma HalvesAsInt(h: bv8, l: bv8)
    ensures (((h as bv16) << 8) | (l as bv16)) as int == 256 * (h as int) + l as int
  {
  }

  function HeaderCrc(sector: seq<byte>): (b: seq<byte>)
    ensures |b| == 2
  {
    CrcBytes(Checksum(HEADER_INIT, sector))
  }

  // ----- The old form -----

  predicate OldFits(ddr: seq<byte>, loader: seq<byte>) {
    Sectors(ddr) + Sectors(loader) < U16_LIMIT
  }

  function Payload(ddr: seq<byte>, loader: seq<byte>, rc4: bool): (p: seq<byte>)
    ensures |p| == (Sectors(ddr) + Sectors(loader)) * SECTOR_SIZE
  {
    Area(Padded(ddr), rc4) + Area(Padded(loader), rc4)
  }

  function OldSector2(ddr: seq<byte>, loader: seq<byte>, rc4: bool, rkCrc: seq<byte> -> u32): (s: seq<byte>)
    requires OldFits(ddr, loader)
    ensures |s| == SECTOR_SIZE
  {
    Sector2(HeaderCrc(Sector0(rc4, Sectors(ddr), Sectors(ddr) + Sectors(loader))), HeaderCrc(Sector1()),
            rkCrc(Payload(ddr, loader, rc4)), HeaderCrc(Sector3()))
  }

  function OldBlock(ddr: seq<byte>, loader: seq<byte>, rc4: bool, rkCrc: seq<byte> -> u32): (image: seq<byte>)
    requires OldFits(ddr, loader)
    ensures |image| == HEADER_LENGTH + (Sectors(ddr) + Sectors(loader)) * SECTOR_SIZE
  {
    Area(Sector0(rc4, Sectors(ddr), Sectors(ddr) + Sectors(loader)), rc4)
    + Sector1()
    + Area(OldSector2(ddr, loader, rc4, rkCrc), rc4)
    + Area(Sector3(), rc4)
    + Payload(ddr, loader, rc4)
  }

  // ----- Taking an old block apart -----

  datatype Header = Header(tag: u32, rc4Flag: u32, dataOffset: u16, codeOffset: u16, dataSectors: u16,
                           codeSectors: u16, reservedBlock: u16, disk0Size: u16, chipTag: u32)

  datatype Crcs = Crcs(sector0: seq<byte>, sector1: seq<byte>, code: u32, sector3: seq<byte>)

  datatype IdBlock = IdBlock(header: Header, crcs: Crcs, ddr: seq<byte>, loader: seq<byte>)

  /** Header sector `n` in plain text; the second one is never encrypted. */
  function Plain(image: seq<byte>, n: nat, rc4: bool): (s: seq<byte>)
    requires (n + 1) * SECTOR_SIZE <= |image|
    ensures |s| == SECTOR_SIZE
  {
    Area(image[n * SECTOR_SIZE..(n + 1) * SECTOR_SIZE], rc4 && n != 1)
  }

  function ReadHeader(s0: seq<byte>, s1: seq<byte>): Header
    requires |s0| == |s1| == SECTOR_SIZE
  {
    Header(FromLe32(s0[0..4]), FromLe32(s0[8..12]), FromLe16(s0[12..14]), FromLe16(s0[14..16]),
           FromLe16(s0[500..502]), FromLe16(s0[502..504]),
           FromLe16(s1[0..2]), FromLe16(s1[2..4]), FromLe32(s1[8..12]))
  }

  function ReadCrcs(s2: seq<byte>): (r: Option<Crcs>)
    requires |s2| == SECTOR_SIZE
  {
    if s2[491..494] == [0x56, 0x43, 0] && s2[504..508] == [0x43, 0x52, 0x43, 0]
    then Some(Crcs(s2[494..496], s2[496..498], FromLe32(s2[498..502]), s2[508..510]))
    else None
  }

  /** The whole block: the sector counts of the header say where the payload parts. */
  function Decode(image: seq<byte>, rc4: bool): (r: Option<IdBlock>) {
    if |image| < HEADER_LENGTH then None
    else
      var header := ReadHeader(Plain(image, 0, rc4), Plain(image, 1, rc4));
      var crcs := ReadCrcs(Plain(image, 2, rc4));
      var cut := HEADER_LENGTH + header.dataSectors * SECTOR_SIZE;
      if crcs.None? || header.tag != IDBLOCK_TAG || header.dataSectors > header.codeSectors
         || |image| != HEADER_LENGTH + header.codeSectors * SECTOR_SIZE then None
      else Some(IdBlock(header, crcs.value, Area(image[HEADER_LENGTH..cut], rc4), Area(image[cut..], rc4)))
  }

  /** The stored checks against what they were taken over: three header sectors in plain text, and the
      payload as it is stored. */
  predicate ChecksMatch(image: seq<byte>, rc4: bool, rkCrc: seq<byte> -> u32) {
    |image| >= HEADER_LENGTH &&
    var crcs := ReadCrcs(Plain(image, 2, rc4));
    && crcs.Some?
    && crcs.value.sector0 == HeaderCrc(Plain(image, 0, rc4))
    && crcs.value.sector1 == HeaderCrc(Plain(image, 1, rc4))
    && crcs.value.sector3 == HeaderCrc(Plain(image, 3, rc4))
    && crcs.value.code == rkCrc(image[HEADER_LENGTH..])
  }

  lemma HeaderReadBack(rc4: bool, dataSectors: u16, codeSectors: u16)
    ensures ReadHeader(Sector0(rc4, dataSectors, codeSectors), Sector1())
         == Header(0x0FF0_AA55, if rc4 then 1 else 0, 4, 4, dataSectors, codeSectors, 0x000C, 0xFFFF, 0x3832_4B52)
  {
    var s0, s1 := Sector0(rc4, dataSectors, codeSectors), Sector1();
    assert s0[0..4] == Le32(IDBLOCK_TAG) && s0[8..12] == Le32(if rc4 then 1 else 0);
    assert s0[12..14] == Le16(4) == s0[14..16];
    assert s0[500..502] == Le16(dataSectors) && s0[502..504] == Le16(codeSectors);
    assert s1[0..2] == Le16(RESERVED_BLOCK) && s1[2..4] == Le16(DISK0_SIZE) && s1[8..12] == Le32(CHIP_TAG);
    IntegersRoundTrip(dataSectors, IDBLOCK_TAG);
    IntegersRoundTrip(codeSectors, CHIP_TAG);
    IntegersRoundTrip(DISK0_SIZE, if rc4 then 1 else 0);
    IntegersRoundTrip(RESERVED_BLOCK, 0);
  }

  lemma CrcsReadBack(crc0: seq<byte>, crc1: seq<byte>, code: u32, crc3: seq<byte>)
    requires |crc0| == |crc1| == |crc3| == 2
    ensures ReadCrcs(Sector2(crc0, crc1, code, crc3)) == Some(Crcs(crc0, crc1, code, crc3))
  {
    var s2 := Sector2(crc0, crc1, code, crc3);
    assert s2[491..494] == VERSION_MARK && s2[504..508] == CRC_MARK;
    assert s2[494..496] == crc0 && s2[496..498] == crc1 && s2[498..502] == Le32(code) && s2[508..510] == crc3;
    IntegersRoundTrip(0, code);
  }

  lemma HeadersInPlain(ddr: seq<byte>, loader: seq<byte>, rc4: bool, rkCrc: seq<byte> -> u32)
    requires OldFits(ddr, loader)
    ensures var image := OldBlock(ddr, loader, rc4, rkCrc);
            && Plain(image, 0, rc4) == Sector0(rc4, Sectors(ddr), Sectors(ddr) + Sectors(loader))
            && Plain(image, 1, rc4) == Sector1()
            && Plain(image, 2, rc4) == OldSector2(ddr, loader, rc4, rkCrc)
            && Plain(image, 3, rc4) == Sector3()
            && image[HEADER_LENGTH..] == Payload(ddr, loader, rc4)
  {
    hide Sector0, Sector1, OldSector2, Sector3, Area, Payload, Sectors;
    var s0, s2 := Sector0(rc4, Sectors(ddr), Sectors(ddr) + Sectors(loader)), OldSector2(ddr, loader, rc4, rkCrc);
    var image := OldBlock(ddr, loader, rc4, rkCrc);
    AreaTwice(s0, rc4);
    AreaTwice(s2, rc4);
    AreaTwice(Sector3(), rc4);
    SectorZero(Sector1());
    assert image[0..512] == Area(s0, rc4) && image[512..1024] == Sector1();
    assert image[1024..1536] == Area(s2, rc4) && image[1536..2048] == Area(Sector3(), rc4);
  }

  lemma SectorZero(s: seq<byte>)
    ensures Area(s, false) == s
  {
  }

  /** A reader that is told whether the block is encrypted recovers everything that went in, and every
      stored check matches. */
  lemma OldRoundTrip(ddr: seq<byte>, loader: seq<byte>, rc4: bool, rkCrc: seq<byte> -> u32)
    requires OldFits(ddr, loader)
    ensures var image := OldBlock(ddr, loader, rc4, rkCrc);
            var d, n := Sectors(ddr), Sectors(ddr) + Sectors(loader);
            && |image| == (4 + n) * SECTOR_SIZE
            && ChecksMatch(image, rc4, rkCrc)
            && var block := Decode(image, rc4);
            && block.Some?
            && block.value.header == Header(IDBLOCK_TAG, if rc4 then 1 else 0, 4, 4, d, n,
                                            RESERVED_BLOCK, DISK0_SIZE, CHIP_TAG)
            && block.value.ddr == Padded(ddr) && block.value.loader == Padded(loader)
  {
    hide Sector0, Sector1, Sector2, Sector3, Area, Crypt, Plain, ReadHeader, ReadCrcs, HeaderCrc, OldBlock;
    var image := OldBlock(ddr, loader, rc4, rkCrc);
    var d, n := Sectors(ddr), Sectors(ddr) + Sectors(loader);
    HeadersInPlain(ddr, loader, rc4, rkCrc);
    HeaderReadBack(rc4, d, n);
    CrcsReadBack(HeaderCrc(Sector0(rc4, d, n)), HeaderCrc(Sector1()), rkCrc(Payload(ddr, loader, rc4)),
                 HeaderCrc(Sector3()));
    PayloadParts(ddr, loader, rc4, image);
  }

  lemma PayloadParts(ddr: seq<byte>, loader: seq<byte>, rc4: bool, image: seq<byte>)
    requires |image| == HEADER_LENGTH + (Sectors(ddr) + Sectors(loader)) * SECTOR_SIZE
    requires image[HEADER_LENGTH..] == Payload(ddr, loader, rc4)
    ensures var cut := HEADER_LENGTH + Sectors(ddr) * SECTOR_SIZE;
            && Area(image[HEADER_LENGTH..cut], rc4) == Padded(ddr)
            && Area(image[cut..], rc4) == Padded(loader)
  {
    hide Area, Padded;
    var cut := HEADER_LENGTH + Sectors(ddr) * SECTOR_SIZE;
    assert image[HEADER_LENGTH..cut] == image[HEADER_LENGTH..][..|Padded(ddr)|] == Area(Padded(ddr), rc4);
    assert image[cut..] == image[HEADER_LENGTH..][|Padded(ddr)|..] == Area(Padded(loader), rc4);
    AreaTwice(Padded(ddr), rc4);
    AreaTwice(Padded(loader), rc4);
  }

  // ----- What the checks detect -----

  /** One stored byte of a sector changed is one byte of its plain text changed. */
  lemma AreaOneByte(sector: seq<byte>, k: nat, b: byte, rc4: bool)
    requires |sector| == SECTOR_SIZE && k < SECTOR_SIZE && b != sector[k]
    ensures var was, now := Area(sector, rc4), Area(sector[k := b], rc4);
            now == was[k := now[k]] && now[k] != was[k]
  {
    hide Start, ApplyKeystream, After, Output, XorByte;
    if rc4 {
      var st := Start(RC4_KEY);
      var other := sector[k := b];
      var was, now := Area(sector, rc4), Area(other, rc4);
      assert sector[..SECTOR_SIZE] == sector && other[..SECTOR_SIZE] == other;
      assert was == ApplyKeystream(st, sector) && now == ApplyKeystream(st, other);
      forall i | 0 <= i < SECTOR_SIZE
        ensures was[i] == XorByte(sector[i], Output(After(st, i + 1)))
        ensures now[i] == XorByte(other[i], Output(After(st, i + 1)))
      {
        KeystreamAt(st, sector, i);
        KeystreamAt(st, other, i);
      }
      XorByteTwice(sector[k], Output(After(st, k + 1)));
      XorByteTwice(b, Output(After(st, k + 1)));
    }
  }

  lemma CrcBytesDiffer(c: bv16, d: bv16)
    requires c != d
    ensures CrcBytes(c) != CrcBytes(d)
  {
    ByteAndBack(Low(c));
    ByteAndBack(Low(d));
    ByteAndBack(High(c));
    ByteAndBack(High(d));
    LowHigh(c, d);
    assert CrcBytes(c)[0] != CrcBytes(d)[0] || CrcBytes(c)[1] != CrcBytes(d)[1];
  }

  lemma LowHigh(c: bv16, d: bv16)
    ensures Low(c) == Low(d) && High(c) == High(d) ==> c == d
  {
  }

  /** Change any one stored byte of the first, second or fourth sector of a block whose checks match, and they
      no longer do. */
  lemma OneByteDetected(image: seq<byte>, rc4: bool, rkCrc: seq<byte> -> u32, n: nat, k: nat, b: byte)
    requires ChecksMatch(image, rc4, rkCrc)
    requires n in {0, 1, 3} && k < SECTOR_SIZE && b != image[n * SECTOR_SIZE + k]
    ensures !ChecksMatch(image[n * SECTOR_SIZE + k := b], rc4, rkCrc)
  {
    hide ReadCrcs, Checksum, CrcBytes, Area, Low, High;
    var at := n * SECTOR_SIZE;
    var other := image[at + k := b];
    var sector := image[at..at + SECTOR_SIZE];
    assert other[at..at + SECTOR_SIZE] == sector[k := b];
    assert other[1024..1536] == image[1024..1536];
    AreaOneByte(sector, k, b, rc4 && n != 1);
    var was, now := Plain(image, n, rc4), Plain(other, n, rc4);
    DetectsOneByte(HEADER_INIT, was, k, now[k]);
    CrcBytesDiffer(Checksum(HEADER_INIT, was), Checksum(HEADER_INIT, now));
  }

  // ----- The new form -----

  predicate NewFits(head: seq<byte>, ddr: seq<byte>, loader: seq<byte>) {
    |Padded(head)| + |Padded(ddr)| + |Padded(loader)| < USIZE_LIMIT
  }

  function NewBlock(head: seq<byte>, ddr: seq<byte>, loader: seq<byte>, rc4: bool): (image: seq<byte>)
    ensures |image| == |Padded(head)| + |Padded(ddr)| + |Padded(loader)|
  {
    Area(Padded(head), rc4) + Area(Padded(ddr), rc4) + Area(Padded(loader), rc4)
  }

  /** Encrypting the three areas one by one is encrypting the block sector by sector: the areas are whole
      sectors and the keystream starts anew with each. So decrypting the block gives the padded inputs. */
  lemma NewRoundTrip(head: seq<byte>, ddr: seq<byte>, loader: seq<byte>, rc4: bool)
    ensures var image := NewBlock(head, ddr, loader, rc4);
            && image == Area(Padded(head) + Padded(ddr) + Padded(loader), rc4)
            && Area(image, rc4) == Padded(head) + Padded(ddr) + Padded(loader)
  {
    hide Crypt, Padded;
    var h, d, l := Padded(head), Padded(ddr), Padded(loader);
    WholeSum(|h|, |d|, 0);
    CryptConcat(h + d, l);
    CryptConcat(h, d);
    AreaTwice(h + d + l, rc4);
    assert Area(h, rc4) + Area(d, rc4) + Area(l, rc4) == Area(h + d + l, rc4);
  }
}
