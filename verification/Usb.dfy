/** Command and status wrappers of the bulk-only transport, as the host writes them and as the
    device reads them (USB Mass Storage Class Bulk-Only Transport, revision 1.0, sections 5.1 and 5.2). */
module Usb {
  import opened Bytes

  const DIRECTION_OUT: byte := 0x00
  const DIRECTION_IN: byte := 0x80

  const CBW_SIGN: u32 := 0x43425355
  const CSW_SIGN: u32 := 0x53425355

  const CBW_LENGTH := 31
  const CSW_LENGTH := 13

  const READ_LBA: byte := 0x14
  const WRITE_LBA: byte := 0x15
  const ERASE_LBA: byte := 0x25
  const READ_FLASH_INFO: byte := 0x1A
  const READ_CAPABILITY: byte := 0xAA

  datatype Cbwcb = Cbwcb(operCode: byte, reserved: byte, address: u32, reserved2: byte, length: u16,
                         reserved3: seq<byte>)

  datatype Cbw = Cbw(signature: u32, tag: u32, dataTransferLength: u32, flags: byte, lun: byte,
                     cbLength: byte, cb: Cbwcb)

  datatype Csw = Csw(signature: u32, tag: u32, dataResidue: u32, status: byte)

  predicate ShortIn(opcode: byte) {
    opcode in {0x00, 0x01, 0x1A, 0x1B, 0x20, 0xAA, 0x2B}
  }

  predicate ShortOut(opcode: byte) {
    opcode in {0xFF, 0x16, 0x1E, 0x2A}
  }

  predicate LongIn(opcode: byte) {
    opcode in {0x03, 0x04, 0x14, 0x17, 0x21, 0x24}
  }

  predicate LongOut(opcode: byte) {
    opcode in {0x05, 0x15, 0x18, 0x19, 0x06, 0x0B, 0x1F, 0x22, 0x23, 0x25}
  }

  function DirectionOf(opcode: byte): byte {
    if ShortIn(opcode) || LongIn(opcode) then DIRECTION_IN else DIRECTION_OUT
  }

  /** The size of the packed command block itself is 16 bytes. */
  function BlockLengthOf(opcode: byte): byte {
    if ShortIn(opcode) || ShortOut(opcode) then 0x06
    else if LongIn(opcode) || LongOut(opcode) then 0x0A
    else 16
  }

  /** A wrapper with defaults; `tag` is the random draw. */
  function New(cb: Cbwcb, tag: u32): Cbw {
    Cbw(CBW_SIGN, tag, 0, DIRECTION_OUT, 0, 16, cb)
  }

  method WithOpcode(opcode: byte, tag: u32) returns (cbw: Cbw)
    ensures cbw == Cbw(CBW_SIGN, tag, 0, DirectionOf(opcode), 0, BlockLengthOf(opcode),
                       Cbwcb(opcode, 0, 0, 0, 0, Zeros(7)))
    ensures cbw.flags == if opcode in {0x00, 0x01, 0x1A, 0x1B, 0x20, 0x2B, 0xAA, 0x03, 0x04, 0x14, 0x17, 0x21, 0x24}
                         then 0x80 else 0
    ensures cbw.cbLength == if opcode in {0x00, 0x01, 0x1A, 0x1B, 0x20, 0x2B, 0xAA, 0xFF, 0x16, 0x1E, 0x2A} then 6
                            else if opcode in {0x03, 0x04, 0x14, 0x17, 0x21, 0x24, 0x05, 0x15, 0x18, 0x19, 0x06, 0x0B,
                                               0x1F, 0x22, 0x23, 0x25} then 10
                            else 16
  {
    cbw := New(Cbwcb(0, 0, 0, 0, 0, Zeros(7)), tag);
    cbw := cbw.(cb := cbw.cb.(operCode := opcode));
    if ShortIn(opcode) {
      cbw := cbw.(flags := DIRECTION_IN, cbLength := 0x06);
    } else if ShortOut(opcode) {
      cbw := cbw.(flags := DIRECTION_OUT, cbLength := 0x06);
    } else if LongIn(opcode) {
      cbw := cbw.(flags := DIRECTION_IN, cbLength := 0x0A);
    } else if LongOut(opcode) {
      cbw := cbw.(flags := DIRECTION_OUT, cbLength := 0x0A);
    }
  }

  /** `to_be` on a little-endian host: the integer whose in-memory bytes are the big-endian bytes of `x`. */
  function ToBe32(x: u32): u32 {
    FromLe32(Be32(x))
  }

  function ToBe16(x: u16): u16 {
    FromLe16(Be16(x))
  }

  function BlockBytes(cb: Cbwcb): (b: seq<byte>)
    requires |cb.reserved3| == 7
    ensures |b| == 16
  {
    [cb.operCode, cb.reserved] + Le32(cb.address) + [cb.reserved2] + Le16(cb.length) + cb.reserved3
  }

  /** The packed image of the wrapper in the memory of a little-endian host. */
  function AsBytes(c: Cbw): (b: seq<byte>)
    requires |c.cb.reserved3| == 7
    ensures |b| == CBW_LENGTH
  {
    Le32(c.signature) + Le32(c.tag) + Le32(c.dataTransferLength) + [c.flags, c.lun, c.cbLength] + BlockBytes(c.cb)
  }

  /** What a device learns from a command wrapper. */
  datatype Request = Request(tag: u32, transferLength: u32, dataIn: bool, lun: byte, blockLength: byte, opcode: byte,
                             subcode: byte, lba: u32, count: u16)

  /** The device's reading of a transfer as a command wrapper: 31 bytes, the signature, little-endian
      wrapper fields, big-endian address and count in the command block. */
  function ReadCbw(b: seq<byte>): Option<Request> {
    if |b| != CBW_LENGTH || FromLe32(b[0..4]) != CBW_SIGN then None
    else Some(Request(FromLe32(b[4..8]), FromLe32(b[8..12]), b[12] == DIRECTION_IN, b[13], b[14], b[15], b[16],
                      FromBe32(b[17..21]), FromBe16(b[22..24])))
  }

  lemma ByteSwap(h: u16, w: u32)
    ensures Le16(ToBe16(h)) == Be16(h)
    ensures Le32(ToBe32(w)) == Be32(w)
  {
    var p, q, r, s := w / 16777216, w / 65536 % 256, w / 256 % 256, w % 256;
    DigitSum(w);
    assert ToBe32(w) == p + 256 * q + 65536 * r + 16777216 * s;
    Digits(p, q, r, s);
  }

  lemma BlockSlices(cb: Cbwcb)
    requires |cb.reserved3| == 7
    ensures var b := BlockBytes(cb);
            b[0] == cb.operCode && b[1] == cb.reserved && b[2..6] == Le32(cb.address) && b[7..9] == Le16(cb.length)
  {
  }

  lemma WrapperSlices(c: Cbw)
    requires |c.cb.reserved3| == 7
    ensures var b := AsBytes(c);
            && b[0..4] == Le32(c.signature) && b[4..8] == Le32(c.tag) && b[8..12] == Le32(c.dataTransferLength)
            && b[12] == c.flags && b[13] == c.lun && b[14] == c.cbLength && b[15..] == BlockBytes(c.cb)
  {
  }

  /** Whatever the host puts into the wrapper, the device reads back, for every 32-bit address and
      16-bit count: the wrapper is little-endian, the command block big-endian. */
  lemma CommandRoundTrip(c: Cbw, lba: u32, count: u16)
    requires |c.cb.reserved3| == 7
    requires c.signature == CBW_SIGN
    requires c.cb.address == ToBe32(lba) && c.cb.length == ToBe16(count)
    ensures ReadCbw(AsBytes(c)) == Some(Request(c.tag, c.dataTransferLength, c.flags == DIRECTION_IN, c.lun,
                                                c.cbLength, c.cb.operCode, c.cb.reserved, lba, count))
  {
    WrapperSlices(c);
    BlockSlices(c.cb);
    var b := AsBytes(c);
    assert b[15] == b[15..][0] && b[16] == b[15..][1];
    assert b[17..21] == b[15..][2..6] && b[22..24] == b[15..][7..9];
    ByteSwap(count, lba);
    IntegersRoundTrip(count, c.signature);
    IntegersRoundTrip(count, c.tag);
    IntegersRoundTrip(count, c.dataTransferLength);
    IntegersRoundTrip(count, lba);
  }

  /** Every byte on the wire: "USBC", little-endian numbers, and from byte 17 on the big-endian address and count. */
  lemma WireImage(c: Cbw, lba: u32, count: u16)
    requires |c.cb.reserved3| == 7
    requires c.signature == CBW_SIGN
    requires c.cb.address == ToBe32(lba) && c.cb.length == ToBe16(count)
    ensures var t, n := c.tag, c.dataTransferLength;
            AsBytes(c) == [0x55, 0x53, 0x42, 0x43, t % 256, t / 256 % 256, t / 65536 % 256, t / 0x100_0000,
                           n % 256, n / 256 % 256, n / 65536 % 256, n / 0x100_0000, c.flags, c.lun, c.cbLength,
                           c.cb.operCode, c.cb.reserved, lba / 0x100_0000, lba / 65536 % 256, lba / 256 % 256, lba % 256,
                           c.cb.reserved2, count / 256, count % 256] + c.cb.reserved3
  {
    ByteSwap(count, lba);
    assert Le32(CBW_SIGN) == [0x55, 0x53, 0x42, 0x43];
  }

  /** The device's status wrapper on the wire. */
  function CswBytes(c: Csw): (b: seq<byte>)
    ensures |b| == CSW_LENGTH
  {
    Le32(c.signature) + Le32(c.tag) + Le32(c.dataResidue) + [c.status]
  }

  /** Its bytes: "USBS" and little-endian numbers. */
  lemma StatusImage(c: Csw)
    requires c.signature == CSW_SIGN
    ensures var t, n := c.tag, c.dataResidue;
            CswBytes(c) == [0x55, 0x53, 0x42, 0x53, t % 256, t / 256 % 256, t / 65536 % 256, t / 0x100_0000,
                            n % 256, n / 256 % 256, n / 65536 % 256, n / 0x100_0000, c.status]
  {
    assert Le32(CSW_SIGN) == [0x55, 0x53, 0x42, 0x53];
  }

  /** The host's reading of 13 received bytes. */
  function ParseCsw(b: seq<byte>): Csw
    requires |b| == CSW_LENGTH
  {
    Csw(FromLe32(b[0..4]), FromLe32(b[4..8]), FromLe32(b[8..12]), b[12])
  }

  lemma CswRoundTrip(c: Csw)
    ensures ParseCsw(CswBytes(c)) == c
  {
    var b := CswBytes(c);
    assert b[0..4] == Le32(c.signature) && b[4..8] == Le32(c.tag) && b[8..12] == Le32(c.dataResidue);
    IntegersRoundTrip(0, c.signature);
    IntegersRoundTrip(0, c.tag);
    IntegersRoundTrip(0, c.dataResidue);
  }
}
