/** The 16-bit cyclic redundancy checks: polynomial 0x1021, most significant bit first, no final xor; initial
    value 0 for the headers of an IDBlock, 0xFFFF for vendor requests. */
module Crc16 {
  import opened Bytes

  const HEADER_INIT: bv16 := 0x0000
  const VENDOR_INIT: bv16 := 0xFFFF

  function Shift(c: bv16): bv16 {
    if c & 0x8000 != 0 then (c << 1) ^ 0x1021 else c << 1
  }

  function Shift4(c: bv16): bv16 {
    Shift(Shift(Shift(Shift(c))))
  }

  function Shift8(c: bv16): bv16 {
    Shift4(Shift4(c))
  }

  function Insert(c: bv16, b: bv8): bv16 {
    c ^ ((b as bv16) << 8)
  }

  function Step(c: bv16, b: bv8): bv16 {
    Shift8(Insert(c, b))
  }

  /** The check over `data`, continuing from `c`. */
  function Checksum(c: bv16, data: seq<byte>): bv16
    decreases |data|
  {
    if data == [] then c else Checksum(Step(c, data[0] as bv8), data[1..])
  }

  function High(c: bv16): bv8 {
    (c >> 8) as bv8
  }

  function Low(c: bv16): bv8 {
    (c & 0xFF) as bv8
  }

  lemma {:induction false} ChecksumAppend(c: bv16, a: seq<byte>, b: seq<byte>)
    ensures Checksum(c, a + b) == Checksum(Checksum(c, a), b)
    decreases |a|
  {
    if a == [] {
      assert a + b == b;
    } else {
      assert (a + b)[1..] == a[1..] + b;
      ChecksumAppend(Step(c, a[0] as bv8), a[1..], b);
    }
  }

  lemma CancelsItself(c: bv16)
    ensures Step(Step(c, High(c)), Low(c)) == 0
  {
  }

  lemma ByteAndBack(b: bv8)
    ensures (b as int) as bv8 == b
  {
  }

  lemma ChecksumOne(c: bv16, b: byte)
    ensures Checksum(c, [b]) == Step(c, b as bv8)
  {
    assert Checksum(Step(c, b as bv8), [b][1..]) == Step(c, b as bv8);
  }

  /** A stream followed by its own check, high byte first, checks to zero, from any initial value. */
  lemma SelfCheck(init: bv16, data: seq<byte>)
    ensures var c := Checksum(init, data); Checksum(init, data + [High(c) as int, Low(c) as int]) == 0
  {
    var c := Checksum(init, data);
    var h, l := High(c) as int, Low(c) as int;
    ChecksumAppend(init, data, [h, l]);
    ChecksumAppend(c, [h], [l]);
    assert [h] + [l] == [h, l];
    ChecksumOne(c, h);
    ChecksumOne(Step(c, High(c)), l);
    ByteAndBack(High(c));
    ByteAndBack(Low(c));
    CancelsItself(c);
  }

  // ----- Known answers -----

  /** "123456789" */
  const CHECK_INPUT: seq<byte> := [0x31, 0x32, 0x33, 0x34, 0x35, 0x36, 0x37, 0x38, 0x39]

  lemma OneMore(c: bv16, b: byte, v: bv8, rest: seq<byte>)
    requires v as int == b
    ensures Checksum(c, [b] + rest) == Checksum(Step(c, v), rest)
  {
    hide Step;
    assert ([b] + rest)[1..] == rest;
    ByteAndBack(v);
  }

  lemma CheckInput(c: bv16)
    ensures Checksum(c, CHECK_INPUT) == Step(Step(Step(Step(Step(Step(Step(Step(Step(c,
              0x31), 0x32), 0x33), 0x34), 0x35), 0x36), 0x37), 0x38), 0x39)
  {
    hide Step, Checksum;
    var d := CHECK_INPUT;
    var c3 := Step(Step(Step(c, 0x31), 0x32), 0x33);
    var c6 := Step(Step(Step(c3, 0x34), 0x35), 0x36);
    assert d == [0x31] + ([0x32] + ([0x33] + d[3..]));
    assert d[3..] == [0x34] + ([0x35] + ([0x36] + d[6..]));
    assert d[6..] == [0x37] + ([0x38] + ([0x39] + []));
    OneMore(c, 0x31, 0x31, [0x32] + ([0x33] + d[3..]));
    OneMore(Step(c, 0x31), 0x32, 0x32, [0x33] + d[3..]);
    OneMore(Step(Step(c, 0x31), 0x32), 0x33, 0x33, d[3..]);
    OneMore(c3, 0x34, 0x34, [0x35] + ([0x36] + d[6..]));
    OneMore(Step(c3, 0x34), 0x35, 0x35, [0x36] + d[6..]);
    OneMore(Step(Step(c3, 0x34), 0x35), 0x36, 0x36, d[6..]);
    OneMore(c6, 0x37, 0x37, [0x38] + ([0x39] + []));
    OneMore(Step(c6, 0x37), 0x38, 0x38, [0x39] + []);
    OneMore(Step(Step(c6, 0x37), 0x38), 0x39, 0x39, []);
    ChecksumNothing(Step(Step(Step(c6, 0x37), 0x38), 0x39));
  }

  lemma ChecksumNothing(c: bv16)
    ensures Checksum(c, []) == c
  {
  }

  /** The published check values of the two algorithms. */
  lemma KnownAnswers()
    ensures Checksum(HEADER_INIT, CHECK_INPUT) == 0x31C3
    ensures Checksum(VENDOR_INIT, CHECK_INPUT) == 0x29B1
  {
    hide Checksum;
    CheckInput(HEADER_INIT);
    CheckInput(VENDOR_INIT);
    assert Step(0x0000, 0x31) == 0x2672;
    assert Step(0x2672, 0x32) == 0x20B5;
    assert Step(0x20B5, 0x33) == 0x9752;
    assert Step(0x9752, 0x34) == 0xD789;
    assert Step(0xD789, 0x35) == 0x546C;
    assert Step(0x546C, 0x36) == 0x20E4;
    assert Step(0x20E4, 0x37) == 0x86D6;
    assert Step(0x86D6, 0x38) == 0x9015;
    assert Step(0x9015, 0x39) == 0x31C3;
    assert Step(0xFFFF, 0x31) == 0xC782;
    assert Step(0xC782, 0x32) == 0x3DBA;
    assert Step(0x3DBA, 0x33) == 0x5BCE;
    assert Step(0x5BCE, 0x34) == 0x5349;
    assert Step(0x5349, 0x35) == 0x4560;
    assert Step(0x4560, 0x36) == 0x2EF4;
    assert Step(0x2EF4, 0x37) == 0x7718;
    assert Step(0x7718, 0x38) == 0xA12B;
    assert Step(0xA12B, 0x39) == 0x29B1;
  }

  // ----- Linearity -----

  lemma ShiftLeftLinear(c: bv16, d: bv16)
    ensures (c ^ d) << 1 == (c << 1) ^ (d << 1)
  {
  }

  lemma TopBitLinear(c: bv16, d: bv16)
    ensures (c ^ d) & 0x8000 == (c & 0x8000) ^ (d & 0x8000)
  {
  }

  lemma TopBit(c: bv16)
    ensures c & 0x8000 == 0 || c & 0x8000 == 0x8000
  {
  }

  lemma XorRegroup(a: bv16, b: bv16, k: bv16)
    ensures (a ^ k) ^ b == (a ^ b) ^ k && (a ^ k) ^ (b ^ k) == a ^ b && a ^ (b ^ k) == (a ^ b) ^ k
  {
  }

  function Xor16(c: bv16, d: bv16): bv16 {
    c ^ d
  }

  function Xor8(x: bv8, y: bv8): bv8 {
    x ^ y
  }

  lemma ShiftLinear(c: bv16, d: bv16)
    ensures Shift(Xor16(c, d)) == Xor16(Shift(c), Shift(d))
  {
    ShiftLeftLinear(c, d);
    TopBitLinear(c, d);
    TopBit(c);
    TopBit(d);
    XorRegroup(c << 1, d << 1, 0x1021);
  }

  lemma Shift4Linear(c: bv16, d: bv16)
    ensures Shift4(Xor16(c, d)) == Xor16(Shift4(c), Shift4(d))
  {
    hide Shift, Xor16;
    ShiftLinear(c, d);
    ShiftLinear(Shift(c), Shift(d));
    ShiftLinear(Shift(Shift(c)), Shift(Shift(d)));
    ShiftLinear(Shift(Shift(Shift(c))), Shift(Shift(Shift(d))));
  }

  lemma Shift8Linear(c: bv16, d: bv16)
    ensures Shift8(Xor16(c, d)) == Xor16(Shift8(c), Shift8(d))
  {
    hide Shift4, Xor16;
    Shift4Linear(c, d);
    Shift4Linear(Shift4(c), Shift4(d));
  }

  lemma InsertLinear(c: bv16, d: bv16, x: bv8, y: bv8)
    ensures Insert(Xor16(c, d), Xor8(x, y)) == Xor16(Insert(c, x), Insert(d, y))
  {
  }

  lemma StepLinear(c: bv16, d: bv16, x: bv8, y: bv8)
    ensures Step(Xor16(c, d), Xor8(x, y)) == Xor16(Step(c, x), Step(d, y))
  {
    hide Shift8, Xor16, Xor8, Insert;
    InsertLinear(c, d, x, y);
    Shift8Linear(Insert(c, x), Insert(d, y));
  }

  function XorByte(a: byte, b: byte): byte {
    Xor8(a as bv8, b as bv8) as int
  }

  function XorBytes(a: seq<byte>, b: seq<byte>): (r: seq<byte>)
    requires |a| == |b|
    ensures |r| == |a| && forall i | 0 <= i < |a| :: r[i] == XorByte(a[i], b[i])
  {
    seq(|a|, i requires 0 <= i < |a| => XorByte(a[i], b[i]))
  }

  /** The check is linear over xor of equally long inputs. */
  lemma {:induction false} Linear(c: bv16, d: bv16, a: seq<byte>, b: seq<byte>)
    requires |a| == |b|
    ensures Checksum(Xor16(c, d), XorBytes(a, b)) == Xor16(Checksum(c, a), Checksum(d, b))
    decreases |a|
  {
    hide Step, Xor16, Xor8;
    if a != [] {
      ByteAndBack(Xor8(a[0] as bv8, b[0] as bv8));
      StepLinear(c, d, a[0] as bv8, b[0] as bv8);
      assert XorBytes(a, b)[1..] == XorBytes(a[1..], b[1..]);
      Linear(Step(c, a[0] as bv8), Step(d, b[0] as bv8), a[1..], b[1..]);
    }
  }

  // ----- Detection -----

  lemma LostBit(c: bv16, d: bv16)
    requires c << 1 == d << 1 && c & 0x8000 == d & 0x8000
    ensures c == d
  {
  }

  lemma LowBits(c: bv16)
    ensures (c << 1) & 1 == 0 && ((c << 1) ^ 0x1021) & 1 == 1
    ensures ((c << 1) ^ 0x1021) ^ 0x1021 == c << 1
    ensures c & 0x8000 == 0 || c & 0x8000 == 0x8000
  {
  }

  lemma ShiftInjective(c: bv16, d: bv16)
    requires Shift(c) == Shift(d)
    ensures c == d
  {
    LowBits(c);
    LowBits(d);
    LostBit(c, d);
  }

  lemma Shift4Injective(c: bv16, d: bv16)
    requires Shift4(c) == Shift4(d)
    ensures c == d
  {
    hide Shift;
    ShiftInjective(Shift(Shift(Shift(c))), Shift(Shift(Shift(d))));
    ShiftInjective(Shift(Shift(c)), Shift(Shift(d)));
    ShiftInjective(Shift(c), Shift(d));
    ShiftInjective(c, d);
  }

  lemma Shift8Injective(c: bv16, d: bv16)
    requires Shift8(c) == Shift8(d)
    ensures c == d
  {
    hide Shift4;
    Shift4Injective(Shift4(c), Shift4(d));
    Shift4Injective(c, d);
  }

  lemma InsertInjective(c: bv16, d: bv16, x: bv8, y: bv8)
    ensures Insert(c, x) == Insert(d, x) ==> c == d
    ensures Insert(c, x) == Insert(c, y) ==> x == y
  {
  }

  /** The step is injective in the state and in the byte. */
  lemma StepInjective(c: bv16, d: bv16, x: bv8, y: bv8)
    ensures Step(c, x) == Step(d, x) ==> c == d
    ensures Step(c, x) == Step(c, y) ==> x == y
  {
    hide Shift8, Insert;
    InsertInjective(c, d, x, y);
    if Step(c, x) == Step(d, x) { Shift8Injective(Insert(c, x), Insert(d, x)); }
    if Step(c, x) == Step(c, y) { Shift8Injective(Insert(c, x), Insert(c, y)); }
  }

  lemma {:induction false} StateMatters(c: bv16, d: bv16, data: seq<byte>)
    requires c != d
    ensures Checksum(c, data) != Checksum(d, data)
    decreases |data|
  {
    hide Step;
    if data != [] {
      StepInjective(c, d, data[0] as bv8, 0);
      StateMatters(Step(c, data[0] as bv8), Step(d, data[0] as bv8), data[1..]);
    }
  }

  lemma ByteDiffers(x: byte, y: byte)
    requires x != y
    ensures x as bv8 != y as bv8
  {
    BitsAndBack(x);
    BitsAndBack(y);
  }

  lemma NibbleAndBack(x: byte)
    requires x < 16
    ensures (x as bv8) as int == x
  {
  }

  lemma BitsAndBack(x: byte)
    ensures (x as bv8) as int == x
  {
    var h, l := x / 16, x % 16;
    NibbleAndBack(h);
    NibbleAndBack(l);
    var bits: bv8 := ((h as bv8) << 4) | (l as bv8);
    assert bits as int == x;
  }

  /** Changing any one byte changes the check. */
  lemma {:induction false} DetectsOneByte(c: bv16, data: seq<byte>, k: nat, b: byte)
    requires k < |data| && b != data[k]
    ensures Checksum(c, data[k := b]) != Checksum(c, data)
    decreases |data|
  {
    hide Step;
    if k == 0 {
      ByteDiffers(data[0], b);
      StepInjective(c, c, data[0] as bv8, b as bv8);
      assert data[0 := b][1..] == data[1..];
      StateMatters(Step(c, b as bv8), Step(c, data[0] as bv8), data[1..]);
    } else {
      assert data[k := b][1..] == data[1..][k - 1 := b];
      DetectsOneByte(Step(c, data[0] as bv8), data[1..], k - 1, b);
    }
  }
}
