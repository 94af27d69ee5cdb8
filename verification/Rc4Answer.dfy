/** RC4 against known answers. */
module Rc4Answers {
  import opened Bytes
  import opened Crc16
  import opened Rc4
  import opened Rc4Words
  import opened Rc4Blocks

  lemma XorKnown()
    ensures XorByte(0x50, 0xEB) == 0xBB && XorByte(0x6C, 0x9F) == 0xF3
    ensures XorByte(0x61, 0x77) == 0x16 && XorByte(0x69, 0x81) == 0xE8
    ensures XorByte(0, 0x6E) == 0x6E && XorByte(0, 0x26) == 0x26 && XorByte(0, 0x2C) == 0x2C && XorByte(0, 0xF3) == 0xF3
  {
  }

  /** "Plai" under the key "Key", and the first bytes of a sector of zeros under the key of the blocks. */
  lemma KnownAnswers()
    ensures ApplyKeystream(Start([0x4B, 0x65, 0x79]), [0x50, 0x6C, 0x61, 0x69]) == [0xBB, 0xF3, 0x16, 0xE8]
    ensures Crypt(Zeros(SECTOR_SIZE))[..4] == [0x6E, 0x26, 0x2C, 0xF3]
  {
    hide Start, ApplyKeystream, After, Output, XorByte;
    WordStream();
    BlockStream();
    XorKnown();
    var text, blank := [0x50, 0x6C, 0x61, 0x69], Zeros(SECTOR_SIZE);
    FourBytes(Start([0x4B, 0x65, 0x79]), text);
    FourBytes(Start(RC4_KEY), blank);
    assert blank[..SECTOR_SIZE] == blank && blank[SECTOR_SIZE..] == [];
    CryptNothing();
    assert Crypt(blank) == ApplyKeystream(Start(RC4_KEY), blank) + [];
  }

  lemma FourBytes(st: State, data: seq<byte>)
    requires |st.s| == 256 && |data| >= 4
    ensures var r := ApplyKeystream(st, data);
            && r[0] == XorByte(data[0], Output(After(st, 1))) && r[1] == XorByte(data[1], Output(After(st, 2)))
            && r[2] == XorByte(data[2], Output(After(st, 3))) && r[3] == XorByte(data[3], Output(After(st, 4)))
  {
    hide ApplyKeystream, After, Output, XorByte;
    KeystreamAt(st, data, 0);
    KeystreamAt(st, data, 1);
    KeystreamAt(st, data, 2);
    KeystreamAt(st, data, 3);
  }
}
