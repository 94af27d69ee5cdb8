/** RC4 under the key of the IDBlocks: its schedule, step by step, and the first bytes of its keystream. */
module Rc4Blocks {
  import opened Bytes
  import opened Rc4
  import opened Rc4Records

  /** Where each step swaps to. */
  function BlockTarget(i: int): int {
    if i < 16 then Pick(i, 124, 203, 208, 215, 48, 58, 73, 87, 140, 193, 70, 137, 172, 198, 235, 11)
    else if i < 32 then Pick(i - 16, 151, 246, 11, 34, 139, 165, 196, 226, 39, 108, 1, 84, 135, 177, 230, 22)
    else if i < 48 then Pick(i - 32, 178, 33, 55, 94, 215, 1, 48, 79, 164, 249, 158, 1, 68, 126, 195, 3)
    else if i < 64 then Pick(i - 48, 165, 36, 89, 144, 25, 83, 146, 172, 17, 118, 246, 105, 188, 6, 91, 171)
    else if i < 80 then Pick(i - 64, 103, 246, 59, 130, 3, 77, 96, 174, 35, 85, 26, 157, 0, 82, 183, 224)
    else if i < 96 then Pick(i - 80, 172, 75, 147, 204, 60, 71, 166, 180, 57, 151, 108, 226, 85, 191, 249, 105)
    else if i < 112 then Pick(i - 96, 239, 158, 3, 106, 35, 141, 252, 67, 216, 99, 65, 228, 85, 207, 84, 212)
    else if i < 128 then Pick(i - 112, 192, 127, 244, 107, 52, 174, 240, 110, 19, 184, 173, 96, 119, 1, 69, 199)
    else if i < 144 then Pick(i - 128, 195, 146, 216, 95, 56, 194, 81, 116, 41, 96, 101, 177, 208, 66, 231, 135)
    else if i < 160 then Pick(i - 144, 54, 21, 153, 226, 203, 101, 4, 61, 2, 175, 196, 151, 74, 162, 26, 202)
    else if i < 176 then Pick(i - 160, 230, 213, 35, 202, 71, 114, 209, 127, 84, 41, 78, 197, 44, 179, 63, 209)
    else if i < 192 then Pick(i - 176, 253, 95, 130, 0, 92, 22, 213, 42, 208, 181, 234, 221, 48, 250, 207, 61)
    else if i < 208 then Pick(i - 192, 41, 128, 8, 140, 123, 191, 213, 77, 66, 55, 85, 33, 109, 71, 44, 251)
    else if i < 224 then Pick(i - 208, 240, 191, 148, 107, 47, 65, 32, 75, 187, 192, 21, 40, 27, 227, 216, 200)
    else if i < 240 then Pick(i - 224, 92, 139, 211, 146, 82, 60, 229, 122, 143, 164, 217, 31, 34, 28, 33, 60)
    else Pick(i - 240, 49, 112, 101, 92, 35, 29, 103, 101, 138, 217, 17, 7, 132, 65, 86, 102)
  }

  /** What each step finds. */
  function BlockMet(i: int): int {
    if i < 16 then Pick(i, 0, 1, 2, 3, 4, 5, 6, 7, 8, 9, 10, 11, 12, 13, 14, 15)
    else if i < 32 then Pick(i - 16, 16, 17, 18, 19, 20, 21, 22, 23, 24, 25, 26, 27, 28, 29, 30, 31)
    else if i < 48 then Pick(i - 32, 32, 33, 19, 35, 36, 37, 38, 24, 40, 41, 42, 43, 44, 45, 46, 47)
    else if i < 64 then Pick(i - 48, 38, 49, 50, 51, 52, 53, 54, 19, 56, 57, 5, 59, 60, 61, 62, 63)
    else if i < 80 then Pick(i - 64, 64, 65, 66, 67, 44, 69, 10, 71, 72, 6, 74, 75, 76, 69, 78, 24)
    else if i < 96 then Pick(i - 80, 80, 81, 69, 53, 27, 6, 86, 7, 88, 50, 90, 62, 92, 93, 35, 95)
    else if i < 112 then Pick(i - 96, 10, 97, 98, 99, 100, 101, 102, 64, 104, 95, 99, 107, 90, 109, 110, 111)
    else if i < 128 then Pick(i - 112, 112, 113, 114, 115, 116, 117, 57, 119, 120, 121, 122, 123, 0, 125, 45, 113)
    else if i < 144 then Pick(i - 128, 128, 129, 67, 131, 132, 133, 134, 28, 136, 11, 138, 20, 8, 101, 142, 143)
    else if i < 160 then Pick(i - 144, 51, 145, 129, 69, 148, 149, 150, 50, 152, 129, 154, 155, 156, 75, 97, 159)
    else if i < 176 then Pick(i - 160, 160, 161, 75, 163, 40, 38, 86, 167, 168, 169, 170, 63, 80, 122, 117, 129)
    else if i < 192 then Pick(i - 176, 176, 20, 32, 122, 7, 181, 182, 78, 121, 185, 186, 187, 60, 189, 190, 93)
    else if i < 208 then Pick(i - 192, 112, 9, 133, 128, 154, 63, 13, 113, 200, 201, 163, 148, 53, 205, 206, 190)
    else if i < 224 then Pick(i - 208, 121, 129, 210, 211, 111, 13, 214, 36, 67, 217, 218, 219, 220, 187, 222, 223)
    else if i < 240 then Pick(i - 224, 24, 225, 69, 187, 107, 229, 160, 142, 232, 233, 186, 14, 236, 237, 238, 10)
    else Pick(i - 240, 121, 241, 242, 243, 114, 245, 65, 247, 248, 35, 189, 190, 102, 176, 254, 255)
  }

  /** The last step before that swapped something there; the step itself if there is none. */
  function BlockLast(i: int): int {
    if i < 16 then Pick(i, 0, 1, 2, 3, 4, 5, 6, 7, 8, 9, 10, 11, 12, 13, 14, 15)
    else if i < 32 then Pick(i - 16, 16, 17, 18, 19, 20, 21, 22, 23, 24, 25, 26, 27, 28, 29, 30, 31)
    else if i < 48 then Pick(i - 32, 32, 33, 19, 35, 36, 37, 38, 24, 40, 41, 42, 43, 44, 45, 46, 47)
    else if i < 64 then Pick(i - 48, 38, 49, 50, 51, 52, 53, 54, 34, 56, 57, 5, 59, 60, 61, 62, 63)
    else if i < 80 then Pick(i - 64, 64, 65, 66, 67, 44, 69, 10, 71, 72, 6, 74, 75, 76, 69, 78, 39)
    else if i < 96 then Pick(i - 80, 80, 81, 77, 53, 27, 73, 86, 7, 88, 50, 90, 62, 92, 93, 35, 95)
    else if i < 112 then Pick(i - 96, 70, 97, 98, 99, 100, 101, 102, 64, 104, 95, 99, 107, 90, 109, 110, 111)
    else if i < 128 then Pick(i - 112, 112, 113, 114, 115, 116, 117, 57, 119, 120, 121, 122, 123, 0, 125, 45, 113)
    else if i < 144 then Pick(i - 128, 128, 129, 67, 131, 132, 133, 134, 28, 136, 11, 138, 20, 8, 101, 142, 143)
    else if i < 160 then Pick(i - 144, 51, 145, 129, 82, 148, 149, 150, 89, 152, 146, 154, 155, 156, 75, 97, 159)
    else if i < 176 then Pick(i - 160, 160, 161, 157, 163, 40, 48, 86, 167, 168, 169, 170, 63, 80, 122, 117, 153)
    else if i < 192 then Pick(i - 176, 176, 139, 32, 173, 87, 181, 182, 78, 121, 185, 186, 187, 60, 189, 190, 93)
    else if i < 208 then Pick(i - 192, 112, 9, 133, 128, 154, 171, 13, 127, 200, 201, 163, 148, 83, 205, 206, 190)
    else if i < 224 then Pick(i - 208, 184, 175, 210, 211, 111, 198, 214, 36, 130, 217, 218, 219, 220, 187, 222, 223)
    else if i < 240 then Pick(i - 224, 79, 225, 147, 221, 107, 229, 160, 142, 232, 233, 186, 14, 236, 237, 238, 96)
    else Pick(i - 240, 208, 241, 242, 243, 114, 245, 65, 247, 248, 94, 189, 207, 102, 176, 254, 255)
  }

  /** The key, over and over. */
  function BlockKey(i: int): int {
    if i < 16 then Once(i)
    else if i < 32 then Once(i - 16)
    else if i < 48 then Once(i - 32)
    else if i < 64 then Once(i - 48)
    else if i < 80 then Once(i - 64)
    else if i < 96 then Once(i - 80)
    else if i < 112 then Once(i - 96)
    else if i < 128 then Once(i - 112)
    else if i < 144 then Once(i - 128)
    else if i < 160 then Once(i - 144)
    else if i < 176 then Once(i - 160)
    else if i < 192 then Once(i - 176)
    else if i < 208 then Once(i - 192)
    else if i < 224 then Once(i - 208)
    else if i < 240 then Once(i - 224)
    else Once(i - 240)
  }

  function Once(i: int): int {
    Pick(i, 124, 78, 3, 4, 85, 5, 9, 7, 45, 44, 123, 56, 23, 13, 23, 17)
  }

  lemma OnceIsKey(i: nat)
    requires i < 16
    ensures Once(i) == RC4_KEY[i]
  {
  }

  lemma BlockRow(q: nat, t: nat)
    requires q < 16 && t < 16
    ensures BlockKey(16 * q + t) == Once(t)
  {
    hide Once;
  }

  lemma BlockRepeats(i: byte)
    ensures BlockKey(i) == RC4_KEY[i % 16]
  {
    hide Once;
    var q, t := i / 16, i % 16;
    assert i == 16 * q + t;
    OnceIsKey(t);
    BlockRow(q, t);
  }

  function Block(): (r: Record)
    ensures r.Whole()
  {
    Record(RC4_KEY, seq(256, i requires 0 <= i < 256 => AsByte(BlockTarget(i))),
           seq(256, i requires 0 <= i < 256 => AsByte(BlockMet(i))))
  }

  predicate BlockSum(i: int) {
    var sum := (if i == 0 then 0 else BlockTarget(i - 1)) + BlockMet(i) + BlockKey(i);
    sum == BlockTarget(i) || sum == BlockTarget(i) + 256 || sum == BlockTarget(i) + 512
  }

  lemma BlockSums0(i: int)
    requires 0 <= i < 32
    ensures BlockSum(i)
  {
  }

  lemma BlockSums1(i: int)
    requires 32 <= i < 64
    ensures BlockSum(i)
  {
  }

  lemma BlockSums2(i: int)
    requires 64 <= i < 96
    ensures BlockSum(i)
  {
  }

  lemma BlockSums3(i: int)
    requires 96 <= i < 128
    ensures BlockSum(i)
  {
  }

  lemma BlockSums4(i: int)
    requires 128 <= i < 160
    ensures BlockSum(i)
  {
  }

  lemma BlockSums5(i: int)
    requires 160 <= i < 192
    ensures BlockSum(i)
  {
  }

  lemma BlockSums6(i: int)
    requires 192 <= i < 224
    ensures BlockSum(i)
  {
  }

  lemma BlockSums7(i: int)
    requires 224 <= i < 256
    ensures BlockSum(i)
  {
  }

  predicate BlockOwner(i: int) {
    var p := BlockLast(i);
    0 <= p <= i && if p == i then BlockMet(i) == i else BlockTarget(p) == i && BlockMet(p) == BlockMet(i)
  }

  lemma BlockOwners0(i: int)
    requires 0 <= i < 128
    ensures BlockOwner(i)
  {
  }

  lemma BlockOwners1(i: int)
    requires 128 <= i < 256
    ensures BlockOwner(i)
  {
  }

  lemma BlockLatest0(i: int, k: int)
    requires 0 <= i < 128 && 0 <= k < i && (BlockLast(i) == i || BlockLast(i) < k)
    ensures BlockTarget(k) != i
  {
  }

  lemma BlockLatest1(i: int, k: int)
    requires 128 <= i < 256 && 0 <= k < i && (BlockLast(i) == i || BlockLast(i) < k)
    ensures BlockTarget(k) != i
  {
  }

  lemma BlockBytes(i: int)
    requires 0 <= i < 256
    ensures 0 <= BlockTarget(i) < 256 && 0 <= BlockMet(i) < 256
  {
  }

  /** The record says what the tables say. */
  lemma BlockTables(k: byte)
    ensures Block().target[k] == BlockTarget(k) && Block().met[k] == BlockMet(k)
  {
    hide BlockTarget, BlockMet;
    BlockBytes(k);
  }

  lemma BlockAims(i: byte)
    ensures Aimed(Block(), i)
  {
    hide BlockTarget, BlockMet, BlockKey;
    BlockRepeats(i);
    BlockTables(i);
    if i > 0 { BlockTables(i - 1); }
    assert BlockSum(i) by {
      if i < 32 { BlockSums0(i); } else if i < 64 { BlockSums1(i); } else if i < 96 { BlockSums2(i); }
      else if i < 128 { BlockSums3(i); } else if i < 160 { BlockSums4(i); } else if i < 192 { BlockSums5(i); }
      else if i < 224 { BlockSums6(i); } else { BlockSums7(i); }
    }
    hide Block;
  }

  lemma BlockChecks(i: byte)
    ensures Checked(Block(), i)
  {
    hide BlockTarget, BlockMet, BlockLast, Aimed;
    var r := Block();
    BlockAims(i);
    BlockTables(i);
    if i < 128 { BlockOwners0(i); } else { BlockOwners1(i); }
    var p: nat := BlockLast(i);
    BlockTables(p);
    forall k | 0 <= k < i && (p == i || p < k) ensures r.target[k] != i {
      BlockTables(k);
      if i < 128 { BlockLatest0(i, k); } else { BlockLatest1(i, k); }
    }
    assert Last(r, i, i, p, r.met[i]);
  }

  lemma BlockTo(x: byte, n: nat, p: byte, v: byte)
    requires p < n <= 256 && BlockTarget(p) == x && BlockMet(p) == v && (x <= p || n <= x)
    requires forall k | p < k < n :: BlockTarget(k) != x
    ensures Value(Block(), x, n) == v
  {
    hide BlockTarget, BlockMet;
    BlockTables(p);
    forall k | p < k < n ensures Block().target[k] != x { BlockTables(k); }
    SwappedTo(Block(), x, n, p);
  }

  lemma BlockFrom(x: byte, n: nat, y: byte)
    requires x < n <= 256 && BlockTarget(x) == y && forall k | x <= k < n :: BlockTarget(k) != x
    ensures Value(Block(), x, n) == Value(Block(), y, x)
  {
    hide BlockTarget, BlockMet;
    BlockTables(x);
    forall k | x <= k < n ensures Block().target[k] != x { BlockTables(k); }
    SwappedFrom(Block(), x, n);
  }

  lemma BlockFresh(x: byte, n: nat)
    requires n <= x && forall k | 0 <= k < n :: BlockTarget(k) != x
    ensures Value(Block(), x, n) == x
  {
    hide BlockTarget, BlockMet;
    forall k | 0 <= k < n ensures Block().target[k] != x { BlockTables(k); }
    Untouched(Block(), x, 0, n);
  }

  lemma BlockEnds0()
    ensures Value(Block(), 1, 256) == 125
    ensures Value(Block(), 125, 256) == 43
  {
    hide Value, Block;
    assert Value(Block(), 1, 256) == 125 by {
      BlockTo(1, 256, 125, 125);
    }
    assert Value(Block(), 125, 256) == 43 by {
      BlockFrom(125, 256, 1);
      BlockTo(1, 125, 43, 43);
    }
  }

  lemma BlockEnds1()
    ensures Value(Block(), 168, 256) == 110
    ensures Value(Block(), 2, 256) == 152
  {
    hide Value, Block;
    assert Value(Block(), 168, 256) == 110 by {
      BlockFrom(168, 256, 84);
      BlockTo(84, 168, 110, 110);
    }
    assert Value(Block(), 2, 256) == 152 by {
      BlockTo(2, 256, 152, 152);
    }
  }

  lemma BlockEnds2()
    ensures Value(Block(), 21, 256) == 218
    ensures Value(Block(), 114, 256) == 38
  {
    hide Value, Block;
    assert Value(Block(), 21, 256) == 218 by {
      BlockTo(21, 256, 218, 218);
    }
    assert Value(Block(), 114, 256) == 38 by {
      BlockTo(114, 256, 165, 38);
    }
  }

  lemma BlockEnds3()
    ensures Value(Block(), 3, 256) == 98
    ensures Value(Block(), 119, 256) == 0
  {
    hide Value, Block;
    assert Value(Block(), 3, 256) == 98 by {
      BlockTo(3, 256, 98, 98);
    }
    assert Value(Block(), 119, 256) == 0 by {
      BlockTo(119, 256, 124, 0);
    }
  }

  lemma BlockEnds4()
    ensures Value(Block(), 98, 256) == 44
    ensures Value(Block(), 4, 256) == 150
  {
    hide Value, Block;
    assert Value(Block(), 98, 256) == 44 by {
      BlockFrom(98, 256, 3);
      BlockTo(3, 98, 68, 44);
    }
    assert Value(Block(), 4, 256) == 150 by {
      BlockTo(4, 256, 150, 150);
    }
  }

  lemma BlockEnds5()
    ensures Value(Block(), 13, 256) == 198
    ensures Value(Block(), 92, 256) == 243
  {
    hide Value, Block;
    assert Value(Block(), 13, 256) == 198 by {
      BlockFrom(13, 256, 198);
      BlockFresh(198, 13);
    }
    assert Value(Block(), 92, 256) == 243 by {
      BlockTo(92, 256, 243, 243);
    }
  }

  lemma BlockBytes12(st: State)
    requires |st.s| == 256 && st.i == 0 && st.j == 0
    requires st.s[1] == 125 && st.s[125] == 43 && st.s[168] == 110 && st.s[2] == 152 && st.s[21] == 218 && st.s[114] == 38
    requires st.s[3] == 98 && st.s[119] == 0 && st.s[98] == 44 && st.s[4] == 150 && st.s[13] == 198 && st.s[92] == 243
    ensures var r := Next(Next(st));
            && Output(Next(st)) == 0x6E && Output(r) == 0x26 && |r.s| == 256 && r.i == 2 && r.j == 21
            && r.s[3] == 98 && r.s[119] == 0 && r.s[98] == 44 && r.s[4] == 150 && r.s[13] == 198 && r.s[92] == 243
  {
    hide Next, Output;
    OneByte(st, 1, 125, 125, 43);
    OneByte(Next(st), 2, 21, 152, 218);
  }

  lemma BlockBytes34(st: State)
    requires |st.s| == 256 && st.i == 2 && st.j == 21
    requires st.s[3] == 98 && st.s[119] == 0 && st.s[98] == 44 && st.s[4] == 150 && st.s[13] == 198 && st.s[92] == 243
    ensures Output(Next(st)) == 0x2C && Output(Next(Next(st))) == 0xF3
  {
    hide Next, Output;
    OneByte(st, 3, 119, 98, 0);
    OneByte(Next(st), 4, 13, 150, 198);
  }

  lemma BlockStream()
    ensures var st := Start(RC4_KEY);
            && Output(After(st, 1)) == 0x6E && Output(After(st, 2)) == 0x26
            && Output(After(st, 3)) == 0x2C && Output(After(st, 4)) == 0xF3
  {
    hide Output, After, Next, BlockTarget, BlockMet;
    forall i: byte ensures Checked(Block(), i) { BlockChecks(i); }
    Scheduled(Block());
    BlockEnds0();
    BlockEnds1();
    BlockEnds2();
    BlockEnds3();
    BlockEnds4();
    BlockEnds5();
    var st := Start(RC4_KEY);
    BlockBytes12(st);
    BlockBytes34(Next(Next(st)));
    FourStates(st);
  }
}
