/** RC4 under the key "Key": its schedule, step by step, and the first bytes of its keystream. */
module Rc4Words {
  import opened Bytes
  import opened Rc4
  import opened Rc4Records

  /** Where each step swaps to. */
  function WordTarget(i: int): int {
    if i < 16 then Pick(i, 75, 177, 44, 122, 227, 97, 178, 30, 159, 243, 98, 230, 61, 175, 54, 144)
    else if i < 32 then Pick(i - 16, 5, 143, 236, 100, 241, 81, 204, 92, 191, 61, 208, 54, 183, 77, 159, 35)
    else if i < 48 then Pick(i - 32, 188, 40, 175, 71, 182, 64, 223, 81, 215, 121, 238, 126, 249, 113, 4, 172)
    else if i < 64 then Pick(i - 48, 39, 189, 104, 230, 127, 45, 147, 47, 224, 100, 3, 183, 62, 188, 113, 251)
    else if i < 80 then Pick(i - 64, 133, 63, 204, 116, 49, 193, 108, 4, 151, 69, 8, 83, 4, 154, 51, 231)
    else if i < 96 then Pick(i - 80, 176, 34, 217, 82, 241, 171, 122, 28, 217, 171, 80, 16, 160, 72, 11, 227)
    else if i < 112 then Pick(i - 96, 142, 248, 123, 41, 199, 165, 86, 34, 205, 129, 80, 52, 197, 151, 126, 56)
    else if i < 128 then Pick(i - 112, 13, 194, 127, 87, 19, 211, 174, 158, 97, 239, 190, 19, 244, 234, 163, 122)
    else if i < 144 then Pick(i - 128, 115, 39, 14, 10, 217, 99, 98, 52, 33, 35, 248, 232, 237, 197, 138, 20)
    else if i < 160 then Pick(i - 144, 110, 100, 111, 213, 206, 220, 189, 143, 160, 132, 6, 26, 1, 3, 243, 69)
    else if i < 176 then Pick(i - 160, 66, 92, 73, 28, 57, 233, 244, 20, 7, 21, 56, 220, 112, 150, 87, 222)
    else if i < 192 then Pick(i - 176, 167, 243, 94, 138, 137, 163, 64, 198, 227, 21, 26, 58, 204, 173, 104, 249)
    else if i < 208 then Pick(i - 192, 4, 174, 99, 113, 154, 160, 38, 196, 5, 25, 72, 140, 240, 135, 148, 174)
    else if i < 224 then Pick(i - 208, 45, 119, 148, 110, 187, 33, 92, 246, 25, 2, 85, 123, 57, 143, 252, 135)
    else if i < 240 then Pick(i - 224, 56, 100, 171, 220, 11, 85, 1, 155, 139, 105, 49, 129, 12, 227, 114, 20)
    else Pick(i - 240, 120, 49, 156, 232, 243, 97, 205, 41, 44, 143, 238, 166, 19, 117, 236, 54)
  }

  /** What each step finds. */
  function WordMet(i: int): int {
    if i < 16 then Pick(i, 0, 1, 2, 3, 4, 5, 6, 7, 8, 9, 10, 11, 12, 13, 14, 15)
    else if i < 32 then Pick(i - 16, 16, 17, 18, 19, 20, 21, 22, 23, 24, 25, 26, 27, 28, 29, 7, 31)
    else if i < 48 then Pick(i - 32, 32, 33, 34, 31, 36, 37, 38, 39, 33, 41, 42, 43, 2, 45, 46, 47)
    else if i < 64 then Pick(i - 48, 48, 49, 50, 51, 52, 53, 27, 55, 56, 57, 58, 59, 60, 25, 60, 63)
    else if i < 80 then Pick(i - 64, 37, 65, 66, 67, 68, 69, 70, 31, 72, 73, 74, 0, 76, 29, 78, 79)
    else if i < 96 then Pick(i - 80, 80, 39, 82, 0, 84, 85, 86, 87, 88, 89, 90, 91, 23, 93, 94, 95)
    else if i < 112 then Pick(i - 96, 96, 5, 10, 99, 57, 101, 102, 103, 50, 105, 106, 107, 70, 109, 110, 111)
    else if i < 128 then Pick(i - 112, 112, 60, 114, 115, 67, 117, 118, 119, 120, 41, 86, 10, 124, 125, 110, 114)
    else if i < 144 then Pick(i - 128, 128, 105, 130, 131, 132, 37, 134, 135, 136, 137, 138, 139, 140, 141, 96, 17)
    else if i < 160 then Pick(i - 144, 15, 145, 146, 27, 148, 149, 150, 109, 152, 153, 29, 155, 156, 157, 119, 7)
    else if i < 176 then Pick(i - 160, 152, 161, 162, 110, 164, 101, 166, 167, 168, 169, 170, 89, 47, 173, 118, 34)
    else if i < 192 then Pick(i - 176, 80, 1, 6, 179, 180, 181, 36, 59, 184, 185, 186, 187, 25, 150, 86, 24)
    else if i < 208 then Pick(i - 192, 192, 69, 60, 195, 196, 141, 59, 57, 200, 201, 202, 203, 25, 50, 148, 207)
    else if i < 224 then Pick(i - 208, 26, 209, 210, 117, 212, 27, 214, 33, 216, 132, 218, 219, 89, 221, 34, 38)
    else if i < 240 then Pick(i - 224, 56, 225, 226, 184, 228, 229, 51, 79, 139, 101, 125, 235, 18, 140, 42, 41)
    else Pick(i - 240, 25, 84, 242, 1, 166, 245, 33, 247, 138, 24, 250, 63, 34, 253, 254, 255)
  }

  /** The last step before that swapped something there; the step itself if there is none. */
  function WordLast(i: int): int {
    if i < 16 then Pick(i, 0, 1, 2, 3, 4, 5, 6, 7, 8, 9, 10, 11, 12, 13, 14, 15)
    else if i < 32 then Pick(i - 16, 16, 17, 18, 19, 20, 21, 22, 23, 24, 25, 26, 27, 28, 29, 7, 31)
    else if i < 48 then Pick(i - 32, 32, 33, 34, 31, 36, 37, 38, 39, 33, 41, 42, 43, 2, 45, 46, 47)
    else if i < 64 then Pick(i - 48, 48, 49, 50, 51, 52, 53, 27, 55, 56, 57, 58, 59, 60, 25, 60, 63)
    else if i < 80 then Pick(i - 64, 37, 65, 66, 67, 68, 69, 70, 35, 72, 73, 74, 0, 76, 29, 78, 79)
    else if i < 96 then Pick(i - 80, 80, 39, 82, 75, 84, 85, 86, 87, 88, 89, 90, 91, 23, 93, 94, 95)
    else if i < 112 then Pick(i - 96, 96, 5, 10, 99, 57, 101, 102, 103, 50, 105, 106, 107, 70, 109, 110, 111)
    else if i < 128 then Pick(i - 112, 112, 62, 114, 115, 67, 117, 118, 119, 120, 41, 86, 98, 124, 125, 110, 114)
    else if i < 144 then Pick(i - 128, 128, 105, 130, 131, 132, 64, 134, 135, 136, 137, 138, 139, 140, 141, 96, 17)
    else if i < 160 then Pick(i - 144, 15, 145, 146, 54, 148, 149, 150, 109, 152, 153, 77, 155, 156, 157, 119, 30)
    else if i < 176 then Pick(i - 160, 152, 161, 162, 126, 164, 101, 166, 167, 168, 169, 170, 89, 47, 173, 118, 34)
    else if i < 192 then Pick(i - 176, 80, 1, 6, 179, 180, 181, 36, 59, 184, 185, 186, 187, 61, 150, 122, 24)
    else if i < 208 then Pick(i - 192, 192, 69, 113, 195, 196, 141, 183, 100, 200, 201, 202, 203, 188, 104, 148, 207)
    else if i < 224 then Pick(i - 208, 26, 209, 210, 117, 212, 147, 214, 40, 216, 132, 218, 219, 171, 221, 175, 38)
    else if i < 240 then Pick(i - 224, 56, 225, 226, 184, 228, 229, 51, 79, 139, 165, 125, 235, 18, 140, 42, 121)
    else Pick(i - 240, 204, 84, 242, 177, 166, 245, 215, 247, 138, 191, 250, 63, 222, 253, 254, 255)
  }

  /** The key, over and over. */
  function WordKey(i: int): int {
    if i < 16 then Pick(i, 75, 101, 121, 75, 101, 121, 75, 101, 121, 75, 101, 121, 75, 101, 121, 75)
    else if i < 32 then Pick(i - 16, 101, 121, 75, 101, 121, 75, 101, 121, 75, 101, 121, 75, 101, 121, 75, 101)
    else if i < 48 then Pick(i - 32, 121, 75, 101, 121, 75, 101, 121, 75, 101, 121, 75, 101, 121, 75, 101, 121)
    else if i < 64 then Pick(i - 48, 75, 101, 121, 75, 101, 121, 75, 101, 121, 75, 101, 121, 75, 101, 121, 75)
    else if i < 80 then Pick(i - 64, 101, 121, 75, 101, 121, 75, 101, 121, 75, 101, 121, 75, 101, 121, 75, 101)
    else if i < 96 then Pick(i - 80, 121, 75, 101, 121, 75, 101, 121, 75, 101, 121, 75, 101, 121, 75, 101, 121)
    else if i < 112 then Pick(i - 96, 75, 101, 121, 75, 101, 121, 75, 101, 121, 75, 101, 121, 75, 101, 121, 75)
    else if i < 128 then Pick(i - 112, 101, 121, 75, 101, 121, 75, 101, 121, 75, 101, 121, 75, 101, 121, 75, 101)
    else if i < 144 then Pick(i - 128, 121, 75, 101, 121, 75, 101, 121, 75, 101, 121, 75, 101, 121, 75, 101, 121)
    else if i < 160 then Pick(i - 144, 75, 101, 121, 75, 101, 121, 75, 101, 121, 75, 101, 121, 75, 101, 121, 75)
    else if i < 176 then Pick(i - 160, 101, 121, 75, 101, 121, 75, 101, 121, 75, 101, 121, 75, 101, 121, 75, 101)
    else if i < 192 then Pick(i - 176, 121, 75, 101, 121, 75, 101, 121, 75, 101, 121, 75, 101, 121, 75, 101, 121)
    else if i < 208 then Pick(i - 192, 75, 101, 121, 75, 101, 121, 75, 101, 121, 75, 101, 121, 75, 101, 121, 75)
    else if i < 224 then Pick(i - 208, 101, 121, 75, 101, 121, 75, 101, 121, 75, 101, 121, 75, 101, 121, 75, 101)
    else if i < 240 then Pick(i - 224, 121, 75, 101, 121, 75, 101, 121, 75, 101, 121, 75, 101, 121, 75, 101, 121)
    else Pick(i - 240, 75, 101, 121, 75, 101, 121, 75, 101, 121, 75, 101, 121, 75, 101, 121, 75)
  }

  function Word(): (r: Record)
    ensures r.Whole()
  {
    Record([0x4B, 0x65, 0x79], seq(256, i requires 0 <= i < 256 => AsByte(WordTarget(i))),
           seq(256, i requires 0 <= i < 256 => AsByte(WordMet(i))))
  }

  predicate WordSum(i: int) {
    var sum := (if i == 0 then 0 else WordTarget(i - 1)) + WordMet(i) + WordKey(i);
    sum == WordTarget(i) || sum == WordTarget(i) + 256 || sum == WordTarget(i) + 512
  }

  lemma WordSums0(i: int)
    requires 0 <= i < 32
    ensures WordSum(i)
  {
  }

  lemma WordSums1(i: int)
    requires 32 <= i < 64
    ensures WordSum(i)
  {
  }

  lemma WordSums2(i: int)
    requires 64 <= i < 96
    ensures WordSum(i)
  {
  }

  lemma WordSums3(i: int)
    requires 96 <= i < 128
    ensures WordSum(i)
  {
  }

  lemma WordSums4(i: int)
    requires 128 <= i < 160
    ensures WordSum(i)
  {
  }

  lemma WordSums5(i: int)
    requires 160 <= i < 192
    ensures WordSum(i)
  {
  }

  lemma WordSums6(i: int)
    requires 192 <= i < 224
    ensures WordSum(i)
  {
  }

  lemma WordSums7(i: int)
    requires 224 <= i < 256
    ensures WordSum(i)
  {
  }

  predicate WordOwner(i: int) {
    var p := WordLast(i);
    0 <= p <= i && if p == i then WordMet(i) == i else WordTarget(p) == i && WordMet(p) == WordMet(i)
  }

  lemma WordOwners0(i: int)
    requires 0 <= i < 128
    ensures WordOwner(i)
  {
  }

  lemma WordOwners1(i: int)
    requires 128 <= i < 256
    ensures WordOwner(i)
  {
  }

  lemma WordLatest0(i: int, k: int)
    requires 0 <= i < 128 && 0 <= k < i && (WordLast(i) == i || WordLast(i) < k)
    ensures WordTarget(k) != i
  {
  }

  lemma WordLatest1(i: int, k: int)
    requires 128 <= i < 256 && 0 <= k < i && (WordLast(i) == i || WordLast(i) < k)
    ensures WordTarget(k) != i
  {
  }

  lemma WordBytes(i: int)
    requires 0 <= i < 256
    ensures 0 <= WordTarget(i) < 256 && 0 <= WordMet(i) < 256
  {
  }

  lemma WordRepeats(i: byte)
    ensures WordKey(i) == [0x4B, 0x65, 0x79][i % 3]
  {
  }

  /** The record says what the tables say. */
  lemma WordTables(k: byte)
    ensures Word().target[k] == WordTarget(k) && Word().met[k] == WordMet(k)
  {
    hide WordTarget, WordMet;
    WordBytes(k);
  }

  lemma WordAims(i: byte)
    ensures Aimed(Word(), i)
  {
    hide WordTarget, WordMet, WordKey;
    WordRepeats(i);
    WordTables(i);
    if i > 0 { WordTables(i - 1); }
    assert WordSum(i) by {
      if i < 32 { WordSums0(i); } else if i < 64 { WordSums1(i); } else if i < 96 { WordSums2(i); }
      else if i < 128 { WordSums3(i); } else if i < 160 { WordSums4(i); } else if i < 192 { WordSums5(i); }
      else if i < 224 { WordSums6(i); } else { WordSums7(i); }
    }
    hide Word;
  }

  lemma WordChecks(i: byte)
    ensures Checked(Word(), i)
  {
    hide WordTarget, WordMet, WordLast, Aimed;
    var r := Word();
    WordAims(i);
    WordTables(i);
    if i < 128 { WordOwners0(i); } else { WordOwners1(i); }
    var p: nat := WordLast(i);
    WordTables(p);
    forall k | 0 <= k < i && (p == i || p < k) ensures r.target[k] != i {
      WordTables(k);
      if i < 128 { WordLatest0(i, k); } else { WordLatest1(i, k); }
    }
    assert Last(r, i, i, p, r.met[i]);
  }

  lemma WordTo(x: byte, n: nat, p: byte, v: byte)
    requires p < n <= 256 && WordTarget(p) == x && WordMet(p) == v && (x <= p || n <= x)
    requires forall k | p < k < n :: WordTarget(k) != x
    ensures Value(Word(), x, n) == v
  {
    hide WordTarget, WordMet;
    WordTables(p);
    forall k | p < k < n ensures Word().target[k] != x { WordTables(k); }
    SwappedTo(Word(), x, n, p);
  }

  lemma WordFrom(x: byte, n: nat, y: byte)
    requires x < n <= 256 && WordTarget(x) == y && forall k | x <= k < n :: WordTarget(k) != x
    ensures Value(Word(), x, n) == Value(Word(), y, x)
  {
    hide WordTarget, WordMet;
    WordTables(x);
    forall k | x <= k < n ensures Word().target[k] != x { WordTables(k); }
    SwappedFrom(Word(), x, n);
  }

  lemma WordFresh(x: byte, n: nat)
    requires n <= x && forall k | 0 <= k < n :: WordTarget(k) != x
    ensures Value(Word(), x, n) == x
  {
    hide WordTarget, WordMet;
    forall k | 0 <= k < n ensures Word().target[k] != x { WordTables(k); }
    Untouched(Word(), x, 0, n);
  }

  lemma WordEnds0()
    ensures Value(Word(), 1, 256) == 51
    ensures Value(Word(), 51, 256) == 78
  {
    hide Value, Word;
    assert Value(Word(), 1, 256) == 51 by {
      WordTo(1, 256, 230, 51);
    }
    assert Value(Word(), 51, 256) == 78 by {
      WordTo(51, 256, 78, 78);
    }
  }

  lemma WordEnds1()
    ensures Value(Word(), 129, 256) == 235
    ensures Value(Word(), 2, 256) == 132
  {
    hide Value, Word;
    assert Value(Word(), 129, 256) == 235 by {
      WordTo(129, 256, 235, 235);
    }
    assert Value(Word(), 2, 256) == 132 by {
      WordTo(2, 256, 217, 132);
    }
  }

  lemma WordEnds2()
    ensures Value(Word(), 183, 256) == 198
    ensures Value(Word(), 74, 256) == 159
  {
    hide Value, Word;
    assert Value(Word(), 183, 256) == 198 by {
      WordFrom(183, 256, 198);
      WordFresh(198, 183);
    }
    assert Value(Word(), 74, 256) == 159 by {
      WordFrom(74, 256, 8);
      WordFrom(8, 74, 159);
      WordFresh(159, 8);
    }
  }

  lemma WordEnds3()
    ensures Value(Word(), 3, 256) == 157
    ensures Value(Word(), 84, 256) == 20
  {
    hide Value, Word;
    assert Value(Word(), 3, 256) == 157 by {
      WordTo(3, 256, 157, 157);
    }
    assert Value(Word(), 84, 256) == 20 by {
      WordFrom(84, 256, 241);
      WordTo(241, 84, 20, 20);
    }
  }

  lemma WordEnds4()
    ensures Value(Word(), 177, 256) == 119
    ensures Value(Word(), 4, 256) == 192
  {
    hide Value, Word;
    assert Value(Word(), 177, 256) == 119 by {
      WordFrom(177, 256, 243);
      WordTo(243, 177, 158, 119);
    }
    assert Value(Word(), 4, 256) == 192 by {
      WordTo(4, 256, 192, 192);
    }
  }

  lemma WordEnds5()
    ensures Value(Word(), 20, 256) == 41
    ensures Value(Word(), 233, 256) == 129
  {
    hide Value, Word;
    assert Value(Word(), 20, 256) == 41 by {
      WordTo(20, 256, 239, 41);
    }
    assert Value(Word(), 233, 256) == 129 by {
      WordFrom(233, 256, 105);
      WordFrom(105, 233, 129);
      WordFresh(129, 105);
    }
  }

  lemma WordBytes12(st: State)
    requires |st.s| == 256 && st.i == 0 && st.j == 0
    requires st.s[1] == 51 && st.s[51] == 78 && st.s[129] == 235 && st.s[2] == 132 && st.s[183] == 198 && st.s[74] == 159
    requires st.s[3] == 157 && st.s[84] == 20 && st.s[177] == 119 && st.s[4] == 192 && st.s[20] == 41 && st.s[233] == 129
    ensures var r := Next(Next(st));
            && Output(Next(st)) == 0xEB && Output(r) == 0x9F && |r.s| == 256 && r.i == 2 && r.j == 183
            && r.s[3] == 157 && r.s[84] == 20 && r.s[177] == 119 && r.s[4] == 192 && r.s[20] == 41 && r.s[233] == 129
  {
    hide Next, Output;
    OneByte(st, 1, 51, 51, 78);
    OneByte(Next(st), 2, 183, 132, 198);
  }

  lemma WordBytes34(st: State)
    requires |st.s| == 256 && st.i == 2 && st.j == 183
    requires st.s[3] == 157 && st.s[84] == 20 && st.s[177] == 119 && st.s[4] == 192 && st.s[20] == 41 && st.s[233] == 129
    ensures Output(Next(st)) == 0x77 && Output(Next(Next(st))) == 0x81
  {
    hide Next, Output;
    OneByte(st, 3, 84, 157, 20);
    OneByte(Next(st), 4, 20, 192, 41);
  }

  lemma WordStream()
    ensures var st := Start([0x4B, 0x65, 0x79]);
            && Output(After(st, 1)) == 0xEB && Output(After(st, 2)) == 0x9F
            && Output(After(st, 3)) == 0x77 && Output(After(st, 4)) == 0x81
  {
    hide Output, After, Next, WordTarget, WordMet;
    forall i: byte ensures Checked(Word(), i) { WordChecks(i); }
    Scheduled(Word());
    WordEnds0();
    WordEnds1();
    WordEnds2();
    WordEnds3();
    WordEnds4();
    WordEnds5();
    var st := Start([0x4B, 0x65, 0x79]);
    WordBytes12(st);
    WordBytes34(Next(Next(st)));
    FourStates(st);
  }
}
