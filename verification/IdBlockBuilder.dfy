/** Building IDBlocks in place, in one zeroed buffer whose areas are filled, checked and encrypted in turn. */
module IdBlockBuilders {
  import opened Bytes
  import opened Crc16
  import opened Rc4
  import opened IdBlocks

  // ----- A buffer divided into areas -----

  /** Where area `k` begins. */
  function Offset(areas: seq<seq<byte>>, k: nat): nat
    requires k <= |areas|
  {
    if k == 0 then 0 else Offset(areas, k - 1) + |areas[k - 1]|
  }

  predicate AreaAt(s: seq<byte>, areas: seq<seq<byte>>, k: nat)
    requires k < |areas|
  {
    Offset(areas, k) + |areas[k]| <= |s| && s[Offset(areas, k)..Offset(areas, k) + |areas[k]|] == areas[k]
  }

  /** The buffer consists of these areas, one after the other. */
  ghost predicate Holds(s: seq<byte>, areas: seq<seq<byte>>) {
    |s| == Offset(areas, |areas|) && forall k | 0 <= k < |areas| :: AreaAt(s, areas, k)
  }

  function Flat(areas: seq<seq<byte>>): seq<byte> {
    if areas == [] then [] else Flat(areas[..|areas| - 1]) + areas[|areas| - 1]
  }

  lemma {:induction false} OffsetOrder(areas: seq<seq<byte>>, j: nat, k: nat)
    requires j < k <= |areas|
    ensures Offset(areas, j) + |areas[j]| <= Offset(areas, k)
    decreases k
  {
    if j < k - 1 { OffsetOrder(areas, j, k - 1); }
  }

  lemma {:induction false} OffsetKept(areas: seq<seq<byte>>, i: nat, area: seq<byte>, k: nat)
    requires i < |areas| && k <= |areas| && |area| == |areas[i]|
    ensures Offset(areas[i := area], k) == Offset(areas, k)
    decreases k
  {
    if k > 0 { OffsetKept(areas, i, area, k - 1); }
  }

  lemma {:induction false} OffsetPrefix(areas: seq<seq<byte>>, n: nat, k: nat)
    requires k <= n <= |areas|
    ensures Offset(areas[..n], k) == Offset(areas, k)
    decreases k
  {
    if k > 0 { OffsetPrefix(areas, n, k - 1); }
  }

  /** A step that rewrites one area leaves all others alone. */
  lemma Replaced(before: seq<byte>, after: seq<byte>, areas: seq<seq<byte>>, i: nat, area: seq<byte>)
    requires Holds(before, areas) && i < |areas| && |area| == |areas[i]| && |after| == |before|
    requires var lo := Offset(areas, i);
             && lo + |area| <= |before|
             && after[..lo] == before[..lo] && after[lo..lo + |area|] == area
             && after[lo + |area|..] == before[lo + |area|..]
    ensures Holds(after, areas[i := area])
  {
    hide Offset;
    var renewed := areas[i := area];
    var lo := Offset(areas, i);
    OffsetKept(areas, i, area, |areas|);
    forall k | 0 <= k < |areas| ensures AreaAt(after, renewed, k) {
      OffsetKept(areas, i, area, k);
      assert AreaAt(before, areas, k);
      var at, end := Offset(areas, k), Offset(areas, k) + |areas[k]|;
      if k < i {
        OffsetOrder(areas, k, i);
        assert after[at..end] == after[..lo][at..end];
        assert before[at..end] == before[..lo][at..end];
      } else if k > i {
        OffsetOrder(areas, i, k);
        var cut := lo + |area|;
        assert after[at..end] == after[cut..][at - cut..end - cut];
        assert before[at..end] == before[cut..][at - cut..end - cut];
      }
    }
  }

  lemma {:induction false} HoldsFlat(s: seq<byte>, areas: seq<seq<byte>>)
    requires Holds(s, areas)
    ensures s == Flat(areas)
    decreases |areas|
  {
    if areas != [] {
      var n := |areas| - 1;
      var lo := Offset(areas, n);
      assert AreaAt(s, areas, n);
      OffsetPrefix(areas, n, n);
      forall k | 0 <= k < n ensures AreaAt(s[..lo], areas[..n], k) {
        assert AreaAt(s, areas, k);
        OffsetPrefix(areas, n, k);
        OffsetOrder(areas, k, n);
        assert s[..lo][Offset(areas, k)..Offset(areas, k) + |areas[k]|]
            == s[Offset(areas, k)..Offset(areas, k) + |areas[k]|];
      }
      HoldsFlat(s[..lo], areas[..n]);
      assert s == s[..lo] + s[lo..lo + |areas[n]|];
    }
  }

  /** Copy into the beginning of an area. */
  method CopyInto(a: array<byte>, ghost areas: seq<seq<byte>>, ghost i: nat, lo: nat, data: seq<byte>)
    requires Holds(a[..], areas) && i < |areas| && lo == Offset(areas, i)
    requires |data| <= |areas[i]| && areas[i] == Zeros(|areas[i]|)
    modifies a
    ensures Holds(a[..], areas[i := data + Zeros(|areas[i]| - |data|)])
  {
    hide Offset, Holds;
    ghost var before := a[..];
    ghost var hi := lo + |areas[i]|;
    AreaInside(before, areas, i);
    Fill(a, lo, data);
    ghost var after := a[..];
    SuffixKept(before, after, lo + |data|, hi);
    SuffixSlice(before, after, lo + |data|, hi);
    SubSlice(before, lo, hi - lo, |data|, hi - lo);
    assert areas[i][|data|..hi - lo] == Zeros(hi - lo - |data|);
    assert after[lo..hi] == data + Zeros(|areas[i]| - |data|) by {
      assert after[lo..hi] == after[lo..lo + |data|] + after[lo + |data|..hi];
    }
    Replaced(before, after, areas, i, data + Zeros(|areas[i]| - |data|));
  }

  lemma AreaInside(s: seq<byte>, areas: seq<seq<byte>>, i: nat)
    requires Holds(s, areas) && i < |areas|
    ensures Offset(areas, i) + |areas[i]| <= |s|
    ensures s[Offset(areas, i)..Offset(areas, i) + |areas[i]|] == areas[i]
  {
    assert AreaAt(s, areas, i);
  }

  /** Encrypt an area where it is. */
  method CryptInPlace(a: array<byte>, ghost areas: seq<seq<byte>>, ghost i: nat, lo: nat, hi: nat)
    requires Holds(a[..], areas) && i < |areas| && lo == Offset(areas, i) && hi == lo + |areas[i]|
    modifies a
    ensures Holds(a[..], areas[i := Crypt(areas[i])])
  {
    hide Offset, Holds, Crypt;
    ghost var before := a[..];
    AreaInside(before, areas, i);
    CryptArea(a, lo, hi);
    Replaced(before, a[..], areas, i, Crypt(areas[i]));
  }

  // ----- The header sectors -----

  /** The fields so far, zeros up to the place of the next one, and that field. */
  function With(done: seq<byte>, at: nat, field: seq<byte>): (r: seq<byte>)
    requires |done| <= at
    ensures |r| == at + |field|
  {
    done + Zeros(at - |done|) + field
  }

  /** The sector that begins with these fields and is zero otherwise. */
  predicate SectorIs(a: seq<byte>, base: nat, done: seq<byte>) {
    && base + SECTOR_SIZE <= |a| && |done| <= SECTOR_SIZE
    && a[base..base + SECTOR_SIZE] == done + Zeros(SECTOR_SIZE - |done|)
  }

  predicate OthersKept(before: seq<byte>, after: seq<byte>, base: nat) {
    && |after| == |before| && base + SECTOR_SIZE <= |before|
    && after[..base] == before[..base] && after[base + SECTOR_SIZE..] == before[base + SECTOR_SIZE..]
  }

  /** One field of a sector: the bytes between it and the fields before it stay zero. */
  method Place(a: array<byte>, base: nat, ghost was: seq<byte>, ghost done: seq<byte>, at: nat, field: seq<byte>)
    returns (ghost more: seq<byte>)
    requires SectorIs(a[..], base, done) && |done| <= at && at + |field| <= SECTOR_SIZE
    requires OthersKept(was, a[..], base)
    modifies a
    ensures more == With(done, at, field) && SectorIs(a[..], base, more)
    ensures OthersKept(was, a[..], base)
  {
    ghost var before := a[..];
    Fill(a, base + at, field);
    Placed(before, a[..], base, done, at, field);
    KeptFurther(was, before, a[..], base);
    more := With(done, at, field);
  }

  lemma Placed(before: seq<byte>, after: seq<byte>, base: nat, done: seq<byte>, at: nat, field: seq<byte>)
    requires SectorIs(before, base, done) && |before| == |after| && |done| <= at && at + |field| <= SECTOR_SIZE
    requires after[..base + at] == before[..base + at]
    requires after[base + at..base + at + |field|] == field
    requires after[base + at + |field|..] == before[base + at + |field|..]
    ensures SectorIs(after, base, With(done, at, field)) && OthersKept(before, after, base)
  {
    var end := base + SECTOR_SIZE;
    var lo, hi := base + at, base + at + |field|;
    var sector := before[base..end];
    assert after[base..lo] == after[..lo][base..];
    assert before[base..lo] == before[..lo][base..];
    assert sector[..at] == before[base..lo];
    assert sector[..at] == done + Zeros(at - |done|);
    SuffixSlice(before, after, hi, end);
    assert sector[at + |field|..] == before[hi..end];
    assert sector[at + |field|..] == Zeros(SECTOR_SIZE - at - |field|);
    assert after[base..end] == after[base..lo] + after[lo..hi] + after[hi..end];
    assert after[..base] == after[..lo][..base];
    assert before[..base] == before[..lo][..base];
    SuffixKept(before, after, hi, end);
  }

  lemma SuffixSlice(before: seq<byte>, after: seq<byte>, lo: nat, hi: nat)
    requires lo <= hi <= |before| == |after| && after[lo..] == before[lo..]
    ensures after[lo..hi] == before[lo..hi]
  {
    assert after[lo..hi] == after[lo..][..hi - lo];
    assert before[lo..hi] == before[lo..][..hi - lo];
  }

  lemma KeptFurther(a: seq<byte>, b: seq<byte>, c: seq<byte>, base: nat)
    requires OthersKept(a, b, base) && OthersKept(b, c, base)
    ensures OthersKept(a, c, base)
  {
  }

  method Blank(a: array<byte>, base: nat)
    requires base + SECTOR_SIZE <= a.Length
    modifies a
    ensures SectorIs(a[..], base, []) && OthersKept(old(a[..]), a[..], base)
  {
    Fill(a, base, Zeros(SECTOR_SIZE));
    assert a[..][base..base + SECTOR_SIZE] == [] + Zeros(SECTOR_SIZE);
  }

  method BuildSector0(a: array<byte>, base: nat, rc4: bool, dataSectors: u16, codeSectors: u16)
    requires base + SECTOR_SIZE <= a.Length
    modifies a
    ensures a[base..base + SECTOR_SIZE] == Sector0(rc4, dataSectors, codeSectors)
    ensures OthersKept(old(a[..]), a[..], base)
  {
    hide Le16, Le32, With, SectorIs, OthersKept, Sector0;
    var flag := Le32(if rc4 then 1 else 0);
    ghost var was := a[..];
    Blank(a, base);
    ghost var s := Place(a, base, was, [], 0, Le32(IDBLOCK_TAG));
    s := Place(a, base, was, s, 8, flag);
    s := Place(a, base, was, s, 12, Le16(4));
    s := Place(a, base, was, s, 14, Le16(4));
    s := Place(a, base, was, s, 500, Le16(dataSectors));
    s := Place(a, base, was, s, 502, Le16(codeSectors));
    Layout0(rc4, dataSectors, codeSectors, s);
    Complete(a[..], base, s);
  }

  lemma Layout0(rc4: bool, dataSectors: u16, codeSectors: u16, s: seq<byte>)
    requires s == With(With(With(With(With(With([], 0, Le32(IDBLOCK_TAG)), 8, Le32(if rc4 then 1 else 0)), 12, Le16(4)),
                                      14, Le16(4)), 500, Le16(dataSectors)), 502, Le16(codeSectors))
    ensures s + Zeros(8) == Sector0(rc4, dataSectors, codeSectors)
  {
    hide Le16, Le32;
  }

  method BuildSector1(a: array<byte>, base: nat)
    requires base + SECTOR_SIZE <= a.Length
    modifies a
    ensures a[base..base + SECTOR_SIZE] == Sector1()
    ensures OthersKept(old(a[..]), a[..], base)
  {
    hide Le16, Le32, With, SectorIs, OthersKept, Sector1;
    ghost var was := a[..];
    Blank(a, base);
    ghost var s := Place(a, base, was, [], 0, Le16(RESERVED_BLOCK));
    s := Place(a, base, was, s, 2, Le16(DISK0_SIZE));
    s := Place(a, base, was, s, 8, Le32(CHIP_TAG));
    Layout1(s);
    Complete(a[..], base, s);
  }

  lemma Layout1(s: seq<byte>)
    requires s == With(With(With([], 0, Le16(RESERVED_BLOCK)), 2, Le16(DISK0_SIZE)), 8, Le32(CHIP_TAG))
    ensures s + Zeros(500) == Sector1()
  {
    hide Le16, Le32;
  }

  method BuildSector2(a: array<byte>, base: nat, crc0: seq<byte>, crc1: seq<byte>, codeCrc: u32, crc3: seq<byte>)
    requires base + SECTOR_SIZE <= a.Length && |crc0| == |crc1| == |crc3| == 2
    modifies a
    ensures a[base..base + SECTOR_SIZE] == Sector2(crc0, crc1, codeCrc, crc3)
    ensures OthersKept(old(a[..]), a[..], base)
  {
    hide Le16, Le32, With, SectorIs, OthersKept, Sector2;
    ghost var was := a[..];
    Blank(a, base);
    ghost var s := Place(a, base, was, [], 491, VERSION_MARK);
    s := Place(a, base, was, s, 494, crc0);
    s := Place(a, base, was, s, 496, crc1);
    s := Place(a, base, was, s, 498, Le32(codeCrc));
    s := Place(a, base, was, s, 504, CRC_MARK);
    s := Place(a, base, was, s, 508, crc3);
    Layout2(crc0, crc1, codeCrc, crc3, s);
    Complete(a[..], base, s);
  }

  lemma Layout2(crc0: seq<byte>, crc1: seq<byte>, codeCrc: u32, crc3: seq<byte>, s: seq<byte>)
    requires |crc0| == |crc1| == |crc3| == 2
    requires s == With(With(With(With(With(With([], 491, VERSION_MARK), 494, crc0), 496, crc1), 498, Le32(codeCrc)),
                            504, CRC_MARK), 508, crc3)
    ensures s + Zeros(2) == Sector2(crc0, crc1, codeCrc, crc3)
  {
    hide Le32;
  }

  lemma Complete(a: seq<byte>, base: nat, s: seq<byte>)
    requires SectorIs(a, base, s)
    ensures |s| <= SECTOR_SIZE && base + SECTOR_SIZE <= |a|
    ensures a[base..base + SECTOR_SIZE] == s + Zeros(SECTOR_SIZE - |s|)
  {
  }

  method BuildSector3(a: array<byte>, base: nat)
    requires base + SECTOR_SIZE <= a.Length
    modifies a
    ensures a[base..base + SECTOR_SIZE] == Sector3()
    ensures OthersKept(old(a[..]), a[..], base)
  {
    Fill(a, base, Zeros(SECTOR_SIZE));
  }

  // ----- The whole block -----

  /** The areas of an old block: four header sectors and the two parts of the payload. */
  predicate OldForm(areas: seq<seq<byte>>) {
    |areas| == 6 && |areas[0]| == |areas[1]| == |areas[2]| == |areas[3]| == SECTOR_SIZE
  }

  lemma OldOffsets(areas: seq<seq<byte>>)
    requires OldForm(areas)
    ensures Offset(areas, 0) == 0 && Offset(areas, 1) == 512 && Offset(areas, 2) == 1024 && Offset(areas, 3) == 1536
    ensures Offset(areas, 4) == 2048 && Offset(areas, 5) == 2048 + |areas[4]|
    ensures Offset(areas, 6) == 2048 + |areas[4]| + |areas[5]|
  {
    assert Offset(areas, 1) == Offset(areas, 0) + |areas[0]|;
    assert Offset(areas, 2) == Offset(areas, 1) + |areas[1]|;
    assert Offset(areas, 3) == Offset(areas, 2) + |areas[2]|;
    assert Offset(areas, 4) == Offset(areas, 3) + |areas[3]|;
    assert Offset(areas, 5) == Offset(areas, 4) + |areas[4]|;
  }

  method FillPayload(a: array<byte>, ddr: seq<byte>, loader: seq<byte>, rc4: bool, ddrEnd: nat, ghost areas: seq<seq<byte>>)
    returns (ghost filled: seq<seq<byte>>)
    requires OldForm(areas)
    requires areas[4] == Zeros(|Padded(ddr)|) && areas[5] == Zeros(|Padded(loader)|)
    requires ddrEnd == HEADER_LENGTH + |Padded(ddr)| && Holds(a[..], areas)
    modifies a
    ensures filled == areas[4 := Area(Padded(ddr), rc4)][5 := Area(Padded(loader), rc4)]
    ensures OldForm(filled) && Holds(a[..], filled)
  {
    hide Holds, Offset, Crypt;
    OldOffsets(areas);
    var total := a.Length;
    HoldsLength(a[..], areas);
    CopyInto(a, areas, 4, HEADER_LENGTH, ddr);
    filled := areas[4 := Padded(ddr)];
    OldOffsets(filled);
    CopyInto(a, filled, 5, ddrEnd, loader);
    filled := filled[5 := Padded(loader)];
    if rc4 {
      OldOffsets(filled);
      CryptInPlace(a, filled, 4, HEADER_LENGTH, ddrEnd);
      filled := filled[4 := Crypt(Padded(ddr))];
      OldOffsets(filled);
      CryptInPlace(a, filled, 5, ddrEnd, total);
      filled := filled[5 := Crypt(Padded(loader))];
    }
  }

  lemma HoldsLength(s: seq<byte>, areas: seq<seq<byte>>)
    requires Holds(s, areas)
    ensures |s| == Offset(areas, |areas|)
  {
  }

  /** The header sectors that do not depend on anything else. */
  method BuildHeaders(a: array<byte>, rc4: bool, dataSectors: u16, codeSectors: u16, ghost areas: seq<seq<byte>>)
    returns (ghost built: seq<seq<byte>>)
    requires OldForm(areas) && Holds(a[..], areas)
    modifies a
    ensures built == areas[0 := Sector0(rc4, dataSectors, codeSectors)][1 := Sector1()][3 := Sector3()]
    ensures OldForm(built) && Holds(a[..], built)
  {
    hide Holds, Offset, Sector0, Sector1, Sector3;
    OldOffsets(areas);
    HoldsLength(a[..], areas);
    ghost var before := a[..];
    BuildSector0(a, 0, rc4, dataSectors, codeSectors);
    Replaced(before, a[..], areas, 0, Sector0(rc4, dataSectors, codeSectors));
    built := areas[0 := Sector0(rc4, dataSectors, codeSectors)];
    OldOffsets(built);
    before := a[..];
    BuildSector1(a, 512);
    Replaced(before, a[..], built, 1, Sector1());
    built := built[1 := Sector1()];
    OldOffsets(built);
    before := a[..];
    BuildSector3(a, 1536);
    Replaced(before, a[..], built, 3, Sector3());
    built := built[3 := Sector3()];
  }

  /** The sector of checks, taken over what the buffer holds now. */
  method SealHeaders(a: array<byte>, rkCrc: seq<byte> -> u32, ghost areas: seq<seq<byte>>)
    returns (ghost built: seq<seq<byte>>)
    requires OldForm(areas) && Holds(a[..], areas)
    modifies a
    ensures built == areas[2 := Sector2(HeaderCrc(areas[0]), HeaderCrc(areas[1]), rkCrc(areas[4] + areas[5]),
                                        HeaderCrc(areas[3]))]
    ensures OldForm(built) && Holds(a[..], built)
  {
    hide Holds, Offset, Sector2, HeaderCrc;
    OldOffsets(areas);
    HoldsLength(a[..], areas);
    ghost var before := a[..];
    AreaInside(before, areas, 0);
    AreaInside(before, areas, 1);
    AreaInside(before, areas, 3);
    AreaInside(before, areas, 4);
    AreaInside(before, areas, 5);
    var crc0, crc1, crc3 := HeaderCrc(a[0..512]), HeaderCrc(a[512..1024]), HeaderCrc(a[1536..2048]);
    var codeCrc := rkCrc(a[HEADER_LENGTH..]);
    assert a[HEADER_LENGTH..] == areas[4] + areas[5];
    BuildSector2(a, 1024, crc0, crc1, codeCrc, crc3);
    built := areas[2 := Sector2(crc0, crc1, codeCrc, crc3)];
    Replaced(before, a[..], areas, 2, Sector2(crc0, crc1, codeCrc, crc3));
  }

  /** All header sectors but the second. */
  method CryptHeaders(a: array<byte>, ghost areas: seq<seq<byte>>) returns (ghost built: seq<seq<byte>>)
    requires OldForm(areas) && Holds(a[..], areas)
    modifies a
    ensures built == areas[0 := Crypt(areas[0])][2 := Crypt(areas[2])][3 := Crypt(areas[3])]
    ensures OldForm(built) && Holds(a[..], built)
  {
    hide Holds, Offset, Crypt;
    OldOffsets(areas);
    HoldsLength(a[..], areas);
    CryptInPlace(a, areas, 0, 0, 512);
    built := areas[0 := Crypt(areas[0])];
    OldOffsets(built);
    CryptInPlace(a, built, 2, 1024, 1536);
    built := built[2 := Crypt(areas[2])];
    OldOffsets(built);
    CryptInPlace(a, built, 3, 1536, 2048);
    built := built[3 := Crypt(areas[3])];
  }

  lemma Zeroed(s: seq<byte>, n: nat, m: nat)
    requires s == Zeros(4 * SECTOR_SIZE + n + m)
    ensures Holds(s, [Zeros(512), Zeros(512), Zeros(512), Zeros(512), Zeros(n), Zeros(m)])
  {
    var areas := [Zeros(512), Zeros(512), Zeros(512), Zeros(512), Zeros(n), Zeros(m)];
    OldOffsets(areas);
    forall k | 0 <= k < 6 ensures AreaAt(s, areas, k) {
      if k < 5 { OffsetOrder(areas, k, 6); }
    }
  }

  lemma FlatSix(areas: seq<seq<byte>>)
    requires |areas| == 6
    ensures Flat(areas) == areas[0] + areas[1] + areas[2] + areas[3] + (areas[4] + areas[5])
  {
    assert areas[..6] == areas;
    assert areas[..6][..5] == areas[..5] && areas[..5][..4] == areas[..4] && areas[..4][..3] == areas[..3];
    assert areas[..3][..2] == areas[..2] && areas[..2][..1] == areas[..1] && areas[..1][..0] == [];
    assert Flat(areas[..1]) == areas[0];
    assert Flat(areas[..2]) == areas[0] + areas[1];
    assert Flat(areas[..3]) == areas[0] + areas[1] + areas[2];
    assert Flat(areas[..4]) == areas[0] + areas[1] + areas[2] + areas[3];
    assert Flat(areas[..5]) == areas[0] + areas[1] + areas[2] + areas[3] + areas[4];
  }

  /** The steps in their order: the checks of the headers are taken before their encryption, that of the payload
      after its own. */
  method Assemble(a: array<byte>, ddr: seq<byte>, loader: seq<byte>, rc4: bool, rkCrc: seq<byte> -> u32)
    requires OldFits(ddr, loader) && a[..] == Zeros(4 * SECTOR_SIZE + |Padded(ddr)| + |Padded(loader)|)
    modifies a
    ensures a[..] == OldBlock(ddr, loader, rc4, rkCrc)
  {
    hide Holds, Offset, Crypt, Sector0, Sector1, Sector2, Sector3, HeaderCrc, Flat, Padded;
    var ddrLength, loaderLength := |Padded(ddr)|, |Padded(loader)|;
    Zeroed(a[..], ddrLength, loaderLength);
    ghost var areas := [Zeros(512), Zeros(512), Zeros(512), Zeros(512), Zeros(ddrLength), Zeros(loaderLength)];
    areas := BuildHeaders(a, rc4, Sectors(ddr), Sectors(ddr) + Sectors(loader), areas);
    areas := FillPayload(a, ddr, loader, rc4, HEADER_LENGTH + ddrLength, areas);
    areas := SealHeaders(a, rkCrc, areas);
    if rc4 {
      areas := CryptHeaders(a, areas);
    }
    HoldsFlat(a[..], areas);
    FlatSix(areas);
  }

  /** The old form. It exists if and only if both sector counts and their sum are 16-bit numbers. */
  method BuildOld(ddr: seq<byte>, loader: seq<byte>, rc4: bool, rkCrc: seq<byte> -> u32)
    returns (r: Result<seq<byte>, IdBlockError>)
    ensures r.Ok? <==> OldFits(ddr, loader)
    ensures r == Err(DdrTooLarge) <==> Sectors(ddr) >= U16_LIMIT
    ensures r == Err(LoaderTooLarge) <==> Sectors(ddr) < U16_LIMIT <= Sectors(loader)
    ensures r.Ok? ==> r.value == OldBlock(ddr, loader, rc4, rkCrc)
  {
    hide OldBlock;
    var ddrLength, loaderLength := NextMultiple(|ddr|), NextMultiple(|loader|);
    var ddrSectors, loaderSectors := ddrLength / SECTOR_SIZE, loaderLength / SECTOR_SIZE;
    if ddrSectors >= U16_LIMIT { return Err(DdrTooLarge); }
    if loaderSectors >= U16_LIMIT { return Err(LoaderTooLarge); }
    var total := (4 + ddrSectors + loaderSectors) * SECTOR_SIZE;
    var a := new byte[total](_ => 0);
    if ddrSectors + loaderSectors >= U16_LIMIT { return Err(SizeOverflow); }
    WholeAreas(ddrLength, loaderLength);
    assert a[..] == Zeros(4 * SECTOR_SIZE + ddrLength + loaderLength);
    Assemble(a, ddr, loader, rc4, rkCrc);
    r := Ok(a[..]);
  }

  lemma WholeAreas(n: nat, m: nat)
    requires n % SECTOR_SIZE == 0 && m % SECTOR_SIZE == 0
    ensures (4 + n / SECTOR_SIZE + m / SECTOR_SIZE) * SECTOR_SIZE == 4 * SECTOR_SIZE + n + m
  {
  }

  /** The new form: three areas, filled and encrypted one by one. */
  method BuildNew(head: seq<byte>, ddr: seq<byte>, loader: seq<byte>, rc4: bool)
    returns (r: Result<seq<byte>, IdBlockError>)
    ensures if NewFits(head, ddr, loader) then r == Ok(NewBlock(head, ddr, loader, rc4)) else r == Err(SizeOverflow)
  {
    hide Holds, Offset, Crypt, Flat;
    var headLength, ddrLength, loaderLength := NextMultiple(|head|), NextMultiple(|ddr|), NextMultiple(|loader|);
    var total := headLength + ddrLength + loaderLength;
    if total >= USIZE_LIMIT { return Err(SizeOverflow); }
    var a := new byte[total](_ => 0);
    assert a[..] == Zeros(total);
    ghost var areas := [Zeros(headLength), Zeros(ddrLength), Zeros(loaderLength)];
    ZeroedThree(a[..], headLength, ddrLength, loaderLength);
    ThreeOffsets(areas);
    CopyInto(a, areas, 0, 0, head);
    areas := areas[0 := Padded(head)];
    ThreeOffsets(areas);
    CopyInto(a, areas, 1, headLength, ddr);
    areas := areas[1 := Padded(ddr)];
    ThreeOffsets(areas);
    CopyInto(a, areas, 2, headLength + ddrLength, loader);
    areas := areas[2 := Padded(loader)];
    if rc4 {
      areas := CryptThree(a, headLength, ddrLength, areas);
    }
    HoldsFlat(a[..], areas);
    FlatThree(areas);
    r := Ok(a[..]);
  }

  method CryptThree(a: array<byte>, headLength: nat, ddrLength: nat, ghost areas: seq<seq<byte>>)
    returns (ghost built: seq<seq<byte>>)
    requires |areas| == 3 && |areas[0]| == headLength && |areas[1]| == ddrLength && Holds(a[..], areas)
    modifies a
    ensures built == [Crypt(areas[0]), Crypt(areas[1]), Crypt(areas[2])]
    ensures Holds(a[..], built)
  {
    hide Holds, Offset, Crypt;
    HoldsLength(a[..], areas);
    ThreeOffsets(areas);
    CryptInPlace(a, areas, 0, 0, headLength);
    built := areas[0 := Crypt(areas[0])];
    ThreeOffsets(built);
    CryptInPlace(a, built, 1, headLength, headLength + ddrLength);
    built := built[1 := Crypt(areas[1])];
    ThreeOffsets(built);
    CryptInPlace(a, built, 2, headLength + ddrLength, a.Length);
    built := built[2 := Crypt(areas[2])];
  }

  lemma ThreeOffsets(areas: seq<seq<byte>>)
    requires |areas| == 3
    ensures Offset(areas, 0) == 0 && Offset(areas, 1) == |areas[0]|
    ensures Offset(areas, 2) == |areas[0]| + |areas[1]| && Offset(areas, 3) == |areas[0]| + |areas[1]| + |areas[2]|
  {
    assert Offset(areas, 1) == Offset(areas, 0) + |areas[0]|;
    assert Offset(areas, 2) == Offset(areas, 1) + |areas[1]|;
  }

  lemma ZeroedThree(s: seq<byte>, n: nat, m: nat, l: nat)
    requires s == Zeros(n + m + l)
    ensures Holds(s, [Zeros(n), Zeros(m), Zeros(l)])
  {
    var areas := [Zeros(n), Zeros(m), Zeros(l)];
    ThreeOffsets(areas);
    forall k | 0 <= k < 3 ensures AreaAt(s, areas, k) {
      if k < 2 { OffsetOrder(areas, k, 3); }
    }
  }

  lemma FlatThree(areas: seq<seq<byte>>)
    requires |areas| == 3
    ensures Flat(areas) == areas[0] + areas[1] + areas[2]
  {
    assert areas[..2][..1] == areas[..1] && areas[..1][..0] == [];
    assert Flat(areas[..1]) == areas[0];
    assert Flat(areas[..2]) == areas[0] + areas[1];
  }

  /** The new form for a loader with a head, the old one for a loader without. */
  method BuildIdBlock(head: Option<seq<byte>>, ddr: seq<byte>, loader: seq<byte>, rc4: bool, rkCrc: seq<byte> -> u32)
    returns (r: Result<seq<byte>, IdBlockError>)
    ensures r.Ok? <==> if head.Some? then NewFits(head.value, ddr, loader) else OldFits(ddr, loader)
    ensures r.Ok? ==> r.value == IdBlockOf(head, ddr, loader, rc4, rkCrc)
  {
    hide OldBlock, NewBlock, NewFits, OldFits;
    match head
    case Some(h) => r := BuildNew(h, ddr, loader, rc4);
    case None => r := BuildOld(ddr, loader, rc4, rkCrc);
  }

  function IdBlockOf(head: Option<seq<byte>>, ddr: seq<byte>, loader: seq<byte>, rc4: bool, rkCrc: seq<byte> -> u32)
    : (image: seq<byte>)
    requires head.None? ==> OldFits(ddr, loader)
    ensures |image| % SECTOR_SIZE == 0
  {
    match head
    case Some(h) =>
      WholeSum(|Padded(h)|, |Padded(ddr)|, |Padded(loader)|);
      NewBlock(h, ddr, loader, rc4)
    case None =>
      var image := OldBlock(ddr, loader, rc4, rkCrc);
      WholeLength(|image|, Sectors(ddr) + Sectors(loader));
      image
  }
}
