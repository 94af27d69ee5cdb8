/** No sector is written twice: what the write commands of one call touch. */
module WritesOnce {
  import opened Bytes
  import opened Link
  import opened Plans
  import opened Blocks

  function Writes(plan: seq<Span>): seq<Span> {
    if plan == [] then []
    else if plan[0].kind == Writing then [plan[0]] + Writes(plan[1..])
    else Writes(plan[1..])
  }

  lemma {:induction false} WritesJoin(a: seq<Span>, b: seq<Span>, sector: nat)
    ensures Touching(Writes(a + b), sector) == Touching(Writes(a), sector) + Touching(Writes(b), sector)
    decreases |a|
  {
    if a == [] {
      assert a + b == b;
    } else {
      WritesJoin(a[1..], b, sector);
      assert (a + b)[1..] == a[1..] + b;
      if a[0].kind == Writing {
        assert ([a[0]] + Writes(a[1..]))[1..] == Writes(a[1..]);
        assert ([a[0]] + Writes(a[1..] + b))[1..] == Writes(a[1..] + b);
      }
    }
  }

  lemma {:induction false} AllWrites(plan: seq<Span>)
    requires forall s | s in plan :: s.kind == Writing
    ensures Writes(plan) == plan
  {
    if plan != [] { AllWrites(plan[1..]); }
  }

  lemma RewriteWrites(lba: nat, subcode: byte, sector: nat)
    ensures Touching(Writes(Rewrite(lba, subcode)), sector) == if sector == lba then 1 else 0
  {
    var w := Span(Writing, lba, 1, subcode);
    assert Rewrite(lba, subcode)[1..] == [w] && [w][1..] == [];
    assert Writes([w]) == [w];
    assert Touching([w], sector) == if sector == lba then 1 else 0;
  }

  lemma BatchesWrites(lba: nat, count: nat, subcode: byte, sector: nat)
    ensures Touching(Writes(Batches(Writing, lba, count, MAX_LBA_TRANSFER_SECTORS, subcode)), sector)
         == if lba <= sector < lba + count then 1 else 0
  {
    var plan := Batches(Writing, lba, count, MAX_LBA_TRANSFER_SECTORS, subcode);
    BatchesKind(Writing, lba, count, MAX_LBA_TRANSFER_SECTORS, subcode);
    BatchesTile(Writing, lba, count, MAX_LBA_TRANSFER_SECTORS, subcode);
    AllWrites(plan);
    TilesOnce(plan, lba, lba + count, MAX_LBA_TRANSFER_SECTORS, sector);
  }

  /** A write from sector `lba` on writes each sector it reaches into exactly once, and no other. */
  lemma SectorsOnce(lba: nat, length: nat, subcode: byte, sector: nat)
    ensures Touching(Writes(WritePlan(lba, length, subcode)), sector)
         == if lba <= sector < lba + (length + SECTOR - 1) / SECTOR then 1 else 0
  {
    hide Batches, Touching, Writes;
    var whole := Batches(Writing, lba, length / SECTOR, MAX_LBA_TRANSFER_SECTORS, subcode);
    BatchesWrites(lba, length / SECTOR, subcode, sector);
    if length % SECTOR == 0 {
      assert whole + [] == whole;
    } else {
      WritesJoin(whole, Rewrite(lba + length / SECTOR, subcode), sector);
      RewriteWrites(lba + length / SECTOR, subcode, sector);
    }
  }

  /** A write of bytes writes each sector it reaches into exactly once, and no other: head, middle and tail
      never meet in a sector. */
  lemma BytesOnce(pos: nat, length: nat, subcode: byte, sector: nat)
    ensures Touching(Writes(BlockWritePlan(pos, length, subcode)), sector)
         == if length > 0 && pos / SECTOR <= sector < (pos + length + SECTOR - 1) / SECTOR then 1 else 0
  {
    hide Touching, Writes, WritePlan;
    var head, middle := HeadLength(pos, length), MiddleLength(pos, length);
    var first, second := HeadPlan(pos, length, subcode), WritePlan((pos + head) / SECTOR, middle, subcode);
    var third := if head + middle == length then [] else Rewrite((pos + head + middle) / SECTOR, subcode);
    WritesJoin(first + second, third, sector);
    WritesJoin(first, second, sector);
    RewriteWrites(pos / SECTOR, subcode, sector);
    RewriteWrites((pos + head + middle) / SECTOR, subcode, sector);
    SectorsOnce((pos + head) / SECTOR, middle, subcode, sector);
    NoWrites(sector);
    if length > 0 { PieceAddresses(pos, length); }
  }

  lemma NoWrites(sector: nat)
    ensures Touching(Writes([]), sector) == 0
  {
  }
}
