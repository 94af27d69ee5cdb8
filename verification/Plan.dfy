/** How a byte range becomes device commands: the list of commands a call issues, and what such lists cover. */
module Plans {
  import opened Bytes
  import opened Link

  const MAX_LBA_TRANSFER_SECTORS := 128
  const MAX_ERASE_SECTORS := 0xFFFF

  function Min(a: nat, b: nat): nat {
    if a < b then a else b
  }

  /** `count` sectors from `lba` on, in commands of at most `max`. */
  function Batches(kind: SpanKind, lba: nat, count: nat, max: nat, subcode: byte): seq<Span>
    requires max > 0
    decreases count
  {
    if count == 0 then []
    else
      var n := Min(count, max);
      [Span(kind, lba, n, subcode)] + Batches(kind, lba + n, count - n, max, subcode)
  }

  function ReadPlan(lba: nat, length: nat, subcode: byte): seq<Span> {
    Batches(Reading, lba, length / SECTOR, MAX_LBA_TRANSFER_SECTORS, subcode)
    + if length % SECTOR == 0 then [] else [Span(Reading, lba + length / SECTOR, 1, subcode)]
  }

  function WritePlan(lba: nat, length: nat, subcode: byte): seq<Span> {
    Batches(Writing, lba, length / SECTOR, MAX_LBA_TRANSFER_SECTORS, subcode)
    + if length % SECTOR == 0 then []
      else [Span(Reading, lba + length / SECTOR, 1, subcode), Span(Writing, lba + length / SECTOR, 1, subcode)]
  }

  /** The commands are non-empty and bounded, follow each other without gap or overlap, and cover the range. */
  ghost predicate Tiles(plan: seq<Span>, lba: nat, end: nat, max: nat) {
    if plan == [] then lba == end
    else plan[0].lba == lba && 0 < plan[0].count <= max && Tiles(plan[1..], lba + plan[0].count, end, max)
  }

  lemma {:induction false} BatchesTile(kind: SpanKind, lba: nat, count: nat, max: nat, subcode: byte)
    requires max > 0
    ensures Tiles(Batches(kind, lba, count, max, subcode), lba, lba + count, max)
    decreases count
  {
    if count > 0 {
      var n := Min(count, max);
      BatchesTile(kind, lba + n, count - n, max, subcode);
      assert Batches(kind, lba, count, max, subcode)[1..] == Batches(kind, lba + n, count - n, max, subcode);
    }
  }

  lemma {:induction false} BatchesKind(kind: SpanKind, lba: nat, count: nat, max: nat, subcode: byte)
    requires max > 0
    ensures forall s | s in Batches(kind, lba, count, max, subcode) :: s.kind == kind
    decreases count
  {
    if count > 0 {
      var n := Min(count, max);
      BatchesKind(kind, lba + n, count - n, max, subcode);
    }
  }

  /** Each sector of the range is touched by exactly one command, and no other sector by any. */
  lemma {:induction false} TilesOnce(plan: seq<Span>, lba: nat, end: nat, max: nat, sector: nat)
    requires Tiles(plan, lba, end, max)
    ensures Touching(plan, sector) == if lba <= sector < end then 1 else 0
    ensures lba <= end
  {
    if plan != [] {
      TilesOnce(plan[1..], lba + plan[0].count, end, max, sector);
    }
  }

  function Touching(plan: seq<Span>, sector: nat): nat {
    if plan == [] then 0
    else (if plan[0].lba <= sector < plan[0].lba + plan[0].count then 1 else 0) + Touching(plan[1..], sector)
  }

  lemma OneMoreBatch(n: int, max: nat)
    ensures (n + 1) * max == n * max + max && (n - 1) * max == n * max - max
  {
  }

  /** As few commands as their size allows: the sector count over `max`, rounded up. */
  lemma {:induction false} BatchesCount(kind: SpanKind, lba: nat, count: nat, max: nat, subcode: byte)
    requires max > 0
    ensures var n := |Batches(kind, lba, count, max, subcode)|; (n - 1) * max < count <= n * max || n == count == 0
    decreases count
  {
    if count > max {
      var rest := |Batches(kind, lba + max, count - max, max, subcode)|;
      BatchesCount(kind, lba + max, count - max, max, subcode);
      OneMoreBatch(rest, max);
    } else if count > 0 {
      assert Batches(kind, lba + count, 0, max, subcode) == [];
    }
  }
}
