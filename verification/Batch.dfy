/** The state of a batched transfer between two commands: what is done, what was issued, what time is left. */
module Batch {
  import opened Bytes
  import opened Link
  import opened LinkHost
  import opened Effects
  import opened Transactions
  import opened Plans

  /** The commands issued since `w0` share one deadline, `timeout` after the call read the clock. For each of
      them the clock was read again, in order, and it was given exactly what was left, which was not nothing. */
  ghost predicate OnTime(w0: World, w: World, timeout: nat, deadline: nat) {
    && |w0.times| == |w0.budgets| <= |w.budgets| == |w.times|
    && w0.now + timeout <= deadline <= w.now + timeout
    && (forall k | |w0.times| <= k < |w.times| ::
          deadline - timeout <= w.times[k] <= w.now && w.times[k] < deadline && w.budgets[k] == deadline - w.times[k])
    && (forall j, k | |w0.times| <= j < k < |w.times| :: w.times[j] <= w.times[k])
  }

  ghost predicate Budgeted(w0: World, w: World, timeout: nat) {
    exists deadline: nat :: OnTime(w0, w, timeout, deadline)
  }

  /** No command since `w0` was given more than this time. */
  ghost predicate Paced(w0: World, w: World, timeout: nat) {
    w0.budgets <= w.budgets && forall k | |w0.budgets| <= k < |w.budgets| :: w.budgets[k] <= timeout
  }

  lemma BudgetedPaced(w0: World, w: World, timeout: nat)
    requires Budgeted(w0, w, timeout) && w0.budgets <= w.budgets
    ensures Paced(w0, w, timeout)
  {
    var deadline: nat :| OnTime(w0, w, timeout, deadline);
  }

  lemma PacedJoins(w0: World, w1: World, w2: World, timeout: nat)
    requires Paced(w0, w1, timeout) && Paced(w1, w2, timeout)
    ensures Paced(w0, w2, timeout)
  {
  }

  /** Nothing but the host's books and its clock have moved on, and something was issued. */
  ghost predicate Books(w0: World, w: World, sent: seq<Span>, timeout: nat, deadline: nat) {
    && Wf(w0) && Wf(w) && Later(w0, w) && w.issued == w0.issued + sent && OnTime(w0, w, timeout, deadline)
  }

  lemma BooksFacts(w0: World, w: World, sent: seq<Span>, timeout: nat, deadline: nat)
    requires Books(w0, w, sent, timeout, deadline)
    ensures Wf(w) && Later(w0, w) && Aged(w0, w) && w.issued == w0.issued + sent && Budgeted(w0, w, timeout)
  {
    hide Wf, OnTime;
  }

  lemma BooksStart(w0: World, w: World, timeout: nat)
    requires Wf(w0) && Wf(w) && w == w0.(now := w.now) && w0.now <= w.now
    ensures Books(w0, w, [], timeout, w.now + timeout)
  {
    hide ReplyOk, Chained, PacketsOk, TailOk, Effective, ParserOk;
  }

  /** The clock is read: `w1` to `w2`. */
  lemma BooksTick(w0: World, w1: World, w2: World, sent: seq<Span>, timeout: nat, deadline: nat)
    requires Books(w0, w1, sent, timeout, deadline) && Wf(w2) && Later(w1, w2)
    requires w2 == w1.(now := w2.now)
    ensures Books(w0, w2, sent, timeout, deadline) && w0.faults <= w1.faults
  {
    hide Wf;
  }

  /** A command is issued within what is left of the time. */
  lemma BooksCommand(w0: World, w1: World, w2: World, sent: seq<Span>, timeout: nat, deadline: nat, c: Command, ok: bool)
    requires Books(w0, w1, sent, timeout, deadline)
    requires w1.now < deadline && Commanded(w1, w2, c, deadline - w1.now, ok)
    ensures Books(w0, w2, sent + [SpanOf(c)], timeout, deadline) && w0.faults <= w1.faults <= w2.faults
    ensures Aged(w1, w2)
    ensures ok && w2.mishaps == w1.mishaps ==> Clean(w2)
    ensures Clean(w1) && InTime(w1, w2, deadline) ==> ok
  {
    hide Wf, Torn, Patched, Clean, InRange;
    assert w2.budgets == w1.budgets + [deadline - w1.now] && w2.times == w1.times + [w1.now];
  }

  // ----- Writing -----

  /** The first `off` bytes are written, and the link is known to be clean if it was so at the start or
      anything has been written. */
  ghost predicate Written(w0: World, w: World, base: int, data: seq<byte>, off: nat) {
    Aged(w0, w) && off <= |data| &&
    (w.mishaps == w0.mishaps ==>
      && Patched(w0, w, Splice(base, data[..off]))
      && (off > 0 || Clean(w0) ==> Clean(w))
      && (off > 0 ==> base + off <= |w.disk|))
  }

  lemma WrittenStart(w0: World, w: World, base: int, data: seq<byte>)
    requires w == w0.(now := w.now) && w0.now <= w.now
    ensures Written(w0, w, base, data, 0)
  {
    MayHoldSame(w0, w);
    assert data[..0] == [];
  }

  lemma WrittenTick(w0: World, w1: World, w2: World, base: int, data: seq<byte>, off: nat)
    requires Written(w0, w1, base, data, off) && w2 == w1.(now := w2.now) && w1.now <= w2.now
    ensures Written(w0, w2, base, data, off)
  {
    MayHoldSame(w1, w2);
  }

  lemma SpliceMore(base: int, data: seq<byte>, off: nat, n: nat)
    requires off + n <= |data|
    ensures Splice(base, data[..off]) + Splice(base + off, data[off..off + n]) == Splice(base, data[..off + n])
  {
    assert data[..off] + data[off..off + n] == data[..off + n];
  }

  /** The command stores exactly `data[off..off + n]` of a range that begins at `base`. */
  ghost predicate Carries(c: Command, erased: byte, base: int, data: seq<byte>, off: nat, n: nat) {
    && 0 < n && off + n <= |data|
    && Effect(c, erased) == Splice(base + off, data[off..off + n])
    && match c
       case Write(lba, d, _) => lba * SECTOR + |d| == base + off + n
       case Erase(lba, count) => (lba + count) * SECTOR == base + off + n
       case _ => false
  }

  lemma WriteCarries(lba: u32, subcode: byte, erased: byte, base: int, data: seq<byte>, off: nat, n: nat)
    requires 0 < n && off + n <= |data| && base + off == lba * SECTOR
    ensures Carries(Write(lba, data[off..off + n], subcode), erased, base, data, off, n)
  {
  }

  function Blank(count: nat, erased: byte): (b: seq<byte>)
    ensures |b| == count * SECTOR
  {
    seq(count * SECTOR, _ => erased)
  }

  lemma EraseCarries(lba: u32, count: u16, erased: byte, base: int, data: seq<byte>, off: nat, all: nat)
    requires 0 < count && off + count * SECTOR <= |data| && base + off == lba * SECTOR && data == Blank(all, erased)
    ensures Carries(Erase(lba, count), erased, base, data, off, count * SECTOR)
  {
    assert data[off..off + count * SECTOR] == Blank(count, erased);
  }

  lemma ChunkWritten(w0: World, w1: World, w2: World, base: int, data: seq<byte>, off: nat, n: nat,
                     c: Command, budget: nat)
    requires Written(w0, w1, base, data, off) && Carries(c, w1.erased, base, data, off, n)
    requires Commanded(w1, w2, c, budget, true)
    ensures Written(w0, w2, base, data, off + n)
  {
    hide Wf, MayHold, Clean, Patched, Torn, Effect;
    if w2.mishaps == w0.mishaps {
      Compose(w0, w1, w2, Splice(base, data[..off]), Splice(base + off, data[off..off + n]));
      SpliceMore(base, data, off, n);
    }
  }

  /** What may be old or new is within the last command that was issued, and that one was no read. */
  ghost predicate Tied(w0: World, w: World, base: int, done: nat, chunk: nat) {
    chunk > 0 ==>
      && |w0.issued| < |w.issued|
      && var s := w.issued[|w.issued| - 1];
         (s.kind == Writing || s.kind == Erasing)
         && s.lba * SECTOR <= base + done && base + done + chunk <= (s.lba + s.count) * SECTOR
  }

  lemma NotTied(w0: World, base: int, done: nat)
    ensures forall w :: Tied(w0, w, base, done, 0)
  {
  }

  lemma TiedLast(w0: World, w: World, before: seq<Span>, s: Span, base: int, done: nat, chunk: nat)
    requires w.issued == w0.issued + (before + [s]) && (s.kind == Writing || s.kind == Erasing)
    requires s.lba * SECTOR <= base + done && base + done + chunk <= (s.lba + s.count) * SECTOR
    ensures Tied(w0, w, base, done, chunk)
  {
  }

  /** A write stopped: `done` bytes are in place, the next `chunk` bytes are old or new, the rest untouched. */
  ghost predicate Stopped(w0: World, w: World, base: int, data: seq<byte>, done: nat, chunk: nat) {
    Aged(w0, w) && done + chunk <= |data| &&
    (w.mishaps == w0.mishaps ==> Broken(w0, w, Splice(base, data[..done]), Splice(base + done, data[done..done + chunk])))
  }

  lemma ChunkFailed(w0: World, w1: World, w2: World, base: int, data: seq<byte>, off: nat, n: nat,
                    c: Command, budget: nat)
    requires Written(w0, w1, base, data, off) && Carries(c, w1.erased, base, data, off, n)
    requires Commanded(w1, w2, c, budget, false)
    ensures Stopped(w0, w2, base, data, off, n)
  {
    hide Wf, MayHold, Clean, Patched, Torn, Broken, Effect;
    if w2.mishaps == w0.mishaps {
      Compose(w0, w1, w2, Splice(base, data[..off]), Splice(base + off, data[off..off + n]));
    }
  }

  lemma WrittenStopped(w0: World, w: World, base: int, data: seq<byte>, off: nat)
    requires Written(w0, w, base, data, off)
    ensures Stopped(w0, w, base, data, off, 0)
  {
    hide MayHold, Clean;
    assert data[off..off] == [];
  }

  /** The last, partial sector: read, changed at its beginning, written back. `w1` is the world the read left. */
  lemma TailPatch(w1: World, w2: World, w3: World, lba: u32, sector: seq<byte>, tail: seq<byte>,
                  subcode: byte, budget: nat, ok: bool)
    requires |sector| == SECTOR && 0 < |tail| < SECTOR
    requires InRange(Read(lba, 1, subcode), w1) && sector == w1.disk[lba * SECTOR..(lba + 1) * SECTOR]
    requires w2 == w1.(now := w2.now)
    requires Commanded(w2, w3, Write(lba, tail + sector[|tail|..], subcode), budget, ok)
    ensures Torn(w1, w3, Splice(lba * SECTOR, tail))
    ensures ok && w3.mishaps == w1.mishaps ==> Clean(w3) && Patched(w1, w3, Splice(lba * SECTOR, tail))
  {
    hide Wf, Clean, MayHold, Pending;
    var whole := tail + sector[|tail|..];
    assert Effect(Write(lba, whole, subcode), w2.erased) == Splice(lba * SECTOR, whole);
    MayHoldSame(w1, w2);
    Narrow(w1, w3, lba * SECTOR, whole, 0, tail);
  }

  lemma TailWritten(w0: World, w1: World, w2: World, base: int, data: seq<byte>, off: nat)
    requires Written(w0, w1, base, data, off) && off < |data| && Aged(w1, w2)
    requires w2.mishaps == w1.mishaps ==>
      Clean(w2) && Patched(w1, w2, Splice(base + off, data[off..])) && base + |data| <= |w2.disk|
    ensures Written(w0, w2, base, data, |data|)
  {
    hide MayHold, Clean, Patched;
    if w2.mishaps == w0.mishaps {
      Compose(w0, w1, w2, Splice(base, data[..off]), Splice(base + off, data[off..]));
      SpliceMore(base, data, off, |data| - off);
      assert data[off..|data|] == data[off..] && data[..|data|] == data;
    }
  }

  lemma TailFailed(w0: World, w1: World, w2: World, base: int, data: seq<byte>, off: nat)
    requires Written(w0, w1, base, data, off) && off < |data| && Aged(w1, w2)
    requires Torn(w1, w2, Splice(base + off, data[off..]))
    ensures Stopped(w0, w2, base, data, off, |data| - off)
  {
    hide MayHold, Clean, Patched, Torn, Broken;
    assert data[off..|data|] == data[off..];
    if w2.mishaps == w0.mishaps {
      Compose(w0, w1, w2, Splice(base, data[..off]), Splice(base + off, data[off..]));
    }
  }

  /** A read command in between changes nothing. */
  lemma ReadBetween(w0: World, w1: World, w2: World, base: int, data: seq<byte>, off: nat,
                    lba: u32, count: u16, subcode: byte, budget: nat, ok: bool)
    requires Written(w0, w1, base, data, off) && Commanded(w1, w2, Read(lba, count, subcode), budget, ok)
    ensures Stopped(w0, w2, base, data, off, 0)
    ensures ok ==> Written(w0, w2, base, data, off)
  {
    hide Wf, MayHold, Clean;
    assert off > 0 ==> base + off <= |w2.disk| || w2.mishaps != w0.mishaps;
  }

  lemma WritePlanStep(lba: nat, length: nat, n: nat, subcode: byte)
    requires length >= SECTOR
    requires n == Min(length / SECTOR, MAX_LBA_TRANSFER_SECTORS) * SECTOR
    ensures WritePlan(lba, length, subcode)
         == [Span(Writing, lba, n / SECTOR, subcode)] + WritePlan(lba + n / SECTOR, length - n, subcode)
    ensures ReadPlan(lba, length, subcode)
         == [Span(Reading, lba, n / SECTOR, subcode)] + ReadPlan(lba + n / SECTOR, length - n, subcode)
  {
    assert (length - n) / SECTOR == length / SECTOR - n / SECTOR && (length - n) % SECTOR == length % SECTOR;
  }

  /** The size of the next command: the rest of the whole sectors, or the most one command can move. */
  lemma StepSize(aligned: nat, rest: nat, off: nat, n: nat)
    requires off < aligned && aligned % SECTOR == 0 && off % SECTOR == 0 && rest < SECTOR
    requires n == if aligned - off < MAX_LBA_TRANSFER_SECTORS * SECTOR then aligned - off
                  else MAX_LBA_TRANSFER_SECTORS * SECTOR
    ensures 0 < n <= aligned - off && n % SECTOR == 0 && (off + n) % SECTOR == 0
    ensures n == Min((aligned + rest - off) / SECTOR, MAX_LBA_TRANSFER_SECTORS) * SECTOR
  {
    assert (aligned - off) % SECTOR == 0;
    assert (aligned + rest - off) / SECTOR == (aligned - off) / SECTOR;
  }

  lemma TailPlan(lba: nat, rest: nat, subcode: byte)
    requires 0 < rest < SECTOR
    ensures ReadPlan(lba, rest, subcode) == [Span(Reading, lba, 1, subcode)]
    ensures WritePlan(lba, rest, subcode) == [Span(Reading, lba, 1, subcode), Span(Writing, lba, 1, subcode)]
  {
  }

  lemma BooksIdle(w: World, timeout: nat)
    requires Wf(w)
    ensures Later(w, w) && Budgeted(w, w, timeout)
  {
    assert OnTime(w, w, timeout, w.now + timeout);
  }

  lemma NoBatches(lba: nat)
    ensures Batches(Erasing, lba, 0, MAX_ERASE_SECTORS, 0) == []
  {
  }

  lemma BatchesStep(lba: nat, count: nat, n: nat)
    requires 0 < count && n == Min(count, MAX_ERASE_SECTORS)
    ensures Batches(Erasing, lba, count, MAX_ERASE_SECTORS, 0)
         == [Span(Erasing, lba, n, 0)] + Batches(Erasing, lba + n, count - n, MAX_ERASE_SECTORS, 0)
  {
  }

  lemma NoPlan(lba: nat, subcode: byte)
    ensures WritePlan(lba, 0, subcode) == [] && ReadPlan(lba, 0, subcode) == []
  {
  }

  lemma PlanPrefix(before: seq<Span>, sent: seq<Span>, issued: seq<Span>, plan: seq<Span>)
    requires issued <= plan
    ensures before + (sent + issued) <= before + (sent + plan)
  {
    assert before + (sent + plan) == before + (sent + issued) + plan[|issued|..];
  }

  lemma IssuedPrefix(issued: seq<Span>, sent: seq<Span>, rest: seq<Span>)
    ensures issued + sent <= issued + (sent + rest)
  {
    assert issued + (sent + rest) == issued + sent + rest;
  }

  /** All of it: `w3` is the world after the read, `w4` after the clock check, `w5` after the write. */
  lemma TailDone(w0: World, w3: World, w4: World, w5: World, base: int, data: seq<byte>, off: nat,
                 lba: u32, sector: seq<byte>, subcode: byte, budget: nat, ok: bool)
    requires Written(w0, w3, base, data, off) && off < |data| < off + SECTOR && base + off == lba * SECTOR
    requires |sector| == SECTOR
    requires w3.mishaps == w0.mishaps ==>
      InRange(Read(lba, 1, subcode), w3) && sector == w3.disk[lba * SECTOR..(lba + 1) * SECTOR]
    requires w4 == w3.(now := w4.now) && w3.now <= w4.now
    requires Commanded(w4, w5, Write(lba, data[off..] + sector[|data| - off..], subcode), budget, ok)
    ensures if ok then Written(w0, w5, base, data, |data|) else Stopped(w0, w5, base, data, off, |data| - off)
  {
    hide Wf, Clean, MayHold, Torn, Patched, Effect;
    if w3.mishaps == w0.mishaps {
      hide Written, Stopped;
      TailPatch(w3, w4, w5, lba, sector, data[off..], subcode, budget, ok);
      if ok {
        TailWritten(w0, w3, w5, base, data, off);
      } else {
        TailFailed(w0, w3, w5, base, data, off);
      }
    }
  }

  // ----- Reading -----

  /** Reading has changed nothing, and what was read so far is what the disk holds. */
  ghost predicate Fetched(w0: World, w: World, base: int, got: seq<byte>) {
    && Aged(w0, w) && Patched(w0, w, map[])
    && (w.mishaps == w0.mishaps ==>
          && (got != [] || Clean(w0) ==> Clean(w))
          && (got != [] ==> 0 <= base && base + |got| <= |w.disk| && got == w.disk[base..base + |got|]))
  }

  lemma FetchedStart(w0: World, w: World, base: int)
    requires w == w0.(now := w.now) && w0.now <= w.now
    ensures Fetched(w0, w, base, [])
  {
    MayHoldSame(w0, w);
  }

  lemma FetchedTick(w0: World, w1: World, w2: World, base: int, got: seq<byte>)
    requires Fetched(w0, w1, base, got) && w2 == w1.(now := w2.now) && w1.now <= w2.now
    ensures Fetched(w0, w2, base, got)
  {
    MayHoldSame(w1, w2);
  }

  lemma FetchedLess(w0: World, w: World, base: int, got: seq<byte>, n: nat)
    requires Fetched(w0, w, base, got) && n <= |got|
    ensures Fetched(w0, w, base, got[..n])
  {
    hide Patched, Clean;
  }

  lemma FetchedPatched(w0: World, w: World, base: int, got: seq<byte>)
    requires Fetched(w0, w, base, got)
    ensures Patched(w0, w, map[])
  {
  }

  lemma ChunkFetched(w0: World, w1: World, w2: World, base: int, got: seq<byte>,
                     lba: u32, count: u16, subcode: byte, budget: nat, ok: bool, chunk: seq<byte>)
    requires Fetched(w0, w1, base, got) && base + |got| == lba * SECTOR && |chunk| == count * SECTOR
    requires Brought(w1, w2, lba, count, subcode, budget, ok, chunk)
    ensures Patched(w0, w2, map[])
    ensures ok ==> Fetched(w0, w2, base, got + chunk)
  {
    hide Wf, MayHold, Clean;
    assert Patched(w1, w2, map[]) by { TornNothing(w1, w2); }
    var nothing: Patch := map[];
    Compose(w0, w1, w2, nothing, nothing);
    assert nothing + nothing == nothing;
    if ok && w2.mishaps == w0.mishaps && got != [] {
      PatchedClean(w1, w2, map[]);
      assert w2.disk == w1.disk;
    }
  }

  /** The same in a buffer: what was fetched is extended where it is. */
  lemma ChunkInBuffer(w0: World, w1: World, w2: World, base: int, before: seq<byte>, after: seq<byte>, lo: nat, off: nat,
                      n: nat, lba: u32, subcode: byte, budget: nat, ok: bool)
    requires lo + off + n <= |before| == |after| && after[..lo + off] == before[..lo + off]
    requires n % SECTOR == 0 && n / SECTOR <= 0xFFFF && base + off == lba * SECTOR
    requires Fetched(w0, w1, base, before[lo..lo + off])
    requires Brought(w1, w2, lba, n / SECTOR, subcode, budget, ok, after[lo + off..lo + off + n])
    ensures Patched(w0, w2, map[]) && after[..lo] == before[..lo]
    ensures ok ==> Fetched(w0, w2, base, after[lo..lo + off + n])
  {
    hide Fetched, Brought, Patched;
    PrefixExtended(before, after, lo, lo + off, lo + off + n);
    ChunkFetched(w0, w1, w2, base, before[lo..lo + off], lba, n / SECTOR, subcode, budget, ok,
                 after[lo + off..lo + off + n]);
  }

  lemma TornNothing(w1: World, w2: World)
    requires Torn(w1, w2, map[])
    ensures Patched(w1, w2, map[])
  {
  }

  /** What was written is what is read back, for every position and length. */
  lemma ReadBack(w0: World, w1: World, w2: World, base: int, data: seq<byte>, got: seq<byte>)
    requires Written(w0, w1, base, data, |data|) && Fetched(w1, w2, base, got) && |got| == |data|
    requires Later(w1, w2) && w2.mishaps == w0.mishaps
    ensures got == data
  {
    if data != [] {
      var nothing: Patch := map[];
      assert data[..|data|] == data;
      PatchedNow(w0, w1, Splice(base, data));
      PatchedClean(w1, w2, nothing);
      assert w2.disk == w1.disk;
      forall k | 0 <= k < |data| ensures got[k] == data[k] {
        assert base + k in Splice(base, data);
      }
    }
  }
}
