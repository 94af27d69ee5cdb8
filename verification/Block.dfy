/** Byte ranges over sectors: the pieces of one block-device access and how their effects join. */
module Blocks {
  import opened Bytes
  import opened Link
  import opened LinkHost
  import opened Effects
  import opened Transactions
  import opened Plans
  import opened Batch

  /** The bytes of an access up to the first sector boundary, when it does not start at one. */
  function HeadLength(pos: nat, length: nat): (n: nat)
    ensures n <= length
  {
    if pos % SECTOR == 0 then 0 else Min(SECTOR - pos % SECTOR, length)
  }

  /** The whole sectors in the middle. */
  function MiddleLength(pos: nat, length: nat): (n: nat)
    ensures HeadLength(pos, length) + n <= length && n % SECTOR == 0
    ensures length - HeadLength(pos, length) - n < SECTOR
    ensures n > 0 || HeadLength(pos, length) < length ==> (pos + HeadLength(pos, length)) % SECTOR == 0
  {
    (length - HeadLength(pos, length)) / SECTOR * SECTOR
  }

  /** Commands of one read-modify-write of one sector. */
  function Rewrite(lba: nat, subcode: byte): seq<Span> {
    [Span(Reading, lba, 1, subcode), Span(Writing, lba, 1, subcode)]
  }

  function HeadPlan(pos: nat, length: nat, subcode: byte): seq<Span> {
    if HeadLength(pos, length) == 0 then [] else Rewrite(pos / SECTOR, subcode)
  }

  function BlockWritePlan(pos: nat, length: nat, subcode: byte): seq<Span> {
    var head, middle := HeadLength(pos, length), MiddleLength(pos, length);
    HeadPlan(pos, length, subcode)
    + WritePlan((pos + head) / SECTOR, middle, subcode)
    + if head + middle == length then [] else Rewrite((pos + head + middle) / SECTOR, subcode)
  }

  function RestPlan(pos: nat, length: nat, subcode: byte): (rest: seq<Span>)
    ensures [] + HeadPlan(pos, length, subcode) + rest == BlockWritePlan(pos, length, subcode)
    ensures [] + HeadPlan(pos, length, subcode) == HeadPlan(pos, length, subcode)
  {
    var head, middle := HeadLength(pos, length), MiddleLength(pos, length);
    WritePlan((pos + head) / SECTOR, middle, subcode)
    + if head + middle == length then [] else Rewrite((pos + head + middle) / SECTOR, subcode)
  }

  lemma EmptyPlan(pos: nat, subcode: byte)
    ensures BlockWritePlan(pos, 0, subcode) == []
  {
  }

  /** The sectors a byte range reaches into, and whether their numbers, and the one after, are 32-bit. */
  predicate Addressable(pos: nat, length: nat) {
    length == 0 || (pos + length < 0x1_0000_0000_0000_0000 && (pos + length + SECTOR - 1) / SECTOR < 0x1_0000_0000)
  }

  /** The pieces of an access against the address limit: each piece ends at or before the sector after the
      last one, and the last piece ends there. */
  lemma PieceAddresses(pos: nat, length: nat)
    requires 0 < length
    ensures var head, middle := HeadLength(pos, length), MiddleLength(pos, length);
            var end := (pos + length + SECTOR - 1) / SECTOR;
            && (pos % SECTOR != 0 ==> 0 < head <= SECTOR - pos % SECTOR && pos / SECTOR + 1 <= end)
            && (pos % SECTOR == 0 ==> head == 0)
            && (middle != 0 ==> (pos + head) % SECTOR == 0 && (pos + head + middle) / SECTOR <= end)
            && (head + middle != length ==> (pos + head + middle) % SECTOR == 0
                                             && (pos + head + middle) / SECTOR + 1 == end)
            && (head + middle == length && middle != 0 ==> (pos + head + middle) / SECTOR == end)
            && (head + middle == length && middle == 0 ==> pos % SECTOR != 0 && pos / SECTOR + 1 == end)
  {
    var q, o := pos / SECTOR, pos % SECTOR;
    var head, middle := HeadLength(pos, length), MiddleLength(pos, length);
    if o != 0 && head == length {
      Quotient(pos + length + SECTOR - 1, q + 1, o + length - 1);
    } else {
      var k, boundary := (length - head) / SECTOR, if o == 0 then q else q + 1;
      var rest := length - head - middle;
      Quotient(pos + head, boundary, 0);
      Quotient(pos + head + middle, boundary + k, 0);
      if rest > 0 {
        Quotient(pos + length + SECTOR - 1, boundary + k + 1, rest - 1);
      } else {
        Quotient(pos + length + SECTOR - 1, boundary + k, SECTOR - 1);
      }
    }
  }

  lemma Quotient(x: nat, q: nat, r: nat)
    requires x == SECTOR * q + r && r < SECTOR
    ensures x / SECTOR == q && x % SECTOR == r
  {
  }

  lemma Joined(w0: World, w1: World, w2: World, base: int, data: seq<byte>, off: nat, n: nat)
    requires Written(w0, w1, base, data, off) && 0 < n && off + n <= |data|
    requires Written(w1, w2, base + off, data[off..off + n], n) && Later(w1, w2)
    ensures Written(w0, w2, base, data, off + n)
  {
    hide MayHold, Clean, Patched;
    if w2.mishaps == w0.mishaps {
      assert data[off..off + n][..n] == data[off..off + n];
      Compose(w0, w1, w2, Splice(base, data[..off]), Splice(base + off, data[off..off + n]));
      SpliceMore(base, data, off, n);
    }
  }

  lemma JoinedStop(w0: World, w1: World, w2: World, base: int, data: seq<byte>, off: nat, n: nat, done: nat, chunk: nat)
    requires Written(w0, w1, base, data, off) && off + n <= |data|
    requires Stopped(w1, w2, base + off, data[off..off + n], done, chunk) && Later(w1, w2)
    ensures Stopped(w0, w2, base, data, off + done, chunk)
  {
    hide MayHold, Clean, Patched, Broken;
    var piece := data[off..off + n];
    SubSlice(data, off, n, 0, done);
    SubSlice(data, off, n, done, done + chunk);
    if w2.mishaps == w0.mishaps {
      ComposeBroken(w0, w1, w2, Splice(base, data[..off]), Splice(base + off, piece[..done]),
                    Splice(base + off + done, piece[done..done + chunk]));
      SpliceMore(base, data, off, done);
    }
  }

  /** A sector that was read, changed in part and written back: `w1` before, `w2` after the read, `w3` after
      the write. */
  lemma Rewritten(w1: World, w2: World, w3: World, base: int, was: seq<byte>, at: nat, piece: seq<byte>)
    requires |was| == SECTOR && at + |piece| <= SECTOR && 0 < |piece|
    requires Fetched(w1, w2, base, was) && Later(w2, w3)
    requires Written(w2, w3, base, was[..at] + piece + was[at + |piece|..], SECTOR)
    ensures Written(w1, w3, base + at, piece, |piece|)
  {
    hide MayHold, Clean, Pending;
    if w3.mishaps == w1.mishaps {
      var sector := was[..at] + piece + was[at + |piece|..];
      assert sector[..SECTOR] == sector && piece[..|piece|] == piece;
      SectorParts(w2, base, was, at, piece);
      Narrow(w2, w3, base, sector, at, piece);
      Compose(w1, w2, w3, map[], Splice(base + at, piece));
      assert map[] + Splice(base + at, piece) == Splice(base + at, piece);
    }
  }

  lemma SectorParts(w: World, base: int, was: seq<byte>, at: nat, piece: seq<byte>)
    requires |was| == SECTOR && at + |piece| <= SECTOR
    requires 0 <= base && base + SECTOR <= |w.disk| && was == w.disk[base..base + SECTOR]
    ensures was[..at] + piece + was[at + |piece|..]
         == w.disk[base..base + at] + piece + w.disk[base + at + |piece|..base + SECTOR]
  {
    assert was[..at] == was[0..at] && was[at + |piece|..] == was[at + |piece|..SECTOR];
    SubSlice(w.disk, base, SECTOR, 0, at);
    SubSlice(w.disk, base, SECTOR, at + |piece|, SECTOR);
  }

  /** Stopping in the middle of the write-back leaves the piece written, or old-or-new if its write was issued,
      and its neighbours alone. */
  lemma RewriteStopped(w1: World, w2: World, w3: World, base: int, was: seq<byte>, at: nat, piece: seq<byte>,
                       done: nat, chunk: nat)
    requires |was| == SECTOR && at + |piece| <= SECTOR && 0 < |piece|
    requires Fetched(w1, w2, base, was) && Later(w2, w3)
    requires Stopped(w2, w3, base, was[..at] + piece + was[at + |piece|..], done, chunk) && done % SECTOR == 0
    ensures Stopped(w1, w3, base + at, piece, if done == 0 then 0 else |piece|,
                    if done == 0 && chunk > 0 then |piece| else 0)
  {
    var sector := was[..at] + piece + was[at + |piece|..];
    var m := Splice(base + at, piece);
    if w3.mishaps == w1.mishaps {
      SectorParts(w2, base, was, at, piece);
      StoppedSector(w2, w3, base, sector, done, chunk);
      Narrow(w2, w3, base, sector, at, piece);
      assert piece[..|piece|] == piece && piece[|piece|..|piece|] == [] && piece[0..|piece|] == piece && piece[..0] == [];
      assert piece[0..0] == [];
      FromFetched(w1, w2, w3, m);
      FromFetched(w1, w2, w3, map[]);
    }
  }

  lemma StoppedSector(w2: World, w3: World, base: int, sector: seq<byte>, done: nat, chunk: nat)
    requires |sector| == SECTOR && Stopped(w2, w3, base, sector, done, chunk)
    requires done % SECTOR == 0 && w3.mishaps == w2.mishaps
    ensures if done == 0 then Torn(w2, w3, Splice(base, sector)) else Patched(w2, w3, Splice(base, sector))
    ensures done == chunk == 0 ==> Torn(w2, w3, map[])
  {
    hide MayHold;
    if done != 0 { assert sector[..done] == sector && chunk == 0; }
  }

  /** The piece of a sector is tied to the command the sector is tied to. */
  lemma TiedPiece(w0: World, w1: World, w2: World, lba: nat, at: nat, length: nat, chunk: nat)
    requires Later(w0, w1) && Tied(w1, w2, lba * SECTOR, 0, chunk) && at + length <= SECTOR
    ensures Tied(w0, w2, lba * SECTOR + at, 0, if chunk > 0 then length else 0)
  {
  }

  lemma FromFetched(w1: World, w2: World, w3: World, m: Patch)
    requires Patched(w1, w2, map[])
    ensures Patched(w2, w3, m) ==> Broken(w1, w3, m, map[])
    ensures Torn(w2, w3, m) ==> Broken(w1, w3, map[], m)
  {
  }

  /** Part of an access is done: `off` bytes of `data`, by the commands `sent`. */
  ghost predicate Progress(w0: World, w: World, base: int, data: seq<byte>, off: nat, sent: seq<Span>) {
    Wf(w0) && Wf(w) && Later(w0, w) && w.issued == w0.issued + sent && Written(w0, w, base, data, off)
  }

  /** The access stopped. */
  ghost predicate Halted(w0: World, w: World, base: int, data: seq<byte>, done: nat, chunk: nat, plan: seq<Span>) {
    && Wf(w) && Later(w0, w) && w.issued <= w0.issued + plan && Stopped(w0, w, base, data, done, chunk)
    && Tied(w0, w, base, done, chunk)
  }

  /** One more piece, of `n` bytes, by the commands `plan`. */
  ghost predicate PieceDone(w1: World, w2: World, base: int, piece: seq<byte>, plan: seq<Span>) {
    Wf(w2) && Later(w1, w2) && w2.issued == w1.issued + plan && Written(w1, w2, base, piece, |piece|)
  }

  ghost predicate PieceStopped(w1: World, w2: World, base: int, piece: seq<byte>, done: nat, chunk: nat, plan: seq<Span>) {
    && Wf(w2) && Later(w1, w2) && w2.issued <= w1.issued + plan && Stopped(w1, w2, base, piece, done, chunk)
    && Tied(w1, w2, base, done, chunk)
  }

  lemma Advance(w0: World, w1: World, w2: World, base: int, data: seq<byte>, off: nat, n: nat,
                sent: seq<Span>, plan: seq<Span>)
    requires Progress(w0, w1, base, data, off, sent) && 0 < n && off + n <= |data|
    requires PieceDone(w1, w2, base + off, data[off..off + n], plan)
    ensures Progress(w0, w2, base, data, off + n, sent + plan)
    ensures w2.mishaps == w1.mishaps ==> Clean(w2)
    ensures w0.faults <= w1.faults <= w2.faults && Aged(w1, w2)
  {
    hide Wf, Clean, Patched;
    Joined(w0, w1, w2, base, data, off, n);
  }

  lemma Halt(w0: World, w1: World, w2: World, base: int, data: seq<byte>, off: nat, n: nat,
             sent: seq<Span>, plan: seq<Span>, rest: seq<Span>, done: nat, chunk: nat)
    requires Progress(w0, w1, base, data, off, sent) && off + n <= |data|
    requires PieceStopped(w1, w2, base + off, data[off..off + n], done, chunk, plan)
    ensures Halted(w0, w2, base, data, off + done, chunk, sent + plan + rest)
    ensures w0.faults <= w1.faults <= w2.faults && Aged(w1, w2)
  {
    hide Wf, Written, Stopped;
    JoinedStop(w0, w1, w2, base, data, off, n, done, chunk);
    assert w0.issued + (sent + plan + rest) == w1.issued + plan + rest;
  }

  lemma NoProgress(w: World, base: int, data: seq<byte>)
    requires Wf(w)
    ensures Progress(w, w, base, data, 0, [])
  {
    hide Wf;
    assert data[..0] == [];
  }

  /** A refusal to start a piece. */
  lemma Refused(w0: World, w: World, base: int, data: seq<byte>, off: nat, sent: seq<Span>, rest: seq<Span>)
    requires Progress(w0, w, base, data, off, sent)
    ensures Halted(w0, w, base, data, off, 0, sent + rest)
  {
    hide Wf, Written, Stopped;
    WrittenStopped(w0, w, base, data, off);
    assert w0.issued + (sent + rest) == w.issued + rest;
  }

  // ----- Reading -----

  function EdgeReadPlan(pos: nat, length: nat, subcode: byte): seq<Span> {
    if length == 0 then [] else [Span(Reading, pos / SECTOR, 1, subcode)]
  }

  function BlockReadPlan(pos: nat, length: nat, subcode: byte): seq<Span> {
    var head, middle := HeadLength(pos, length), MiddleLength(pos, length);
    EdgeReadPlan(pos, head, subcode)
    + ReadPlan((pos + head) / SECTOR, middle, subcode)
    + EdgeReadPlan(pos + head + middle, length - head - middle, subcode)
  }

  lemma ReadPlanParts(pos: nat, length: nat, subcode: byte)
    ensures var head, middle := HeadLength(pos, length), MiddleLength(pos, length);
            BlockReadPlan(pos, length, subcode) == EdgeReadPlan(pos, head, subcode)
                                                   + ReadPlan((pos + head) / SECTOR, middle, subcode)
                                                   + EdgeReadPlan(pos + head + middle, length - head - middle, subcode)
  {
  }

  ghost predicate ReadProgress(w0: World, w: World, base: int, got: seq<byte>, sent: seq<Span>) {
    Wf(w0) && Wf(w) && Later(w0, w) && w.issued == w0.issued + sent && Fetched(w0, w, base, got)
  }

  ghost predicate ReadHalted(w0: World, w: World, plan: seq<Span>) {
    Wf(w) && Later(w0, w) && w.issued <= w0.issued + plan && Patched(w0, w, map[])
  }

  lemma NothingRead(w: World, base: int)
    requires Wf(w)
    ensures ReadProgress(w, w, base, [], [])
  {
    hide Wf;
  }

  lemma AdvanceRead(w0: World, w1: World, w2: World, base: int, got: seq<byte>, more: seq<byte>,
                    sent: seq<Span>, plan: seq<Span>)
    requires ReadProgress(w0, w1, base, got, sent) && ReadProgress(w1, w2, base + |got|, more, plan)
    ensures ReadProgress(w0, w2, base, got + more, sent + plan)
    ensures w0.faults <= w1.faults <= w2.faults && Aged(w1, w2)
    ensures Wf(w2) && (more != [] && w2.mishaps == w1.mishaps ==> Clean(w2))
  {
    hide Wf, MayHold, Clean;
    var nothing: Patch := map[];
    Compose(w0, w1, w2, nothing, nothing);
    assert nothing + nothing == nothing;
    if w2.mishaps == w0.mishaps && got != [] {
      PatchedClean(w1, w2, nothing);
      assert w2.disk == w1.disk;
    }
  }

  lemma HaltRead(w0: World, w1: World, w2: World, base: int, got: seq<byte>,
                 sent: seq<Span>, plan: seq<Span>, rest: seq<Span>)
    requires ReadProgress(w0, w1, base, got, sent) && ReadHalted(w1, w2, plan)
    ensures ReadHalted(w0, w2, sent + plan + rest)
    ensures w0.faults <= w1.faults <= w2.faults && Aged(w1, w2)
  {
    hide Wf, MayHold, Clean;
    var nothing: Patch := map[];
    Compose(w0, w1, w2, nothing, nothing);
    assert nothing + nothing == nothing;
    assert w0.issued + (sent + plan + rest) == w1.issued + plan + rest;
  }

  lemma FetchedPart(w0: World, w: World, base: int, got: seq<byte>, at: nat, n: nat)
    requires Fetched(w0, w, base, got) && at + n <= |got| && 0 < n
    ensures Fetched(w0, w, base + at, got[at..at + n])
  {
    hide Patched, Clean;
  }

  lemma EmptyReadPlan(pos: nat, subcode: byte)
    ensures BlockReadPlan(pos, 0, subcode) == []
  {
  }

  lemma NoEdge(pos: nat, subcode: byte)
    ensures EdgeReadPlan(pos, 0, subcode) == []
  {
  }

  lemma HaltedAtOnce(w: World, plan: seq<Span>)
    requires Wf(w)
    ensures ReadHalted(w, w, plan)
  {
    hide Wf;
  }

  function RestReadPlan(pos: nat, length: nat, subcode: byte): (rest: seq<Span>)
    ensures [] + EdgeReadPlan(pos, HeadLength(pos, length), subcode) + rest == BlockReadPlan(pos, length, subcode)
  {
    var head, middle := HeadLength(pos, length), MiddleLength(pos, length);
    ReadPlan((pos + head) / SECTOR, middle, subcode)
    + EdgeReadPlan(pos + head + middle, length - head - middle, subcode)
  }
}
