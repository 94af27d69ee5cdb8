/** A byte-addressed disk with a cursor over the sector commands of the device. */
module BlockDevices {
  import opened Bytes
  import opened Usb
  import opened Link
  import opened LinkHost
  import opened DeviceHandles
  import opened Effects
  import opened Transactions
  import opened Plans
  import opened Batch
  import opened RkDevices
  import opened Blocks

  datatype IoError = PositionOverflow | LbaOutOfRange | OutOfRange | Device(error: RkUsbError)

  datatype SeekFrom = Start(offset: u64) | End(delta: int) | Current(delta: int)

  const U64_LIMIT := 0x1_0000_0000_0000_0000
  const U32_LIMIT := 0x1_0000_0000

  class RkBlockDevice {
    const rkdev: RkDevice
    var pos: u64
    const diskSizeBytes: u64
    const subcode: byte
    const timeout: nat

    constructor (rkdev: RkDevice, diskSizeBytes: u64, subcode: byte, timeout: nat)
      ensures this.rkdev == rkdev && pos == 0 && this.diskSizeBytes == diskSizeBytes
      ensures this.subcode == subcode && this.timeout == timeout
    {
      this.rkdev, this.pos, this.diskSizeBytes := rkdev, 0, diskSizeBytes;
      this.subcode, this.timeout := subcode, timeout;
    }

    /** Read the sector, put `piece` at offset `at`, write it back. */
    method ReadModifyWrite(lba: u32, at: nat, piece: seq<byte>)
      returns (r: Result<(), IoError>, ghost done: nat, ghost chunk: nat)
      requires Wf(rkdev.device.world) && at + |piece| <= SECTOR && 0 < |piece|
      modifies rkdev.device
      ensures var w0, w := old(rkdev.device.world), rkdev.device.world;
              && Wf(w) && Later(w0, w)
              && w.issued <= w0.issued + Rewrite(lba, subcode)
              && (r.Ok? ==> w.issued == w0.issued + Rewrite(lba, subcode))
              && (r.Ok? ==> Written(w0, w, lba * SECTOR + at, piece, |piece|))
              && (r.Err? ==> Stopped(w0, w, lba * SECTOR + at, piece, done, chunk) && chunk <= SECTOR)
              && (r.Err? ==> Tied(w0, w, lba * SECTOR + at, done, chunk))
              && (r == Err(Device(LbaOverflow)) ==> lba + 1 >= U32_LIMIT)
              && (r.Ok? ==> lba + 1 < U32_LIMIT)
              && (r.Err? ==> r.error.Device?)
              && (Clean(w0) && InTime(w0, w, w0.now + timeout) ==>
                    if lba + 1 < U32_LIMIT then r.Ok? else r == Err(Device(LbaOverflow)))
      ensures Paced(old(rkdev.device.world), rkdev.device.world, timeout)
    {
      hide Wf, Written, Stopped, Budgeted, Patched;
      ghost var w0, base := rkdev.device.world, lba * SECTOR;
      var tmp := new byte[SECTOR](_ => 0);
      OneSector(lba, subcode);
      var got := rkdev.ReadLba(lba, tmp, 0, SECTOR, subcode, timeout);
      ghost var w1 := rkdev.device.world;
      BudgetedPaced(w0, w1, timeout);
      if got.Err? {
        NotStarted(w0, w1, base + at, piece);
        return Err(Device(got.error)), 0, 0;
      }
      ghost var was := tmp[..];
      assert tmp[0..SECTOR] == was;
      Fill(tmp, at, piece);
      assert tmp[..] == was[..at] + piece + was[at + |piece|..];
      var put;
      put, done, chunk := rkdev.WriteLba(lba, tmp[..], subcode, timeout);
      ghost var w2 := rkdev.device.world;
      BudgetedPaced(w1, w2, timeout);
      PacedJoins(w0, w1, w2, timeout);
      if put.Err? {
        RewriteStopped(w0, w1, w2, base, was, at, piece, done, chunk);
        if done == 0 { TiedPiece(w0, w1, w2, lba, at, |piece|, chunk); }
        return Err(Device(put.error)), if done == 0 then 0 else |piece|, if done == 0 && chunk > 0 then |piece| else 0;
      }
      Rewritten(w0, w1, w2, base, was, at, piece);
      return Ok(()), |piece|, 0;
    }

    /** The partial sector at `cur`, which `piece` does not leave. */
    method WriteEdge(cur: u64, piece: seq<byte>) returns (r: Result<(), IoError>, ghost done: nat, ghost chunk: nat)
      requires Wf(rkdev.device.world) && 0 < |piece| && cur % SECTOR + |piece| <= SECTOR
      modifies rkdev.device
      ensures var w0, w, plan := old(rkdev.device.world), rkdev.device.world, Rewrite(cur / SECTOR, subcode);
              && (if r.Ok? then PieceDone(w0, w, cur, piece, plan)
                  else PieceStopped(w0, w, cur, piece, done, chunk, plan) && chunk <= SECTOR)
              && (r.Err? && AddressError(r.error) ==> cur / SECTOR + 1 >= U32_LIMIT)
              && (r.Ok? ==> cur / SECTOR + 1 < U32_LIMIT)
              && (Clean(w0) && InTime(w0, w, w0.now + timeout) ==>
                    if cur / SECTOR + 1 < U32_LIMIT then r.Ok? else r.Err? && AddressError(r.error))
      ensures Paced(old(rkdev.device.world), rkdev.device.world, timeout)
    {
      hide Wf, Written, Stopped, Paced;
      NothingPaced(rkdev.device.world, timeout);
      var startSector := cur / SECTOR;
      if startSector >= U32_LIMIT {
        Unmoved(rkdev.device.world, cur, piece);
        return Err(LbaOutOfRange), 0, 0;
      }
      r, done, chunk := ReadModifyWrite(startSector, cur % SECTOR, piece);
    }

    /** The whole sectors from `cur` on. */
    method WriteMiddle(cur: u64, piece: seq<byte>) returns (r: Result<(), IoError>, ghost done: nat, ghost chunk: nat)
      requires Wf(rkdev.device.world) && 0 < |piece| && cur % SECTOR == 0 && |piece| % SECTOR == 0
      modifies rkdev.device
      ensures var w0, w, plan := old(rkdev.device.world), rkdev.device.world, WritePlan(cur / SECTOR, |piece|, subcode);
              && (if r.Ok? then PieceDone(w0, w, cur, piece, plan)
                  else PieceStopped(w0, w, cur, piece, done, chunk, plan) && chunk <= MAX_LBA_TRANSFER_SECTORS * SECTOR)
              && (r.Err? && AddressError(r.error) ==> (cur + |piece|) / SECTOR >= U32_LIMIT)
              && (r.Ok? ==> (cur + |piece|) / SECTOR < U32_LIMIT)
              && (Clean(w0) && InTime(w0, w, w0.now + timeout) ==>
                    if (cur + |piece|) / SECTOR < U32_LIMIT then r.Ok? else r.Err? && AddressError(r.error))
      ensures Paced(old(rkdev.device.world), rkdev.device.world, timeout)
    {
      hide Wf, Written, Stopped, WritePlan, Budgeted, Paced;
      ghost var w0 := rkdev.device.world;
      NothingPaced(w0, timeout);
      var startSector := cur / SECTOR;
      if startSector >= U32_LIMIT {
        Unmoved(rkdev.device.world, cur, piece);
        return Err(LbaOutOfRange), 0, 0;
      }
      var written;
      written, done, chunk := rkdev.WriteLba(startSector, piece, subcode, timeout);
      BudgetedPaced(w0, rkdev.device.world, timeout);
      r := if written.Ok? then Ok(()) else Err(Device(written.error));
    }

    /** Write `buf` at the cursor: a partial first sector, whole sectors, a partial last sector. On failure the
        cursor stays, the first `done` bytes are in place, the next `chunk` are old or new, and no other byte
        of the disk has changed or will. */
    method Write(buf: seq<byte>) returns (r: Result<nat, IoError>, ghost done: nat, ghost chunk: nat)
      requires Wf(rkdev.device.world)
      modifies this`pos, rkdev.device
      ensures r.Ok? ==> r.value == |buf| && pos == old(pos) + |buf|
      ensures r.Err? ==> pos == old(pos)
      ensures buf == [] ==> rkdev.device.world == old(rkdev.device.world) && r.Ok?
      ensures var w0, w, plan := old(rkdev.device.world), rkdev.device.world, BlockWritePlan(old(pos), |buf|, subcode);
              && (if r.Ok? then Progress(w0, w, old(pos), buf, |buf|, plan)
                  else Halted(w0, w, old(pos), buf, done, chunk, plan) && chunk <= MAX_LBA_TRANSFER_SECTORS * SECTOR)
              && (r.Err? && AddressError(r.error) ==> !Addressable(old(pos), |buf|))
              && (r.Ok? ==> Addressable(old(pos), |buf|))
              && (Clean(w0) && InTime(w0, w, w0.now + timeout) ==>
                    if Addressable(old(pos), |buf|) then r.Ok? else r.Err? && AddressError(r.error))
      ensures Paced(old(rkdev.device.world), rkdev.device.world, timeout)
    {
      hide Wf, Written, Stopped, WritePlan, Later, Clean, Progress, Halted, Rewrite, HeadLength, MiddleLength, Paced;
      done, chunk := 0, 0;
      ghost var w0 := rkdev.device.world;
      NothingPaced(w0, timeout);
      NoProgress(w0, pos, buf);
      if buf == [] {
        NoPlan(pos / SECTOR, subcode);
        EmptyPlan(pos, subcode);
        return Ok(0), 0, 0;
      }
      var length := |buf|;
      if pos + length >= U64_LIMIT {
        ghost var plan := BlockWritePlan(pos, length, subcode);
        Refused(w0, w0, pos, buf, 0, [], plan);
        assert [] + plan == plan;
        return Err(PositionOverflow), 0, 0;
      }
      var start, endPos := pos, pos + length;
      var head := HeadLength(start, length);
      ghost var p1 := HeadPlan(start, length, subcode);
      PieceAddresses(start, length);

      // 1) A first unaligned sector, by read-modify-write.
      var piece;
      if start % SECTOR != 0 {
        piece, done, chunk := WriteEdge(start, buf[0..head]);
        if piece.Err? {
          Halt(w0, w0, rkdev.device.world, start, buf, 0, head, [], p1, RestPlan(start, length, subcode), done, chunk);
          return Err(piece.error), done, chunk;
        }
        Advance(w0, w0, rkdev.device.world, start, buf, 0, head, [], p1);
        assert [] + p1 == p1;
      }
      ghost var w1 := rkdev.device.world;
      piece, done, chunk := WriteRest(start, buf, w0);
      PacedJoins(w0, w1, rkdev.device.world, timeout);
      if piece.Err? { return Err(piece.error), done, chunk; }
      pos := endPos;
      return Ok(length), length, 0;
    }

    /** The rest of a write that begins at `start`, from the first sector boundary on. */
    method WriteRest(start: u64, buf: seq<byte>, ghost w0: World)
      returns (r: Result<(), IoError>, ghost done: nat, ghost chunk: nat)
      requires 0 < |buf| && start + |buf| < U64_LIMIT && Wf(rkdev.device.world)
      requires Progress(w0, rkdev.device.world, start, buf, HeadLength(start, |buf|), HeadPlan(start, |buf|, subcode))
      modifies rkdev.device
      ensures var w, plan := rkdev.device.world, BlockWritePlan(start, |buf|, subcode);
              && Aged(old(rkdev.device.world), w)
              && (if r.Ok? then Progress(w0, w, start, buf, |buf|, plan)
                  else Halted(w0, w, start, buf, done, chunk, plan) && chunk <= MAX_LBA_TRANSFER_SECTORS * SECTOR)
              && (r.Err? && AddressError(r.error) ==> !Addressable(start, |buf|))
              && (r.Ok? ==> Addressable(start, |buf|) || HeadLength(start, |buf|) == |buf|)
              && (Clean(old(rkdev.device.world))
                  && InTime(old(rkdev.device.world), w, old(rkdev.device.world).now + timeout) ==>
                    if Addressable(start, |buf|) || HeadLength(start, |buf|) == |buf| then r.Ok?
                    else r.Err? && AddressError(r.error))
      ensures Paced(old(rkdev.device.world), rkdev.device.world, timeout)
    {
      hide Wf, Written, Stopped, WritePlan, Later, Clean, Progress, Halted, Rewrite, HeadLength, MiddleLength, Paced;
      done, chunk := 0, 0;
      NothingPaced(rkdev.device.world, timeout);
      var length := |buf|;
      var head, middle := HeadLength(start, length), MiddleLength(start, length);
      var aligned, tail := start + head, start + head + middle;
      ghost var p1 := HeadPlan(start, length, subcode);
      ghost var p2 := WritePlan(aligned / SECTOR, middle, subcode);
      ghost var p3 := if head + middle == length then [] else Rewrite(tail / SECTOR, subcode);
      PieceAddresses(start, length);
      ghost var w1 := rkdev.device.world;
      var piece;

      // 2) Whole sectors directly.
      if middle != 0 {
        piece, done, chunk := WriteMiddle(aligned, buf[head..head + middle]);
        if piece.Err? {
          Halt(w0, w1, rkdev.device.world, start, buf, head, middle, p1, p2, p3, done, chunk);
          return Err(piece.error), head + done, chunk;
        }
        Advance(w0, w1, rkdev.device.world, start, buf, head, middle, p1, p2);
      } else {
        NoPlan(aligned / SECTOR, subcode);
        assert p1 + p2 == p1;
      }
      ghost var w2 := rkdev.device.world;

      // 3) A last partial sector, by read-modify-write.
      var rest := length - head - middle;
      if rest != 0 {
        piece, done, chunk := WriteEdge(tail, buf[head + middle..head + middle + rest]);
        PacedJoins(w1, w2, rkdev.device.world, timeout);
        if piece.Err? {
          Halt(w0, w2, rkdev.device.world, start, buf, head + middle, rest, p1 + p2, p3, [], done, chunk);
          assert p1 + p2 + p3 + [] == p1 + p2 + p3;
          return Err(piece.error), head + middle + done, chunk;
        }
        Advance(w0, w2, rkdev.device.world, start, buf, head + middle, rest, p1 + p2, p3);
      } else {
        assert p1 + p2 + p3 == p1 + p2;
      }
      r := Ok(());
    }

    /** `buf[lo..hi]` from within the sector at `cur`. */
    method ReadEdge(cur: u64, buf: array<byte>, lo: nat, hi: nat) returns (r: Result<(), IoError>)
      requires Wf(rkdev.device.world) && lo < hi <= buf.Length && cur % SECTOR + (hi - lo) <= SECTOR
      modifies rkdev.device, buf
      ensures buf[..lo] == old(buf[..lo]) && buf[hi..] == old(buf[hi..])
      ensures var w0, w, plan := old(rkdev.device.world), rkdev.device.world, EdgeReadPlan(cur, hi - lo, subcode);
              && (if r.Ok? then ReadProgress(w0, w, cur, buf[lo..hi], plan) else ReadHalted(w0, w, plan))
              && (r.Err? && AddressError(r.error) ==> cur / SECTOR + 1 >= U32_LIMIT)
              && (r.Ok? ==> cur / SECTOR + 1 < U32_LIMIT)
              && (Clean(w0) && InTime(w0, w, w0.now + timeout) ==>
                    if cur / SECTOR + 1 < U32_LIMIT then r.Ok? else r.Err? && AddressError(r.error))
      ensures Paced(old(rkdev.device.world), rkdev.device.world, timeout)
    {
      hide Wf, Fetched, Patched, Budgeted, ReadPlan, Clean, Later, Paced;
      ghost var w0 := rkdev.device.world;
      NothingPaced(w0, timeout);
      NothingRead(w0, cur);
      BooksIdle(w0, 0);
      var startSector := cur / SECTOR;
      if startSector >= U32_LIMIT {
        FetchedPatched(w0, w0, cur, []);
        return Err(LbaOutOfRange);
      }
      var tmp := new byte[SECTOR](_ => 0);
      OneSector(startSector, subcode);
      var got := rkdev.ReadLba(startSector, tmp, 0, SECTOR, subcode, timeout);
      LaterBudgets(w0, rkdev.device.world);
      BudgetedPaced(w0, rkdev.device.world, timeout);
      if got.Err? { return Err(Device(got.error)); }
      assert tmp[0..SECTOR] == tmp[..];
      var at := cur % SECTOR;
      FetchedPart(w0, rkdev.device.world, startSector * SECTOR, tmp[..], at, hi - lo);
      Fill(buf, lo, tmp[at..at + (hi - lo)]);
      r := Ok(());
    }

    method ReadMiddle(cur: u64, buf: array<byte>, lo: nat, hi: nat) returns (r: Result<(), IoError>)
      requires Wf(rkdev.device.world) && lo < hi <= buf.Length && cur % SECTOR == 0 && (hi - lo) % SECTOR == 0
      modifies rkdev.device, buf
      ensures buf[..lo] == old(buf[..lo]) && buf[hi..] == old(buf[hi..])
      ensures var w0, w, plan := old(rkdev.device.world), rkdev.device.world, ReadPlan(cur / SECTOR, hi - lo, subcode);
              && (if r.Ok? then ReadProgress(w0, w, cur, buf[lo..hi], plan) else ReadHalted(w0, w, plan))
              && (r.Err? && AddressError(r.error) ==> (cur + (hi - lo)) / SECTOR >= U32_LIMIT)
              && (r.Ok? ==> (cur + (hi - lo)) / SECTOR < U32_LIMIT)
              && (Clean(w0) && InTime(w0, w, w0.now + timeout) ==>
                    if (cur + (hi - lo)) / SECTOR < U32_LIMIT then r.Ok? else r.Err? && AddressError(r.error))
      ensures Paced(old(rkdev.device.world), rkdev.device.world, timeout)
    {
      hide Wf, Fetched, Patched, Budgeted, ReadPlan, Clean, Later, Paced;
      ghost var w0 := rkdev.device.world;
      NothingPaced(w0, timeout);
      NothingRead(w0, cur);
      BooksIdle(w0, 0);
      var startSector := cur / SECTOR;
      if startSector >= U32_LIMIT {
        FetchedPatched(w0, w0, cur, []);
        return Err(LbaOutOfRange);
      }
      var got := rkdev.ReadLba(startSector, buf, lo, hi, subcode, timeout);
      LaterBudgets(w0, rkdev.device.world);
      BudgetedPaced(w0, rkdev.device.world, timeout);
      r := if got.Ok? then Ok(()) else Err(Device(got.error));
    }

    /** Fill `buf` from the cursor on: a partial first sector, whole sectors, a partial last sector. On failure
        the cursor stays. The disk does not change either way. */
    method Read(buf: array<byte>) returns (r: Result<nat, IoError>)
      requires Wf(rkdev.device.world)
      modifies this`pos, rkdev.device, buf
      ensures r.Ok? ==> r.value == buf.Length && pos == old(pos) + buf.Length
      ensures r.Err? ==> pos == old(pos)
      ensures buf.Length == 0 ==> rkdev.device.world == old(rkdev.device.world) && r.Ok?
      ensures var w0, w, plan := old(rkdev.device.world), rkdev.device.world, BlockReadPlan(old(pos), buf.Length, subcode);
              && (if r.Ok? then ReadProgress(w0, w, old(pos), buf[..], plan) else ReadHalted(w0, w, plan))
              && (r.Err? && AddressError(r.error) ==> !Addressable(old(pos), buf.Length))
              && (r.Ok? ==> Addressable(old(pos), buf.Length))
              && (Clean(w0) && InTime(w0, w, w0.now + timeout) ==>
                    if Addressable(old(pos), buf.Length) then r.Ok? else r.Err? && AddressError(r.error))
      ensures Paced(old(rkdev.device.world), rkdev.device.world, timeout)
    {
      hide Wf, Fetched, ReadPlan, Clean, ReadProgress, ReadHalted, EdgeReadPlan, HeadLength, MiddleLength, Paced;
      ghost var w0 := rkdev.device.world;
      NothingPaced(w0, timeout);
      NothingRead(w0, pos);
      var length := buf.Length;
      if length == 0 {
        EmptyReadPlan(pos, subcode);
        assert buf[..] == [];
        return Ok(0);
      }
      if pos + length >= U64_LIMIT {
        ghost var plan := BlockReadPlan(pos, length, subcode);
        HaltedAtOnce(w0, plan);
        return Err(PositionOverflow);
      }
      var start, endPos := pos, pos + length;
      var head := HeadLength(start, length);
      ghost var p1 := EdgeReadPlan(start, head, subcode);
      PieceAddresses(start, length);
      var piece;

      // 1) A first unaligned sector.
      if start % SECTOR != 0 {
        piece := ReadEdge(start, buf, 0, head);
        if piece.Err? {
          HaltRead(w0, w0, rkdev.device.world, start, [], [], p1, RestReadPlan(start, length, subcode));
          return Err(piece.error);
        }
        AdvanceRead(w0, w0, rkdev.device.world, start, [], buf[0..head], [], p1);
        assert [] + p1 == p1 && [] + buf[0..head] == buf[..head];
      } else {
        assert buf[..0] == [];
        NoEdge(start, subcode);
      }
      ghost var w1 := rkdev.device.world;
      piece := ReadRest(start, buf, w0);
      PacedJoins(w0, w1, rkdev.device.world, timeout);
      if piece.Err? { return Err(piece.error); }
      pos := endPos;
      return Ok(length);
    }

    /** The second and third step of a read. */
    method ReadRest(start: u64, buf: array<byte>, ghost w0: World) returns (r: Result<(), IoError>)
      requires 0 < buf.Length && start + buf.Length < U64_LIMIT && Wf(rkdev.device.world)
      requires var head := HeadLength(start, buf.Length);
               ReadProgress(w0, rkdev.device.world, start, buf[..head], EdgeReadPlan(start, head, subcode))
      modifies rkdev.device, buf
      ensures var w, plan := rkdev.device.world, BlockReadPlan(start, buf.Length, subcode);
              && Aged(old(rkdev.device.world), w)
              && (if r.Ok? then ReadProgress(w0, w, start, buf[..], plan) else ReadHalted(w0, w, plan))
              && (r.Err? && AddressError(r.error) ==> !Addressable(start, buf.Length))
              && (r.Ok? ==> Addressable(start, buf.Length) || HeadLength(start, buf.Length) == buf.Length)
              && (Clean(old(rkdev.device.world))
                  && InTime(old(rkdev.device.world), w, old(rkdev.device.world).now + timeout) ==>
                    if Addressable(start, buf.Length) || HeadLength(start, buf.Length) == buf.Length then r.Ok?
                    else r.Err? && AddressError(r.error))
      ensures Paced(old(rkdev.device.world), rkdev.device.world, timeout)
    {
      hide Wf, Fetched, ReadPlan, Clean, ReadProgress, ReadHalted, EdgeReadPlan, HeadLength, MiddleLength, Later,
           BlockReadPlan, Paced;
      NothingPaced(rkdev.device.world, timeout);
      var length := buf.Length;
      var head, middle := HeadLength(start, length), MiddleLength(start, length);
      var aligned := start + head;
      ghost var p1 := EdgeReadPlan(start, head, subcode);
      ghost var p2 := ReadPlan(aligned / SECTOR, middle, subcode);
      ghost var p3 := EdgeReadPlan(start + head + middle, length - head - middle, subcode);
      ReadPlanParts(start, length, subcode);
      PieceAddresses(start, length);
      ghost var w1 := rkdev.device.world;
      ghost var got1 := buf[..head];

      // 2) Whole sectors directly.
      if middle != 0 {
        r := ReadMiddle(aligned, buf, head, head + middle);
        if r.Err? {
          HaltRead(w0, w1, rkdev.device.world, start, got1, p1, p2, p3);
          return;
        }
        AdvanceRead(w0, w1, rkdev.device.world, start, got1, buf[head..head + middle], p1, p2);
        JoinSlices(got1, buf[..], head, head + middle);
      } else {
        NoPlan(aligned / SECTOR, subcode);
        assert p1 + p2 == p1;
      }
      ghost var w2 := rkdev.device.world;
      r := ReadLast(start, buf, w0);
      PacedJoins(w1, w2, rkdev.device.world, timeout);
    }

    method ReadLast(start: u64, buf: array<byte>, ghost w0: World) returns (r: Result<(), IoError>)
      requires 0 < buf.Length && start + buf.Length < U64_LIMIT && Wf(rkdev.device.world)
      requires var head, middle := HeadLength(start, buf.Length), MiddleLength(start, buf.Length);
               ReadProgress(w0, rkdev.device.world, start, buf[..head + middle],
                            EdgeReadPlan(start, head, subcode) + ReadPlan((start + head) / SECTOR, middle, subcode))
      modifies rkdev.device, buf
      ensures var w, plan := rkdev.device.world, BlockReadPlan(start, buf.Length, subcode);
              var whole := HeadLength(start, buf.Length) + MiddleLength(start, buf.Length) == buf.Length;
              && Aged(old(rkdev.device.world), w)
              && (if r.Ok? then ReadProgress(w0, w, start, buf[..], plan) else ReadHalted(w0, w, plan))
              && (r.Err? && AddressError(r.error) ==> !whole && !Addressable(start, buf.Length))
              && (r.Ok? ==> whole || Addressable(start, buf.Length))
              && (Clean(old(rkdev.device.world))
                  && InTime(old(rkdev.device.world), w, old(rkdev.device.world).now + timeout) ==>
                    if whole || Addressable(start, buf.Length) then r.Ok? else r.Err? && AddressError(r.error))
      ensures Paced(old(rkdev.device.world), rkdev.device.world, timeout)
    {
      hide Wf, Fetched, ReadPlan, Clean, ReadProgress, ReadHalted, EdgeReadPlan, HeadLength, MiddleLength, Later,
           BlockReadPlan, Paced;
      NothingPaced(rkdev.device.world, timeout);
      var length := buf.Length;
      ghost var head, middle := HeadLength(start, length), MiddleLength(start, length);
      var cut := HeadLength(start, length) + MiddleLength(start, length);
      var tail := start + cut;
      ghost var p := EdgeReadPlan(start, head, subcode) + ReadPlan((start + head) / SECTOR, middle, subcode);
      ghost var p3 := EdgeReadPlan(tail, length - cut, subcode);
      ReadPlanParts(start, length, subcode);
      PieceAddresses(start, length);
      ghost var w2 := rkdev.device.world;
      ghost var got := buf[..cut];

      // 3) A last partial sector.
      if cut != length {
        r := ReadEdge(tail, buf, cut, length);
        if r.Err? {
          HaltRead(w0, w2, rkdev.device.world, start, got, p, p3, []);
          assert p + p3 + [] == p + p3;
          return;
        }
        AdvanceRead(w0, w2, rkdev.device.world, start, got, buf[cut..length], p, p3);
        JoinSlices(got, buf[..], cut, length);
        assert buf[..][..length] == buf[..];
      } else {
        NoEdge(tail, subcode);
        assert p + p3 == p && got == buf[..];
        r := Ok(());
      }
    }

    /** Move the cursor. A position is accepted exactly when it lies inside the disk; the end itself does not. */
    method Seek(target: SeekFrom) returns (r: Result<u64, IoError>)
      modifies this`pos
      ensures if 0 <= SeekTarget(target, old(pos), diskSizeBytes) < diskSizeBytes
              then r == Ok(SeekTarget(target, old(pos), diskSizeBytes)) && pos == r.value
              else r == Err(OutOfRange) && pos == old(pos)
    {
      var newPos := match target
        case Start(x) => Some(x as int)
        case End(delta) => CheckedAdd(diskSizeBytes, delta)
        case Current(delta) => CheckedAdd(pos, delta);
      if newPos.None? || newPos.value >= diskSizeBytes { return Err(OutOfRange); }
      pos := newPos.value;
      return Ok(pos);
    }
  }

  function CheckedAdd(a: u64, delta: int): Option<int> {
    if 0 <= a + delta < U64_LIMIT then Some(a + delta) else None
  }

  /** Where a seek aims at, in unbounded arithmetic. */
  function SeekTarget(target: SeekFrom, pos: int, size: int): int {
    match target
    case Start(x) => x
    case End(delta) => size + delta
    case Current(delta) => pos + delta
  }

  /** Opens a block device over the whole disk, whose size in sectors is a 32-bit number. */
  method TryFrom(rkdev: RkDevice) returns (r: Result<RkBlockDevice, IoError>)
    requires Wf(rkdev.device.world)
    modifies rkdev.device
    ensures var w0, w := old(rkdev.device.world), rkdev.device.world;
            && Wf(w) && Later(w0, w) && Patched(w0, w, map[])
            && (r.Ok? ==> fresh(r.value) && r.value.rkdev == rkdev && r.value.pos == 0)
            && Granted(w0, w, 5000) && (r.Ok? ==> r.value.subcode == 0 && r.value.timeout == 30000)
            && (r.Ok? ==> r.value.diskSizeBytes % SECTOR == 0 && r.value.diskSizeBytes / SECTOR < U32_LIMIT)
            && (r.Ok? && w.mishaps == w0.mishaps ==>
                  && Clean(w)
                  && READ_FLASH_INFO in w.answers && |w.answers[READ_FLASH_INFO]| == FLASH_INFO_LENGTH
                  && r.value.diskSizeBytes == ParseFlashInfo(w.answers[READ_FLASH_INFO]).flashSize * SECTOR)
            && (Clean(w0) && InTime(w0, w, w0.now + USB_TIMEOUT) ==> r.Ok?)
  {
    hide Wf, Later, Patched, Clean, ParseFlashInfo, Granted;
    var info := rkdev.ReadStorageInfo(USB_TIMEOUT);
    if info.Err? { return Err(Device(info.error)); }
    var dev := new RkBlockDevice(rkdev, info.value.flashSize * SECTOR, 0, DEFAULT_IO_TIMEOUT);
    r := Ok(dev);
  }

  /** In milliseconds. */
  const USB_TIMEOUT: nat := 5000
  const DEFAULT_IO_TIMEOUT: nat := 30000

  /** Every access within a disk whose sector count is a 32-bit number is free of address errors. */
  lemma InsideDisk(pos: nat, length: nat, diskSizeBytes: nat)
    requires pos + length <= diskSizeBytes && diskSizeBytes % SECTOR == 0 && diskSizeBytes / SECTOR < U32_LIMIT
    ensures Addressable(pos, length)
  {
  }

  /** The errors that come from addresses, not from the device. */
  predicate AddressError(e: IoError) {
    e == PositionOverflow || e == LbaOutOfRange || e == Device(LbaOverflow)
  }

  lemma OneSector(lba: nat, subcode: byte)
    ensures ReadPlan(lba, SECTOR, subcode) == [Span(Reading, lba, 1, subcode)]
    ensures WritePlan(lba, SECTOR, subcode) == [Span(Writing, lba, 1, subcode)]
  {
    assert Batches(Reading, lba + 1, 0, MAX_LBA_TRANSFER_SECTORS, subcode) == [];
    assert Batches(Writing, lba + 1, 0, MAX_LBA_TRANSFER_SECTORS, subcode) == [];
  }

  lemma NothingPaced(w: World, timeout: nat)
    ensures Paced(w, w, timeout)
  {
  }

  lemma LaterBudgets(w0: World, w: World)
    requires Later(w0, w)
    ensures w0.budgets <= w.budgets
  {
  }

  lemma Unmoved(w: World, base: int, piece: seq<byte>)
    requires Wf(w)
    ensures forall plan: seq<Span> :: PieceStopped(w, w, base, piece, 0, 0, plan)
  {
  }

  lemma NotStarted(w0: World, w: World, base: int, data: seq<byte>)
    requires Aged(w0, w) && Patched(w0, w, map[])
    ensures Stopped(w0, w, base, data, 0, 0)
  {
  }
}
