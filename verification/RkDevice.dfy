/** The rkusb library device: one tagged command at a time over the bulk pipes. */
module RkDevices {
  import opened Bytes
  import opened Usb
  import opened Link
  import opened LinkSafety
  import opened LinkReply
  import opened LinkNominal
  import opened LinkHost
  import opened DeviceHandles
  import opened Effects
  import opened Transactions
  import opened Plans
  import opened Batch

  datatype RkUsbError =
    | Usb(error: UsbError)
    | LbaOverflow
    | TagMismatch
    | CommandFailed(status: byte)
    | InvalidCsw
    | InvalidFlashInfoLength(length: nat)

  class RkDevice {
    const device: DeviceHandle

    constructor (handle: DeviceHandle)
      ensures device == handle
    {
      device := handle;
    }

    method RemainingTimeout(deadline: nat) returns (r: Result<nat, RkUsbError>)
      requires Wf(device.world)
      modifies device
      ensures Wf(device.world) && SameLink(old(device.world), device.world)
      ensures Drift(old(device.world), device.world)
      ensures device.world == old(device.world).(now := device.world.now) && old(device.world).now <= device.world.now
      ensures r.Ok? ==> 0 < r.value == deadline - device.world.now
      ensures r.Err? <==> deadline <= device.world.now
      ensures r.Err? ==> r.error == Usb(Timeout)
    {
      var now := device.Now();
      if now < deadline {
        return Ok(deadline - now);
      }
      return Err(Usb(Timeout));
    }

    /** First stage: the command wrapper. */
    method SendWrapper(cbw: Cbw, dataOut: Option<seq<byte>>, deadline: nat, ghost w0: World, ghost c: Command)
      returns (r: Result<(), RkUsbError>)
      requires Encodes(cbw, dataOut, c) && Unsent(w0, device.world, c)
      modifies device
      ensures r.Err? ==> r.error.Usb?
      ensures Underway(w0, device.world, c)
      ensures r.Err? ==> !InTime(w0, device.world, deadline)
      ensures r.Ok? && dataOut.None? ==> Asked(w0, device.world, cbw.tag, c)
      ensures r.Ok? && dataOut.Some? ==> Announced(w0, device.world, ReadCbw(AsBytes(cbw)).value, c)
      ensures SameBooks(old(device.world), device.world) && device.world.mishaps == old(device.world).mishaps
      ensures Until(old(device.world), device.world, deadline) && old(device.world).now <= device.world.now
      ensures device.world.taken == old(device.world).taken
    {
      hide Wf, Torn, MayHold, Nominal, ReadCbw, CommandOf, Encodes, AsBytes, Drift;
      ghost var w1 := device.world;
      EncodesPacked(cbw, dataOut, c);
      var timeout := RemainingTimeout(deadline);
      UnsentDrift(w0, w1, device.world, c);
      if timeout.Err? { return Err(timeout.error); }
      ghost var w2 := device.world;
      var sent; ghost var mid, a;
      sent, mid, a := device.WriteBulk(AsBytes(cbw), timeout.value);
      UnsentDrift(w0, w2, mid, c);
      WrapperArrives(w0, mid, cbw, dataOut, c);
      ArrivedUnderway(w0, mid, cbw, dataOut, c, a, timeout.value);
      if sent.Err? { return Err(Usb(sent.error)); }
      if sent.value != CBW_LENGTH { return Err(Usb(Io)); }
      return Ok(());
    }

    /** Second stage: the bytes the device awaits. */
    method SendData(b: seq<byte>, deadline: nat, ghost w0: World, ghost q: Request, ghost c: Command)
      returns (r: Result<(), RkUsbError>)
      requires Announced(w0, device.world, q, c) && |b| == q.transferLength && CommandOf(q, b) == Some(c)
      requires |b| != CBW_LENGTH
      modifies device
      ensures r.Err? ==> r.error.Usb?
      ensures Underway(w0, device.world, c)
      ensures r.Err? ==> !InTime(w0, device.world, deadline)
      ensures r.Ok? ==> Asked(w0, device.world, q.tag, c)
      ensures SameBooks(old(device.world), device.world) && device.world.mishaps == old(device.world).mishaps
      ensures Until(old(device.world), device.world, deadline) && old(device.world).now <= device.world.now
      ensures device.world.taken == old(device.world).taken
    {
      hide Wf, Torn, MayHold, Nominal, CommandOf, Drift;
      ghost var w1 := device.world;
      var timeout := RemainingTimeout(deadline);
      AnnouncedDrift(w0, w1, device.world, q, c);
      if timeout.Err? { return Err(timeout.error); }
      ghost var w2 := device.world;
      var sent; ghost var mid, a;
      sent, mid, a := device.WriteBulk(b, timeout.value);
      AnnouncedDrift(w0, w2, mid, q, c);
      DataArrives(w0, mid, q, b, c);
      DataUnderway(w0, mid, q, b, c, a, timeout.value);
      if sent.Err? { return Err(Usb(sent.error)); }
      if sent.value != |b| { return Err(Usb(Io)); }
      return Ok(());
    }

    /** Third stage: the reply, into `buf[lo..hi]`. */
    method ReceiveData(buf: array<byte>, lo: nat, hi: nat, expected: nat, deadline: nat,
                       ghost w0: World, ghost tag: u32, ghost c: Command)
      returns (r: Result<nat, RkUsbError>)
      requires Asked(w0, device.world, tag, c)
      requires lo < hi <= buf.Length && 0 < expected == DataIn(c) <= hi - lo
      requires expected == hi - lo || expected < 64 <= hi - lo
      modifies device, buf
      ensures r.Err? ==> r.error.Usb?
      ensures Underway(w0, device.world, c) && device.world.accepted == w0.accepted + [Job(tag, c)]
      ensures SameBooks(old(device.world), device.world) && device.world.mishaps == old(device.world).mishaps
      ensures Until(old(device.world), device.world, deadline) && old(device.world).now <= device.world.now
      ensures buf[..lo] == old(buf[..lo]) && buf[hi..] == old(buf[hi..])
      ensures r.Ok? ==> Replied(w0, device.world, tag, c, deadline) && expected <= r.value <= hi - lo
      ensures r.Ok? ==>
        old(device.world).taken <= device.world.taken && ReadInto(old(device.world), device.world, buf[lo..hi], r.value)
      ensures Aged(w0, device.world)
      ensures Clean(w0) && InTime(w0, device.world, deadline) ==> r == Ok(expected)
    {
      hide Wf, Torn, MayHold, Nominal, Drift, Readable;
      ghost var w1 := device.world;
      var timeout := RemainingTimeout(deadline);
      AskedDrift(w0, w1, device.world, tag, c);
      if timeout.Err? { return Err(timeout.error); }
      ghost var w2 := device.world;
      AskedBooks(w0, w1, w2, tag, c);
      var got := device.ReadBulk(buf, lo, hi, timeout.value);
      ReplyHeard(w0, w2, device.world, tag, c, hi - lo, deadline);
      if got.Err? { return Err(Usb(got.error)); }
      if got.value < expected || got.value > hi - lo { return Err(Usb(Io)); }
      return Ok(got.value);
    }

    /** Last stage: the status wrapper, which must answer this very command. */
    method ReceiveStatus(tag: u32, deadline: nat, ghost w0: World, ghost c: Command) returns (r: Result<(), RkUsbError>)
      requires Replied(w0, device.world, tag, c, deadline)
      modifies device
      ensures r.Err? ==> r.error != LbaOverflow
      ensures Underway(w0, device.world, c) && device.world.accepted == w0.accepted + [Job(tag, c)]
      ensures SameBooks(old(device.world), device.world)
      ensures device.world.mps == old(device.world).mps && old(device.world).stream <= device.world.stream
      ensures Until(old(device.world), device.world, deadline) && old(device.world).now <= device.world.now
      ensures r.Ok? ==>
        && StatusRead(old(device.world), device.world, tag) && device.world.parser.Idle?
        && device.world.mishaps == old(device.world).mishaps
                                   + if ToldResidue(device.world, old(device.world).taken) == 0 then 0 else 1
      ensures r.Err? ==> device.world.mishaps == old(device.world).mishaps
      ensures r == Err(TagMismatch) ==> Rejected(device.world, old(device.world).taken, tag, None)
      ensures r.Err? && r.error.CommandFailed? ==>
        Rejected(device.world, old(device.world).taken, tag, Some(r.error.status))
      ensures Aged(old(device.world), device.world)
      ensures Clean(w0) && InTime(w0, device.world, deadline) ==> r.Ok?
    {
      hide Wf, Torn, MayHold, Nominal, Readable;
      var buf := new byte[CSW_LENGTH](_ => 0);
      ghost var w1 := device.world;
      var timeout := RemainingTimeout(deadline);
      RepliedBooks(w0, w1, device.world, tag, c, deadline);
      if timeout.Err? { return Err(timeout.error); }
      ghost var w2 := device.world;
      var got := device.ReadBulk(buf, 0, CSW_LENGTH, timeout.value);
      StatusHeard(w0, w2, device.world, tag, c, deadline);
      if got.Err? { return Err(Usb(got.error)); }
      if got.value != CSW_LENGTH { return Err(InvalidCsw); }
      assert buf[..] == buf[0..CSW_LENGTH][..CSW_LENGTH];
      var csw := ParseCsw(buf[..]);
      if csw.signature != CSW_SIGN { return Err(InvalidCsw); }
      if csw.tag != tag { return Err(TagMismatch); }
      if csw.status != 0 { return Err(CommandFailed(csw.status)); }
      ghost var w3 := device.world;
      if csw.dataResidue != 0 { device.Mishap(w2.taken); }
      UnderwayOn(w0, w3, device.world, c);
      return Ok(());
    }

    /** One command: wrapper, data, status, against a deadline. `c` is the command the wrapper and the data
        stand for; `dataIn[lo..hi]` is the caller's buffer when a reply is expected. The reply was read up to
        packet `mid`. */
    method CbwTransaction(cbw: Cbw, dataOut: Option<seq<byte>>, dataIn: array?<byte>, lo: nat, hi: nat,
                          timeout: nat, ghost c: Command)
      returns (r: Result<nat, RkUsbError>, ghost mid: nat)
      requires Wf(device.world)
      requires Encodes(cbw, dataOut, c) && (dataIn != null <==> DataIn(c) > 0)
      requires dataIn != null ==> lo < hi <= dataIn.Length && cbw.dataTransferLength == DataIn(c)
      requires dataIn != null ==> DataIn(c) == hi - lo || DataIn(c) < 64 <= hi - lo
      modifies device, dataIn
      ensures r.Err? ==> r.error != LbaOverflow
      ensures Concluded(old(device.world), device.world, cbw.tag, c, timeout, r.Ok?)
      ensures r == Err(TagMismatch) ==> Rejected(device.world, mid, cbw.tag, None)
      ensures r.Err? && r.error.CommandFailed? ==> Rejected(device.world, mid, cbw.tag, Some(r.error.status))
      ensures dataIn != null ==> dataIn[..lo] == old(dataIn[..lo]) && dataIn[hi..] == old(dataIn[hi..])
      ensures r.Ok? && dataIn != null ==>
        && DataIn(c) <= r.value <= hi - lo
        && Taken(device.world, old(device.world).taken, mid, cbw.tag, DataIn(c))
        && dataIn[lo..hi][..r.value] == Gather(Window(device.world, old(device.world).taken, mid))
        && device.world.mishaps == old(device.world).mishaps + if ToldResidue(device.world, mid) == 0 then 0 else 1
      ensures r.Ok? && dataIn != null && !Seen(old(device.world), cbw.tag) && r.value == DataIn(c)
              && device.world.mishaps == old(device.world).mishaps ==>
        dataIn[lo..hi][..r.value] == FullReply(c, device.world)
      ensures r.Ok? && dataIn != null && Clean(old(device.world))
              && InTime(old(device.world), device.world, old(device.world).now + timeout) ==>
        r.value == DataIn(c)
    {
      hide Wf, Torn, MayHold, Nominal, Drift, Patched, AsBytes, ReadCbw, StatusRead, ReadInto, CommandOf, InRange, Later,
           Seen, ToldResidue, Taken, Clean, Until, Limited, Rejected;
      ghost var w0 := device.world;
      mid := 0;
      var start := device.Now();
      var deadline := start + timeout;
      Begin(w0, device.world, c);
      ghost var wa := device.world;
      UntilNothing(w0, wa);
      var wrapped := SendWrapper(cbw, dataOut, deadline, w0, c);
      ghost var wb := device.world;
      UntilJoins(w0, wa, wb, deadline);
      UntilLimited(w0, wb, timeout, deadline);
      if wrapped.Err? { return Err(wrapped.error), mid; }
      if dataOut.Some? {
        EncodesData(cbw, dataOut.value, c);
        var stage := SendData(dataOut.value, deadline, w0, ReadCbw(AsBytes(cbw)).value, c);
        UntilJoins(w0, wb, device.world, deadline);
        UntilLimited(w0, device.world, timeout, deadline);
        if stage.Err? { return Err(stage.error), mid; }
      }
      ghost var w1 := device.world;
      var length := 0;
      if dataIn != null {
        var got := ReceiveData(dataIn, lo, hi, cbw.dataTransferLength, deadline, w0, cbw.tag, c);
        UntilJoins(w0, w1, device.world, deadline);
        UntilLimited(w0, device.world, timeout, deadline);
        if got.Err? { return Err(got.error), mid; }
        length := got.value;
      }
      ghost var w2 := device.world;
      mid := w2.taken;
      if dataIn == null { NoReply(w0, w2, cbw.tag, c, deadline); }
      var status := ReceiveStatus(cbw.tag, deadline, w0, c);
      UntilJoins(w0, w2, device.world, deadline);
      UntilLimited(w0, device.world, timeout, deadline);
      if status.Err? { return Err(status.error), mid; }
      if dataIn != null {
        StagesTaken(w1, w2, device.world, cbw.tag, dataIn[lo..hi], length, DataIn(c));
        Success(w0, w1, w2, device.world, cbw.tag, c, dataIn[lo..hi], length);
      } else {
        Success(w0, w1, w2, device.world, cbw.tag, c, [], 0);
      }
      return Ok(length), mid;
    }

    /** Before a command is sent: the books, and a tag for it. */
    method DrawTag(span: Span, budget: nat, ghost c: Command) returns (tag: u32)
      requires Wf(device.world) && span == SpanOf(c)
      modifies device
      ensures Wf(device.world) && Prepared(old(device.world), device.world, tag, c, budget)
      ensures Clean(old(device.world)) ==> Clean(device.world) && device.world.faults == old(device.world).faults
    {
      hide Wf;
      device.Record(span, budget);
      ghost var w1 := device.world;
      tag := device.RandomTag();
      SeenStill(w1, device.world, tag);
    }

    method WriteLbaRaw(pos: u32, data: seq<byte>, subcode: byte, timeout: nat) returns (r: Result<(), RkUsbError>)
      requires Wf(device.world)
      modifies device
      ensures r.Err? ==> r.error != LbaOverflow
      ensures data == [] ==> device.world == old(device.world) && r.Ok?
      ensures data != [] && (|data| % SECTOR != 0 || |data| / SECTOR > 0xFFFF) ==>
        device.world == old(device.world) && r == Err(Usb(InvalidParam))
      ensures data != [] && |data| % SECTOR == 0 && |data| / SECTOR <= 0xFFFF ==>
        Commanded(old(device.world), device.world, Write(pos, data, subcode), timeout, r.Ok?)
    {
      if data == [] { return Ok(()); }
      if |data| % SECTOR != 0 { return Err(Usb(InvalidParam)); }
      var sectorCount := |data| / SECTOR;
      if sectorCount > 0xFFFF { return Err(Usb(InvalidParam)); }
      hide Wf, Encodes, Commanded, Concluded, Seen, Prepared;
      ghost var w0, c := device.world, Write(pos, data, subcode);
      var tag := DrawTag(Span(Writing, pos, sectorCount, subcode), timeout, c);
      ghost var w1 := device.world;
      var cbw := WithOpcode(WRITE_LBA, tag);
      cbw := cbw.(dataTransferLength := |data|);
      cbw := cbw.(cb := cbw.cb.(address := ToBe32(pos), length := ToBe16(sectorCount), reserved := subcode));
      EncodesCommand(cbw, Some(data), c, pos, sectorCount);
      var done; ghost var mid;
      done, mid := CbwTransaction(cbw, Some(data), null, 0, 0, timeout, c);
      ConcludedCommand(w0, w1, device.world, tag, c, timeout, done.Ok?);
      if done.Err? { return Err(done.error); }
      return Ok(());
    }

    /** Reads whole sectors into `buf[lo..hi]`. */
    method ReadLbaRaw(pos: u32, buf: array<byte>, lo: nat, hi: nat, subcode: byte, timeout: nat)
      returns (r: Result<(), RkUsbError>)
      requires Wf(device.world) && lo <= hi <= buf.Length
      modifies device, buf
      ensures r.Err? ==> r.error != LbaOverflow
      ensures buf[..lo] == old(buf[..lo]) && buf[hi..] == old(buf[hi..])
      ensures lo == hi ==> device.world == old(device.world) && r.Ok?
      ensures lo < hi && ((hi - lo) % SECTOR != 0 || (hi - lo) / SECTOR > 0xFFFF) ==>
        device.world == old(device.world) && r == Err(Usb(InvalidParam))
      ensures lo < hi && (hi - lo) % SECTOR == 0 && (hi - lo) / SECTOR <= 0xFFFF ==>
        Brought(old(device.world), device.world, pos, (hi - lo) / SECTOR, subcode, timeout, r.Ok?, buf[lo..hi])
    {
      if lo == hi { return Ok(()); }
      if (hi - lo) % SECTOR != 0 { return Err(Usb(InvalidParam)); }
      var sectorCount := (hi - lo) / SECTOR;
      if sectorCount > 0xFFFF { return Err(Usb(InvalidParam)); }
      hide Brought;
      r := ReadSectors(pos, buf, lo, hi, sectorCount, subcode, timeout);
    }

    method ReadSectors(pos: u32, buf: array<byte>, lo: nat, hi: nat, sectorCount: u16, subcode: byte, timeout: nat)
      returns (r: Result<(), RkUsbError>)
      requires Wf(device.world) && lo < hi <= buf.Length && hi - lo == sectorCount * SECTOR
      modifies device, buf
      ensures r.Err? ==> r.error != LbaOverflow
      ensures buf[..lo] == old(buf[..lo]) && buf[hi..] == old(buf[hi..])
      ensures Brought(old(device.world), device.world, pos, sectorCount, subcode, timeout, r.Ok?, buf[lo..hi])
    {
      hide Wf, Encodes, Concluded, Seen, Commanded, Brought, InRange, Prepared;
      ghost var w0, c := device.world, Read(pos, sectorCount, subcode);
      var tag := DrawTag(Span(Reading, pos, sectorCount, subcode), timeout, c);
      ghost var w1 := device.world;
      var cbw := WithOpcode(READ_LBA, tag);
      cbw := cbw.(dataTransferLength := hi - lo);
      cbw := cbw.(cb := cbw.cb.(address := ToBe32(pos), length := ToBe16(sectorCount), reserved := subcode));
      EncodesCommand(cbw, None, c, pos, sectorCount);
      var done; ghost var mid;
      done, mid := CbwTransaction(cbw, None, buf, lo, hi, timeout, c);
      ConcludedCommand(w0, w1, device.world, tag, c, timeout, done.Ok?);
      SectorAnswer(w0, device.world, pos, sectorCount, subcode, timeout, done.Ok?, buf[lo..hi],
                   if done.Ok? then done.value else 0);
      if done.Err? { return Err(done.error); }
      return Ok(());
    }

    method EraseLbaRaw(pos: u32, sectorCount: u16, timeout: nat) returns (r: Result<(), RkUsbError>)
      requires Wf(device.world)
      modifies device
      ensures r.Err? ==> r.error != LbaOverflow
      ensures sectorCount == 0 ==> device.world == old(device.world) && r.Ok?
      ensures sectorCount > 0 ==>
        Commanded(old(device.world), device.world, Erase(pos, sectorCount), timeout, r.Ok?)
    {
      if sectorCount == 0 { return Ok(()); }
      hide Wf, Encodes, Commanded, Concluded, Seen, Prepared;
      ghost var w0, c := device.world, Erase(pos, sectorCount);
      var tag := DrawTag(Span(Erasing, pos, sectorCount, 0), timeout, c);
      ghost var w1 := device.world;
      var cbw := WithOpcode(ERASE_LBA, tag);
      cbw := cbw.(cb := cbw.cb.(address := ToBe32(pos), length := ToBe16(sectorCount)));
      EncodesCommand(cbw, None, c, pos, sectorCount);
      var done; ghost var mid;
      done, mid := CbwTransaction(cbw, None, null, 0, 0, timeout, c);
      ConcludedCommand(w0, w1, device.world, tag, c, timeout, done.Ok?);
      if done.Err? { return Err(done.error); }
      return Ok(());
    }

    /** One command of a batched write: the clock check and the command itself. */
    method WriteChunk(pos: u32, data: seq<byte>, off: nat, n: nat, nextPos: u32, subcode: byte,
                      deadline: nat, timeout: nat, ghost w0: World, ghost sent: seq<Span>)
      returns (r: Result<(), RkUsbError>, ghost issued: seq<Span>)
      requires Books(w0, device.world, sent, timeout, deadline)
      requires Written(w0, device.world, pos * SECTOR, data, off)
      requires 0 < n && off + n <= |data| && n % SECTOR == 0 && n <= MAX_LBA_TRANSFER_SECTORS * SECTOR
      requires nextPos * SECTOR == pos * SECTOR + off
      modifies device
      ensures Books(w0, device.world, sent + issued, timeout, deadline)
      ensures issued == [] || issued == [Span(Writing, nextPos, n / SECTOR, subcode)]
      ensures r.Ok? ==> issued != [] && Written(w0, device.world, pos * SECTOR, data, off + n)
      ensures r.Err? ==> Stopped(w0, device.world, pos * SECTOR, data, off, if issued == [] then 0 else n)
      ensures r.Err? ==> r.error != LbaOverflow
      ensures r.Ok? && device.world.mishaps == old(device.world).mishaps ==> Clean(device.world)
      ensures w0.faults <= old(device.world).faults <= device.world.faults
      ensures Aged(old(device.world), device.world)
      ensures Clean(old(device.world)) && InTime(old(device.world), device.world, deadline) ==> r.Ok?
    {
      hide Wf, Written, Stopped, Commanded, OnTime, Later;
      ghost var w1 := device.world;
      var left := RemainingTimeout(deadline);
      ghost var w2 := device.world;
      BooksTick(w0, w1, w2, sent, timeout, deadline);
      WrittenTick(w0, w1, w2, pos * SECTOR, data, off);
      issued := [];
      if left.Err? {
        WrittenStopped(w0, w2, pos * SECTOR, data, off);
        assert sent + [] == sent;
        return Err(left.error), [];
      }
      r := WriteLbaRaw(nextPos, data[off..off + n], subcode, left.value);
      ghost var c := Write(nextPos, data[off..off + n], subcode);
      BooksCommand(w0, w2, device.world, sent, timeout, deadline, c, r.Ok?);
      issued := [SpanOf(c)];
      WriteCarries(nextPos, subcode, w2.erased, pos * SECTOR, data, off, n);
      if r.Ok? {
        ChunkWritten(w0, w2, device.world, pos * SECTOR, data, off, n, c, left.value);
      } else {
        ChunkFailed(w0, w2, device.world, pos * SECTOR, data, off, n, c, left.value);
      }
    }

    /** One command and the address of the next; `length` bytes were left of the write before it. */
    method WriteStep(pos: u32, data: seq<byte>, off: nat, n: nat, nextPos: u32, subcode: byte,
                     deadline: nat, timeout: nat, ghost w0: World, ghost before: seq<Span>, ghost length: nat)
      returns (r: Result<u32, RkUsbError>, ghost sent: seq<Span>, ghost done: nat, ghost chunk: nat)
      requires Books(w0, device.world, before, timeout, deadline)
      requires Written(w0, device.world, pos * SECTOR, data, off)
      requires 0 < n <= length && off + n <= |data|
      requires n == Min(length / SECTOR, MAX_LBA_TRANSFER_SECTORS) * SECTOR
      requires nextPos * SECTOR == pos * SECTOR + off
      modifies device
      ensures Books(w0, device.world, sent, timeout, deadline)
      ensures w0.issued + sent <= w0.issued + (before + WritePlan(nextPos, length, subcode))
      ensures r.Ok? ==> r.value == nextPos + n / SECTOR && Written(w0, device.world, pos * SECTOR, data, off + n)
      ensures r.Ok? ==> before + WritePlan(nextPos, length, subcode) == sent + WritePlan(r.value, length - n, subcode)
      ensures r.Err? ==> Stopped(w0, device.world, pos * SECTOR, data, done, chunk)
      ensures r.Err? ==> Tied(w0, device.world, pos * SECTOR, done, chunk)
      ensures r.Err? ==> chunk <= n && done == if r.error == LbaOverflow then off + n else off
      ensures r == Err(LbaOverflow) ==> nextPos + n / SECTOR >= 0x1_0000_0000 && chunk == 0
      ensures (r.Ok? || r == Err(LbaOverflow)) && device.world.mishaps == old(device.world).mishaps ==> Clean(device.world)
      ensures w0.faults <= old(device.world).faults <= device.world.faults
      ensures Aged(old(device.world), device.world)
      ensures Clean(old(device.world)) && InTime(old(device.world), device.world, deadline) ==>
        if nextPos + n / SECTOR < 0x1_0000_0000 then r.Ok? else r == Err(LbaOverflow)
    {
      hide Wf, Later, Written, Stopped, Clean, Books, WritePlan;
      WritePlanStep(nextPos, length, n, subcode);
      var written; ghost var issued;
      written, issued := WriteChunk(pos, data, off, n, nextPos, subcode, deadline, timeout, w0, before);
      sent := before + issued;
      ghost var later := WritePlan(nextPos + n / SECTOR, length - n, subcode);
      IssuedPrefix(w0.issued, sent, if issued == [] then WritePlan(nextPos, length, subcode) else later);
      done, chunk := off, if issued == [] then 0 else n;
      BooksFacts(w0, device.world, sent, timeout, deadline);
      if chunk > 0 { TiedLast(w0, device.world, before, issued[0], pos * SECTOR, done, chunk); }
      if written.Err? { return Err(written.error), sent, done, chunk; }
      WrittenStopped(w0, device.world, pos * SECTOR, data, off + n);
      done, chunk := off + n, 0;
      r := AdvanceLbaByBytes(nextPos, n);
    }

    /** The whole sectors of a write, in commands of at most 128. */
    method WriteAligned(pos: u32, data: seq<byte>, subcode: byte, deadline: nat, timeout: nat, ghost w0: World)
      returns (r: Result<u32, RkUsbError>, ghost sent: seq<Span>, ghost done: nat, ghost chunk: nat)
      requires Books(w0, device.world, [], timeout, deadline)
      requires Written(w0, device.world, pos * SECTOR, data, 0)
      requires Clean(w0) && device.world.faults == w0.faults ==> Clean(device.world)
      modifies device
      ensures Books(w0, device.world, sent, timeout, deadline)
      ensures w0.issued + sent <= w0.issued + WritePlan(pos, |data|, subcode)
      ensures r.Ok? ==> r.value == pos + |data| / SECTOR
      ensures r.Ok? ==> Written(w0, device.world, pos * SECTOR, data, |data| - |data| % SECTOR)
      ensures r.Ok? ==> WritePlan(pos, |data|, subcode) == sent + WritePlan(r.value, |data| % SECTOR, subcode)
      ensures r.Err? ==> Stopped(w0, device.world, pos * SECTOR, data, done, chunk)
      ensures r.Err? ==> Tied(w0, device.world, pos * SECTOR, done, chunk)
      ensures r.Err? ==> done % SECTOR == 0 && chunk <= MAX_LBA_TRANSFER_SECTORS * SECTOR
      ensures r == Err(LbaOverflow) ==> pos + |data| / SECTOR >= 0x1_0000_0000
      ensures r == Err(LbaOverflow) ==> pos * SECTOR + done >= 0x1_0000_0000 * SECTOR && chunk == 0
      ensures r == Err(LbaOverflow) && device.world.mishaps == w0.mishaps ==> Clean(device.world)
      ensures Clean(w0) && InTime(w0, device.world, deadline) ==>
        && Clean(device.world)
        && if pos + |data| / SECTOR < 0x1_0000_0000 then r.Ok? else r == Err(LbaOverflow)
    {
      hide Wf, Later, Written, Stopped, Clean, Books, WritePlan, Min, Tied, Budgeted;
      BooksFacts(w0, device.world, [], timeout, deadline);
      var alignedLength := |data| - |data| % SECTOR;
      var nextPos: u32 := pos;
      var off := 0;
      sent, done, chunk := [], 0, 0;
      while off < alignedLength
        invariant off <= alignedLength && off % SECTOR == 0 && nextPos * SECTOR == pos * SECTOR + off
        invariant Books(w0, device.world, sent, timeout, deadline) && Aged(w0, device.world)
        invariant Written(w0, device.world, pos * SECTOR, data, off)
        invariant WritePlan(pos, |data|, subcode) == sent + WritePlan(nextPos, |data| - off, subcode)
        invariant Clean(w0) && device.world.faults == w0.faults ==> Clean(device.world)
      {
        var n := if alignedLength - off < MAX_LBA_TRANSFER_SECTORS * SECTOR then alignedLength - off
                 else MAX_LBA_TRANSFER_SECTORS * SECTOR;
        StepSize(alignedLength, |data| - alignedLength, off, n);
        r, sent, done, chunk := WriteStep(pos, data, off, n, nextPos, subcode, deadline, timeout, w0, sent, |data| - off);
        off := off + n;
        if r.Err? { return; }
        nextPos := r.value;
      }
      IssuedPrefix(w0.issued, sent, WritePlan(nextPos, |data| - off, subcode));
      r := Ok(nextPos);
    }

    /** The partial last sector of a write: read, changed at its beginning, written back. */
    method WriteTail(pos: u32, data: seq<byte>, off: nat, nextPos: u32, subcode: byte,
                     deadline: nat, timeout: nat, ghost w0: World, ghost sent: seq<Span>)
      returns (r: Result<(), RkUsbError>, ghost issued: seq<Span>, ghost chunk: nat)
      requires Books(w0, device.world, sent, timeout, deadline)
      requires Written(w0, device.world, pos * SECTOR, data, off)
      requires off < |data| < off + SECTOR && nextPos * SECTOR == pos * SECTOR + off
      modifies device
      ensures Books(w0, device.world, sent + issued, timeout, deadline)
      ensures issued <= WritePlan(nextPos, |data| - off, subcode)
      ensures r.Ok? ==> issued == WritePlan(nextPos, |data| - off, subcode)
      ensures r.Ok? ==> Written(w0, device.world, pos * SECTOR, data, |data|)
      ensures r.Err? ==> r.error != LbaOverflow && Stopped(w0, device.world, pos * SECTOR, data, off, chunk)
      ensures r.Err? ==> chunk <= |data| - off && Tied(w0, device.world, pos * SECTOR, off, chunk)
      ensures w0.faults <= old(device.world).faults <= device.world.faults
      ensures Aged(old(device.world), device.world)
      ensures Clean(old(device.world)) && InTime(old(device.world), device.world, deadline) ==> r.Ok?
    {
      hide Wf, Written, Stopped, Commanded, OnTime, Later, Torn, Patched, InRange, Tied, Budgeted;
      chunk := 0;
      NotTied(w0, pos * SECTOR, off);
      var base, tail := pos * SECTOR, data[off..];
      ghost var w1 := device.world;
      issued := [];
      assert sent + [] == sent;
      var left := RemainingTimeout(deadline);
      ghost var w2 := device.world;
      BooksTick(w0, w1, w2, sent, timeout, deadline);
      WrittenTick(w0, w1, w2, base, data, off);
      BooksFacts(w0, w2, sent, timeout, deadline);
      WrittenStopped(w0, w2, base, data, off);
      if left.Err? { return Err(left.error), [], 0; }
      var sector := new byte[SECTOR](_ => 0);
      var got := ReadLbaRaw(nextPos, sector, 0, SECTOR, subcode, left.value);
      ghost var w3 := device.world;
      ghost var c := Read(nextPos, 1, subcode);
      BooksCommand(w0, w2, w3, sent, timeout, deadline, c, got.Ok?);
      ReadBetween(w0, w2, w3, base, data, off, nextPos, 1, subcode, left.value, got.Ok?);
      issued := [SpanOf(c)];
      if got.Err? { return Err(got.error), issued, 0; }
      BooksFacts(w0, w3, sent + issued, timeout, deadline);
      ghost var was := sector[..];
      assert sector[0..SECTOR] == was;
      Fill(sector, 0, tail);
      assert sector[..] == tail + was[|tail|..];
      ghost var more;
      r, more, chunk := WriteBack(pos, data, off, nextPos, sector[..], subcode, deadline, timeout, w0, sent + issued, was);
      assert sent + issued + more == sent + (issued + more);
      issued := issued + more;
    }

    method WriteBack(pos: u32, data: seq<byte>, off: nat, nextPos: u32, sector: seq<byte>, subcode: byte,
                     deadline: nat, timeout: nat, ghost w0: World, ghost sent: seq<Span>, ghost was: seq<byte>)
      returns (r: Result<(), RkUsbError>, ghost issued: seq<Span>, ghost chunk: nat)
      requires Books(w0, device.world, sent, timeout, deadline)
      requires Written(w0, device.world, pos * SECTOR, data, off)
      requires off < |data| < off + SECTOR && nextPos * SECTOR == pos * SECTOR + off
      requires |was| == SECTOR && sector == data[off..] + was[|data| - off..]
      requires device.world.mishaps == w0.mishaps ==>
        && InRange(Read(nextPos, 1, subcode), device.world)
        && was == device.world.disk[nextPos * SECTOR..(nextPos + 1) * SECTOR]
      modifies device
      ensures Books(w0, device.world, sent + issued, timeout, deadline)
      ensures issued == [] || issued == [Span(Writing, nextPos, 1, subcode)]
      ensures r.Ok? ==> issued != [] && Written(w0, device.world, pos * SECTOR, data, |data|)
      ensures r.Err? ==> r.error != LbaOverflow && Stopped(w0, device.world, pos * SECTOR, data, off, chunk)
      ensures r.Err? ==> chunk <= |data| - off && Tied(w0, device.world, pos * SECTOR, off, chunk)
      ensures w0.faults <= old(device.world).faults <= device.world.faults
      ensures Aged(old(device.world), device.world)
      ensures Clean(old(device.world)) && InTime(old(device.world), device.world, deadline) ==> r.Ok?
    {
      hide Wf, Written, Stopped, Commanded, OnTime, Later, Torn, Patched, InRange, Tied;
      chunk := 0;
      NotTied(w0, pos * SECTOR, off);
      var base := pos * SECTOR;
      ghost var w1 := device.world;
      issued := [];
      assert sent + [] == sent;
      var left := RemainingTimeout(deadline);
      ghost var w2 := device.world;
      BooksTick(w0, w1, w2, sent, timeout, deadline);
      WrittenTick(w0, w1, w2, base, data, off);
      WrittenStopped(w0, w2, base, data, off);
      if left.Err? { return Err(left.error), [], 0; }
      r := WriteLbaRaw(nextPos, sector, subcode, left.value);
      ghost var c := Write(nextPos, sector, subcode);
      BooksCommand(w0, w2, device.world, sent, timeout, deadline, c, r.Ok?);
      TailDone(w0, w1, w2, device.world, base, data, off, nextPos, was, subcode, left.value, r.Ok?);
      issued, chunk := [SpanOf(c)], |data| - off;
      BooksFacts(w0, device.world, sent + issued, timeout, deadline);
      TiedLast(w0, device.world, sent, SpanOf(c), base, off, chunk);
    }

    /** Write bytes from sector `pos` on, in commands of at most 128 sectors; a partial last sector is read,
        changed and written back. When the call fails, `done` bytes are in place and the following `chunk`
        bytes are those of the command that failed. */
    method WriteLba(pos: u32, data: seq<byte>, subcode: byte, timeout: nat)
      returns (r: Result<(), RkUsbError>, ghost done: nat, ghost chunk: nat)
      requires Wf(device.world)
      modifies device
      ensures Wf(device.world) && Later(old(device.world), device.world)
      ensures data == [] ==> device.world == old(device.world) && r.Ok?
      ensures device.world.issued <= old(device.world).issued + WritePlan(pos, |data|, subcode)
      ensures r.Ok? ==> device.world.issued == old(device.world).issued + WritePlan(pos, |data|, subcode)
      ensures Budgeted(old(device.world), device.world, timeout)
      ensures r.Ok? && data != [] ==> Written(old(device.world), device.world, pos * SECTOR, data, |data|)
      ensures r.Err? ==> Stopped(old(device.world), device.world, pos * SECTOR, data, done, chunk)
      ensures r.Err? ==> Tied(old(device.world), device.world, pos * SECTOR, done, chunk)
      ensures r.Err? ==> done % SECTOR == 0 && chunk <= MAX_LBA_TRANSFER_SECTORS * SECTOR
      ensures r == Err(LbaOverflow) ==> pos + |data| / SECTOR >= 0x1_0000_0000
      ensures r == Err(LbaOverflow) ==> pos * SECTOR + done >= 0x1_0000_0000 * SECTOR && chunk == 0
      ensures r == Err(LbaOverflow) && device.world.mishaps == old(device.world).mishaps ==> Clean(device.world)
      ensures r.Ok? && data != [] ==> pos + |data| / SECTOR < 0x1_0000_0000
      ensures Clean(old(device.world)) && InTime(old(device.world), device.world, old(device.world).now + timeout) ==>
        if data == [] || pos + |data| / SECTOR < 0x1_0000_0000 then r.Ok? else r == Err(LbaOverflow)
    {
      hide Wf, Later, Written, Stopped, Budgeted, WritePlan, MayHold, Clean, Tied;
      done, chunk := 0, 0;
      if data == [] {
        NoPlan(pos, subcode);
        BooksIdle(device.world, timeout);
        return Ok(()), 0, 0;
      }
      ghost var w0 := device.world;
      var start := device.Now();
      var deadline := start + timeout;
      BooksStart(w0, device.world, timeout);
      WrittenStart(w0, device.world, pos * SECTOR, data);
      var aligned; ghost var sent;
      aligned, sent, done, chunk := WriteAligned(pos, data, subcode, deadline, timeout, w0);
      BooksFacts(w0, device.world, sent, timeout, deadline);
      if aligned.Err? { return Err(aligned.error), done, chunk; }
      var off := |data| - |data| % SECTOR;
      assert data[..|data|] == data;
      if off == |data| {
        NoPlan(aligned.value, subcode);
        return Ok(()), 0, 0;
      }
      done := off;
      ghost var issued;
      r, issued, chunk := WriteTail(pos, data, off, aligned.value, subcode, deadline, timeout, w0, sent);
      ghost var plan := WritePlan(aligned.value, |data| % SECTOR, subcode);
      PlanPrefix(w0.issued, sent, issued, plan);
      BooksFacts(w0, device.world, sent + issued, timeout, deadline);
    }

    /** One command of a batched read: the clock check and the command itself. */
    method ReadChunk(pos: u32, buf: array<byte>, lo: nat, off: nat, n: nat, nextPos: u32, subcode: byte,
                     deadline: nat, timeout: nat, ghost w0: World, ghost sent: seq<Span>)
      returns (r: Result<(), RkUsbError>, ghost issued: seq<Span>)
      requires Books(w0, device.world, sent, timeout, deadline)
      requires 0 < n && lo + off + n <= buf.Length && n % SECTOR == 0 && n <= MAX_LBA_TRANSFER_SECTORS * SECTOR
      requires Fetched(w0, device.world, pos * SECTOR, buf[lo..lo + off])
      requires nextPos * SECTOR == pos * SECTOR + off
      modifies device, buf
      ensures Books(w0, device.world, sent + issued, timeout, deadline)
      ensures issued == [] || issued == [Span(Reading, nextPos, n / SECTOR, subcode)]
      ensures buf[..lo] == old(buf[..lo]) && buf[lo + off + n..] == old(buf[lo + off + n..])
      ensures r.Ok? ==> issued != [] && Fetched(w0, device.world, pos * SECTOR, buf[lo..lo + off + n])
      ensures r.Err? ==> r.error != LbaOverflow && Patched(w0, device.world, map[])
      ensures r.Ok? && device.world.mishaps == old(device.world).mishaps ==> Clean(device.world)
      ensures w0.faults <= old(device.world).faults <= device.world.faults
      ensures Aged(old(device.world), device.world)
      ensures Clean(old(device.world)) && InTime(old(device.world), device.world, deadline) ==> r.Ok?
    {
      hide Wf, Fetched, Patched, Torn, Commanded, OnTime, Later;
      ghost var w1, before, got := device.world, buf[..], buf[lo..lo + off];
      var left := RemainingTimeout(deadline);
      ghost var w2 := device.world;
      BooksTick(w0, w1, w2, sent, timeout, deadline);
      FetchedTick(w0, w1, w2, pos * SECTOR, got);
      issued := [];
      assert sent + [] == sent;
      if left.Err? {
        FetchedPatched(w0, w2, pos * SECTOR, got);
        return Err(left.error), [];
      }
      r := ReadLbaRaw(nextPos, buf, lo + off, lo + off + n, subcode, left.value);
      ghost var c := Read(nextPos, n / SECTOR, subcode);
      BooksCommand(w0, w2, device.world, sent, timeout, deadline, c, r.Ok?);
      ChunkInBuffer(w0, w2, device.world, pos * SECTOR, before, buf[..], lo, off, n, nextPos, subcode, left.value, r.Ok?);
      issued := [SpanOf(c)];
    }

    /** One command and the address of the next; `length` bytes were left of the read before it. */
    method ReadStep(pos: u32, buf: array<byte>, lo: nat, off: nat, n: nat, nextPos: u32, subcode: byte,
                    deadline: nat, timeout: nat, ghost w0: World, ghost before: seq<Span>, ghost length: nat)
      returns (r: Result<u32, RkUsbError>, ghost sent: seq<Span>)
      requires Books(w0, device.world, before, timeout, deadline)
      requires 0 < n && lo + off + n <= buf.Length && n <= length
      requires n == Min(length / SECTOR, MAX_LBA_TRANSFER_SECTORS) * SECTOR
      requires Fetched(w0, device.world, pos * SECTOR, buf[lo..lo + off])
      requires nextPos * SECTOR == pos * SECTOR + off
      modifies device, buf
      ensures Books(w0, device.world, sent, timeout, deadline)
      ensures w0.issued + sent <= w0.issued + (before + ReadPlan(nextPos, length, subcode))
      ensures buf[..lo] == old(buf[..lo]) && buf[lo + off + n..] == old(buf[lo + off + n..])
      ensures r.Ok? ==> r.value == nextPos + n / SECTOR && Fetched(w0, device.world, pos * SECTOR, buf[lo..lo + off + n])
      ensures r.Ok? ==> before + ReadPlan(nextPos, length, subcode) == sent + ReadPlan(r.value, length - n, subcode)
      ensures r.Err? ==> Patched(w0, device.world, map[])
      ensures r == Err(LbaOverflow) ==> nextPos + n / SECTOR >= 0x1_0000_0000
      ensures (r.Ok? || r == Err(LbaOverflow)) && device.world.mishaps == old(device.world).mishaps ==> Clean(device.world)
      ensures w0.faults <= old(device.world).faults <= device.world.faults
      ensures Aged(old(device.world), device.world)
      ensures Clean(old(device.world)) && InTime(old(device.world), device.world, deadline) ==>
        if nextPos + n / SECTOR < 0x1_0000_0000 then r.Ok? else r == Err(LbaOverflow)
    {
      hide Wf, Later, Fetched, Patched, Clean, Books, ReadPlan;
      WritePlanStep(nextPos, length, n, subcode);
      var read; ghost var issued;
      read, issued := ReadChunk(pos, buf, lo, off, n, nextPos, subcode, deadline, timeout, w0, before);
      sent := before + issued;
      ghost var later := ReadPlan(nextPos + n / SECTOR, length - n, subcode);
      IssuedPrefix(w0.issued, sent, if issued == [] then ReadPlan(nextPos, length, subcode) else later);
      if read.Err? { return Err(read.error), sent; }
      r := AdvanceLbaByBytes(nextPos, n);
      if r.Err? { FetchedPatched(w0, device.world, pos * SECTOR, buf[lo..lo + off + n]); }
    }

    /** The whole sectors of a read, in commands of at most 128. */
    method ReadAligned(pos: u32, buf: array<byte>, lo: nat, alignedLength: nat, ghost rest: nat, subcode: byte,
                       deadline: nat, timeout: nat, ghost w0: World)
      returns (r: Result<u32, RkUsbError>, ghost sent: seq<Span>)
      requires lo + alignedLength + rest <= buf.Length && alignedLength % SECTOR == 0 && rest < SECTOR
      requires Books(w0, device.world, [], timeout, deadline)
      requires Fetched(w0, device.world, pos * SECTOR, [])
      requires Clean(w0) && device.world.faults == w0.faults ==> Clean(device.world)
      modifies device, buf
      ensures Books(w0, device.world, sent, timeout, deadline)
      ensures w0.issued + sent <= w0.issued + ReadPlan(pos, alignedLength + rest, subcode)
      ensures buf[..lo] == old(buf[..lo]) && buf[lo + alignedLength..] == old(buf[lo + alignedLength..])
      ensures r.Ok? ==> r.value == pos + alignedLength / SECTOR
      ensures r.Ok? ==> Fetched(w0, device.world, pos * SECTOR, buf[lo..lo + alignedLength])
      ensures r.Ok? ==> ReadPlan(pos, alignedLength + rest, subcode) == sent + ReadPlan(r.value, rest, subcode)
      ensures r.Err? ==> Patched(w0, device.world, map[])
      ensures r == Err(LbaOverflow) ==> pos + alignedLength / SECTOR >= 0x1_0000_0000
      ensures Clean(w0) && InTime(w0, device.world, deadline) ==>
        && Clean(device.world)
        && if pos + alignedLength / SECTOR < 0x1_0000_0000 then r.Ok? else r == Err(LbaOverflow)
    {
      hide Wf, Later, Fetched, Patched, Clean, Books, ReadPlan, Min, Budgeted;
      BooksFacts(w0, device.world, [], timeout, deadline);
      ghost var length, hi := alignedLength + rest, lo + alignedLength;
      var nextPos: u32 := pos;
      var off := 0;
      sent := [];
      assert buf[lo..lo] == [];
      while off < alignedLength
        invariant off <= alignedLength && off % SECTOR == 0 && nextPos * SECTOR == pos * SECTOR + off
        invariant Books(w0, device.world, sent, timeout, deadline) && Aged(w0, device.world)
        invariant Fetched(w0, device.world, pos * SECTOR, buf[lo..lo + off])
        invariant buf[..lo] == old(buf[..lo]) && buf[hi..] == old(buf[hi..])
        invariant ReadPlan(pos, length, subcode) == sent + ReadPlan(nextPos, length - off, subcode)
        invariant Clean(w0) && device.world.faults == w0.faults ==> Clean(device.world)
      {
        var n := if alignedLength - off < MAX_LBA_TRANSFER_SECTORS * SECTOR then alignedLength - off
                 else MAX_LBA_TRANSFER_SECTORS * SECTOR;
        StepSize(alignedLength, rest, off, n);
        ghost var before := buf[..];
        r, sent := ReadStep(pos, buf, lo, off, n, nextPos, subcode, deadline, timeout, w0, sent, length - off);
        SuffixKept(before, buf[..], lo + off + n, hi);
        off := off + n;
        if r.Err? { return; }
        nextPos := r.value;
      }
      IssuedPrefix(w0.issued, sent, ReadPlan(nextPos, length - off, subcode));
      r := Ok(nextPos);
    }

    /** Read bytes from sector `pos` on into `buf[lo..hi]`, in commands of at most 128 sectors; a partial last
        sector is taken from one extra sector read. */
    method ReadLba(pos: u32, buf: array<byte>, lo: nat, hi: nat, subcode: byte, timeout: nat)
      returns (r: Result<(), RkUsbError>)
      requires Wf(device.world) && lo <= hi <= buf.Length
      modifies device, buf
      ensures Wf(device.world) && Later(old(device.world), device.world)
      ensures buf[..lo] == old(buf[..lo]) && buf[hi..] == old(buf[hi..])
      ensures lo == hi ==> device.world == old(device.world) && r.Ok?
      ensures device.world.issued <= old(device.world).issued + ReadPlan(pos, hi - lo, subcode)
      ensures r.Ok? ==> device.world.issued == old(device.world).issued + ReadPlan(pos, hi - lo, subcode)
      ensures Budgeted(old(device.world), device.world, timeout)
      ensures r.Ok? && lo < hi ==> Fetched(old(device.world), device.world, pos * SECTOR, buf[lo..hi])
      ensures r.Err? ==> Patched(old(device.world), device.world, map[])
      ensures r == Err(LbaOverflow) ==> pos + (hi - lo) / SECTOR >= 0x1_0000_0000
      ensures r.Ok? && lo < hi ==> pos + (hi - lo) / SECTOR < 0x1_0000_0000
      ensures Clean(old(device.world)) && InTime(old(device.world), device.world, old(device.world).now + timeout) ==>
        if lo == hi || pos + (hi - lo) / SECTOR < 0x1_0000_0000 then r.Ok? else r == Err(LbaOverflow)
    {
      hide Wf, Later, Fetched, Patched, Budgeted, ReadPlan, MayHold, Clean;
      if lo == hi {
        NoPlan(pos, subcode);
        BooksIdle(device.world, timeout);
        return Ok(());
      }
      ghost var w0 := device.world;
      var start := device.Now();
      var deadline := start + timeout;
      BooksStart(w0, device.world, timeout);
      FetchedStart(w0, device.world, pos * SECTOR);
      var aligned; ghost var sent;
      var rest := (hi - lo) % SECTOR;
      ghost var before := buf[..];
      aligned, sent := ReadAligned(pos, buf, lo, hi - lo - rest, rest, subcode, deadline, timeout, w0);
      BooksFacts(w0, device.world, sent, timeout, deadline);
      SuffixKept(before, buf[..], hi - rest, hi);
      if aligned.Err? { return Err(aligned.error); }
      if rest == 0 {
        NoPlan(aligned.value, subcode);
        return Ok(());
      }
      r := ReadTail(pos, buf, lo, hi, aligned.value, rest, subcode, deadline, timeout, w0, sent);
    }

    /** The extra sector of a read that ends inside one. */
    method FetchTail(nextPos: u32, subcode: byte, deadline: nat, ghost timeout: nat, ghost w0: World, ghost sent: seq<Span>,
                     ghost base: nat, ghost got: seq<byte>)
      returns (r: Result<(), RkUsbError>, sector: array<byte>, ghost issued: seq<Span>)
      requires Books(w0, device.world, sent, timeout, deadline)
      requires Fetched(w0, device.world, base, got) && base + |got| == nextPos * SECTOR
      modifies device
      ensures fresh(sector) && sector.Length == SECTOR
      ensures Books(w0, device.world, sent + issued, timeout, deadline)
      ensures issued == [] || issued == [Span(Reading, nextPos, 1, subcode)]
      ensures r.Ok? ==> issued != [] && Fetched(w0, device.world, base, got + sector[..])
      ensures r.Err? ==> r.error != LbaOverflow && Patched(w0, device.world, map[])
      ensures w0.faults <= old(device.world).faults <= device.world.faults
      ensures Aged(old(device.world), device.world)
      ensures Clean(old(device.world)) && InTime(old(device.world), device.world, deadline) ==> r.Ok?
    {
      hide Wf, Fetched, Patched, Torn, Commanded, OnTime, Later;
      ghost var w1 := device.world;
      sector := new byte[SECTOR](_ => 0);
      issued := [];
      var left := RemainingTimeout(deadline);
      ghost var w2 := device.world;
      BooksTick(w0, w1, w2, sent, timeout, deadline);
      FetchedTick(w0, w1, w2, base, got);
      assert sent + [] == sent;
      if left.Err? {
        FetchedPatched(w0, w2, base, got);
        return Err(left.error), sector, [];
      }
      r := ReadLbaRaw(nextPos, sector, 0, SECTOR, subcode, left.value);
      assert sector[0..SECTOR] == sector[..];
      BooksCommand(w0, w2, device.world, sent, timeout, deadline, Read(nextPos, 1, subcode), r.Ok?);
      ChunkFetched(w0, w2, device.world, base, got, nextPos, 1, subcode, left.value, r.Ok?, sector[..]);
      issued := [SpanOf(Read(nextPos, 1, subcode))];
    }

    method ReadTail(pos: u32, buf: array<byte>, lo: nat, hi: nat, nextPos: u32, rest: nat, subcode: byte,
                    deadline: nat, timeout: nat, ghost w0: World, ghost sent: seq<Span>)
      returns (r: Result<(), RkUsbError>)
      requires lo < hi <= buf.Length && 0 < rest < SECTOR && rest <= hi - lo
      requires nextPos * SECTOR == pos * SECTOR + (hi - lo - rest)
      requires Books(w0, device.world, sent, timeout, deadline)
      requires Fetched(w0, device.world, pos * SECTOR, buf[lo..hi - rest])
      requires ReadPlan(pos, hi - lo, subcode) == sent + ReadPlan(nextPos, rest, subcode)
      modifies device, buf
      ensures Wf(device.world) && Later(w0, device.world)
      ensures Budgeted(w0, device.world, timeout)
      ensures buf[..lo] == old(buf[..lo]) && buf[hi..] == old(buf[hi..])
      ensures device.world.issued <= w0.issued + ReadPlan(pos, hi - lo, subcode)
      ensures r.Ok? ==> device.world.issued == w0.issued + ReadPlan(pos, hi - lo, subcode)
      ensures r.Ok? ==> Fetched(w0, device.world, pos * SECTOR, buf[lo..hi])
      ensures r.Err? ==> r.error != LbaOverflow && Patched(w0, device.world, map[])
      ensures w0.faults <= old(device.world).faults <= device.world.faults
      ensures Aged(old(device.world), device.world)
      ensures Clean(old(device.world)) && InTime(old(device.world), device.world, deadline) ==> r.Ok?
    {
      hide Wf, Fetched, Patched, Later, Budgeted, ReadPlan, Clean;
      ghost var base, got := pos * SECTOR, buf[lo..hi - rest];
      TailPlan(nextPos, rest, subcode);
      IssuedPrefix(w0.issued, sent, [Span(Reading, nextPos, 1, subcode)]);
      var sector; ghost var issued;
      r, sector, issued := FetchTail(nextPos, subcode, deadline, timeout, w0, sent, base, got);
      BooksFacts(w0, device.world, sent + issued, timeout, deadline);
      assert sent + [] == sent;
      if r.Err? { return; }
      FetchedLess(w0, device.world, base, got + sector[..], |got| + rest);
      ghost var before := buf[..];
      Fill(buf, hi - rest, sector[..rest]);
      Filled(before, buf[..], lo, hi - rest, hi, sector[..], rest);
    }

    /** Erase `count` sectors from `pos` on, in commands of at most 65535. When the call fails, `done` bytes are
        erased and the following `chunk` bytes belong to the command that failed. */
    method EraseLba(pos: u32, count: u32, timeout: nat)
      returns (r: Result<(), RkUsbError>, ghost done: nat, ghost chunk: nat)
      requires Wf(device.world)
      modifies device
      ensures Wf(device.world) && Later(old(device.world), device.world)
      ensures count == 0 ==> device.world == old(device.world) && r.Ok?
      ensures device.world.issued <= old(device.world).issued + Batches(Erasing, pos, count, MAX_ERASE_SECTORS, 0)
      ensures r.Ok? ==>
        device.world.issued == old(device.world).issued + Batches(Erasing, pos, count, MAX_ERASE_SECTORS, 0)
      ensures Budgeted(old(device.world), device.world, timeout)
      ensures var blank := Blank(count, old(device.world).erased);
              if r.Ok? then count > 0 ==> Written(old(device.world), device.world, pos * SECTOR, blank, |blank|)
              else && Stopped(old(device.world), device.world, pos * SECTOR, blank, done, chunk)
                   && Tied(old(device.world), device.world, pos * SECTOR, done, chunk)
      ensures r == Err(LbaOverflow) ==> pos + count >= 0x1_0000_0000
      ensures r == Err(LbaOverflow) ==> pos * SECTOR + done >= 0x1_0000_0000 * SECTOR && chunk == 0
      ensures r.Ok? && count > 0 ==> pos + count < 0x1_0000_0000
      ensures Clean(old(device.world)) && InTime(old(device.world), device.world, old(device.world).now + timeout) ==>
        if count == 0 || pos + count < 0x1_0000_0000 then r.Ok? else r == Err(LbaOverflow)
    {
      hide Wf, Written, Stopped, Budgeted, Clean, Batches, Later, Books, Tied;
      done, chunk := 0, 0;
      ghost var w0 := device.world;
      if count == 0 {
        NoBatches(pos);
        BooksIdle(w0, timeout);
        return Ok(()), 0, 0;
      }
      var start := device.Now();
      var deadline := start + timeout;
      BooksStart(w0, device.world, timeout);
      WrittenStart(w0, device.world, pos * SECTOR, Blank(count, w0.erased));
      var nextPos: u32 := pos;
      var remaining: u32 := count;
      ghost var sent: seq<Span> := [];
      while remaining != 0
        invariant remaining <= count && nextPos == pos + (count - remaining)
        invariant Books(w0, device.world, sent, timeout, deadline) && Aged(w0, device.world)
        invariant Written(w0, device.world, pos * SECTOR, Blank(count, w0.erased), (count - remaining) * SECTOR)
        invariant Batches(Erasing, pos, count, MAX_ERASE_SECTORS, 0)
               == sent + Batches(Erasing, nextPos, remaining, MAX_ERASE_SECTORS, 0)
        invariant Clean(w0) && device.world.faults == w0.faults ==> Clean(device.world)
      {
        var chunkSectors := if remaining < 0xFFFF then remaining else 0xFFFF;
        var next;
        next, sent, done, chunk := EraseStep(pos, count, remaining, nextPos, chunkSectors, deadline, timeout, w0, sent);
        BooksFacts(w0, device.world, sent, timeout, deadline);
        if next.Err? { return Err(next.error), done, chunk; }
        nextPos := next.value;
        remaining := remaining - chunkSectors;
      }
      NoBatches(nextPos);
      BooksFacts(w0, device.world, sent, timeout, deadline);
      return Ok(()), 0, 0;
    }

    method EraseStep(ghost pos: u32, ghost count: u32, ghost remaining: u32, nextPos: u32, n: u16, deadline: nat,
                     timeout: nat, ghost w0: World, ghost before: seq<Span>)
      returns (r: Result<u32, RkUsbError>, ghost sent: seq<Span>, ghost done: nat, ghost chunk: nat)
      requires Books(w0, device.world, before, timeout, deadline)
      requires 0 < remaining <= count && n == Min(remaining, MAX_ERASE_SECTORS) && nextPos == pos + (count - remaining)
      requires Written(w0, device.world, pos * SECTOR, Blank(count, w0.erased), (count - remaining) * SECTOR)
      modifies device
      ensures Books(w0, device.world, sent, timeout, deadline)
      ensures var plan := before + Batches(Erasing, nextPos, remaining, MAX_ERASE_SECTORS, 0);
              && w0.issued + sent <= w0.issued + plan
              && (r.Ok? ==> plan == sent + Batches(Erasing, r.value, remaining - n, MAX_ERASE_SECTORS, 0))
      ensures var off, blank := (count - remaining) * SECTOR, Blank(count, w0.erased);
              if r.Ok? then r.value == nextPos + n && Written(w0, device.world, pos * SECTOR, blank, off + n * SECTOR)
              else && Stopped(w0, device.world, pos * SECTOR, blank, done, chunk)
                   && Tied(w0, device.world, pos * SECTOR, done, chunk)
                   && done == if r.error == LbaOverflow then off + n * SECTOR else off
      ensures r == Err(LbaOverflow) ==> nextPos + n >= 0x1_0000_0000 && chunk == 0
      ensures (r.Ok? || r == Err(LbaOverflow)) && device.world.mishaps == old(device.world).mishaps ==> Clean(device.world)
      ensures w0.faults <= old(device.world).faults <= device.world.faults
      ensures Aged(old(device.world), device.world)
      ensures Clean(old(device.world)) && InTime(old(device.world), device.world, deadline) ==>
        if nextPos + n < 0x1_0000_0000 then r.Ok? else r == Err(LbaOverflow)
    {
      hide Wf, Written, Stopped, Clean, Batches, Later, Books;
      BatchesStep(nextPos, remaining, n);
      ghost var off := (count - remaining) * SECTOR;
      var erased; ghost var issued;
      erased, issued := EraseChunk(pos, count, off, nextPos, n, deadline, timeout, w0, before);
      sent := before + issued;
      ghost var later := Batches(Erasing, nextPos + n, remaining - n, MAX_ERASE_SECTORS, 0);
      IssuedPrefix(w0.issued, sent,
                   if issued == [] then Batches(Erasing, nextPos, remaining, MAX_ERASE_SECTORS, 0) else later);
      done, chunk := off, if issued == [] then 0 else n * SECTOR;
      BooksFacts(w0, device.world, sent, timeout, deadline);
      if chunk > 0 { TiedLast(w0, device.world, before, issued[0], pos * SECTOR, done, chunk); }
      if erased.Err? { return Err(erased.error), sent, done, chunk; }
      WrittenStopped(w0, device.world, pos * SECTOR, Blank(count, w0.erased), off + n * SECTOR);
      done, chunk := off + n * SECTOR, 0;
      r := if nextPos + n < 0x1_0000_0000 then Ok(nextPos + n) else Err(LbaOverflow);
    }

    method EraseChunk(ghost pos: u32, ghost count: u32, ghost off: nat, nextPos: u32, n: u16,
                      deadline: nat, timeout: nat, ghost w0: World, ghost sent: seq<Span>)
      returns (r: Result<(), RkUsbError>, ghost issued: seq<Span>)
      requires Books(w0, device.world, sent, timeout, deadline)
      requires Written(w0, device.world, pos * SECTOR, Blank(count, w0.erased), off)
      requires 0 < n && off + n * SECTOR <= count * SECTOR && nextPos * SECTOR == pos * SECTOR + off
      modifies device
      ensures Books(w0, device.world, sent + issued, timeout, deadline)
      ensures issued == [] || issued == [Span(Erasing, nextPos, n, 0)]
      ensures r.Ok? ==> issued != []
      ensures r.Ok? ==> Written(w0, device.world, pos * SECTOR, Blank(count, w0.erased), off + n * SECTOR)
      ensures r.Err? ==> Stopped(w0, device.world, pos * SECTOR, Blank(count, w0.erased), off,
                                 if issued == [] then 0 else n * SECTOR)
      ensures r.Err? ==> r.error != LbaOverflow
      ensures r.Ok? && device.world.mishaps == old(device.world).mishaps ==> Clean(device.world)
      ensures w0.faults <= old(device.world).faults <= device.world.faults
      ensures Aged(old(device.world), device.world)
      ensures Clean(old(device.world)) && InTime(old(device.world), device.world, deadline) ==> r.Ok?
    {
      hide Wf, Written, Stopped, Commanded, OnTime;
      ghost var w1, blank := device.world, Blank(count, w0.erased);
      var left := RemainingTimeout(deadline);
      ghost var w2 := device.world;
      BooksTick(w0, w1, w2, sent, timeout, deadline);
      WrittenTick(w0, w1, w2, pos * SECTOR, blank, off);
      issued := [];
      if left.Err? {
        WrittenStopped(w0, w2, pos * SECTOR, blank, off);
        assert sent + [] == sent;
        return Err(left.error), [];
      }
      r := EraseLbaRaw(nextPos, n, left.value);
      ghost var c := Erase(nextPos, n);
      BooksCommand(w0, w2, device.world, sent, timeout, deadline, c, r.Ok?);
      issued := [SpanOf(c)];
      EraseCarries(nextPos, n, w2.erased, pos * SECTOR, blank, off, count);
      if r.Ok? {
        ChunkWritten(w0, w2, device.world, pos * SECTOR, blank, off, n * SECTOR, c, left.value);
      } else {
        ChunkFailed(w0, w2, device.world, pos * SECTOR, blank, off, n * SECTOR, c, left.value);
      }
    }

    /** A question about the device: the answer goes into `buf[..]`, and may be shorter than the buffer. */
    method Ask(opcode: byte, length: byte, buf: array<byte>, timeout: nat) returns (r: Result<nat, RkUsbError>)
      requires Wf(device.world) && ShortIn(opcode) && 0 < length <= 12
      requires length == buf.Length || 64 <= buf.Length
      modifies device, buf
      ensures Wf(device.world) && Later(old(device.world), device.world) && Patched(old(device.world), device.world, map[])
      ensures Granted(old(device.world), device.world, timeout)
      ensures r.Ok? ==> length <= r.value <= buf.Length
      ensures r.Ok? && device.world.mishaps == old(device.world).mishaps ==>
        && Clean(device.world)
        && (r.value == length ==>
              && opcode in device.world.answers && |device.world.answers[opcode]| == length
              && buf[..r.value] == device.world.answers[opcode])
      ensures Clean(old(device.world)) && InTime(old(device.world), device.world, old(device.world).now + timeout) ==>
        r.Ok? && r.value == length
    {
      hide Wf, Encodes, Seen, Torn, Later, Concluded, Prepared;
      ghost var w0, c := device.world, Query(opcode, length);
      var tag := DrawTag(Span(Other, 0, 0, 0), timeout, c);
      ghost var w1 := device.world;
      var cbw := WithOpcode(opcode, tag);
      cbw := cbw.(dataTransferLength := length);
      assert ToBe32(0) == 0 && ToBe16(0) == 0;
      EncodesCommand(cbw, None, c, 0, 0);
      ghost var mid;
      r, mid := CbwTransaction(cbw, None, buf, 0, buf.Length, timeout, c);
      ConcludedCommand(w0, w1, device.world, tag, c, timeout, r.Ok?);
      TornNothing(w0, device.world);
      assert buf[0..buf.Length] == buf[..];
      if r.Ok? { assert buf[..][..r.value] == buf[..r.value]; }
    }

    /** What the device says about its storage. */
    method ReadStorageInfo(timeout: nat) returns (r: Result<FlashInfo, RkUsbError>)
      requires Wf(device.world)
      modifies device
      ensures Wf(device.world) && Later(old(device.world), device.world) && Patched(old(device.world), device.world, map[])
      ensures Granted(old(device.world), device.world, timeout)
      ensures r.Ok? && device.world.mishaps == old(device.world).mishaps ==>
        && Clean(device.world)
        && READ_FLASH_INFO in device.world.answers && |device.world.answers[READ_FLASH_INFO]| == FLASH_INFO_LENGTH
        && r.value == ParseFlashInfo(device.world.answers[READ_FLASH_INFO])
      ensures Clean(old(device.world)) && InTime(old(device.world), device.world, old(device.world).now + timeout) ==> r.Ok?
    {
      hide Wf, Later, Patched, Clean;
      var buf := new byte[512](_ => 0);
      var got := Ask(READ_FLASH_INFO, FLASH_INFO_LENGTH, buf, timeout);
      if got.Err? { return Err(got.error); }
      if got.value != FLASH_INFO_LENGTH { return Err(InvalidFlashInfoLength(got.value)); }
      r := Ok(ParseFlashInfo(buf[..got.value]));
    }

    /** Eight capability bytes. */
    method ReadCapability(timeout: nat) returns (r: Result<seq<byte>, RkUsbError>)
      requires Wf(device.world)
      modifies device
      ensures Wf(device.world) && Later(old(device.world), device.world) && Patched(old(device.world), device.world, map[])
      ensures Granted(old(device.world), device.world, timeout)
      ensures r.Ok? ==> |r.value| == 8
      ensures r.Ok? && device.world.mishaps == old(device.world).mishaps ==>
        && Clean(device.world)
        && READ_CAPABILITY in device.world.answers && r.value == device.world.answers[READ_CAPABILITY]
      ensures Clean(old(device.world)) && InTime(old(device.world), device.world, old(device.world).now + timeout) ==> r.Ok?
    {
      hide Wf, Later, Patched, Clean;
      var buf := new byte[8](_ => 0);
      var got := Ask(READ_CAPABILITY, 8, buf, timeout);
      if got.Err? { return Err(got.error); }
      r := Ok(buf[..]);
      assert buf[..got.value] == buf[..];
    }
  }

  /** One command was issued, and given this time. */
  ghost predicate Granted(w0: World, w: World, timeout: nat) {
    w.times == w0.times + [w0.now] && w.budgets == w0.budgets + [timeout] && Limited(w0, w, timeout)
  }

  const FLASH_INFO_LENGTH := 11

  datatype FlashInfo = FlashInfo(flashSize: u32, blockSize: u16, pageSize: byte, eccBits: byte, accessTime: byte,
                                 manufacture: byte, flashMask: byte)

  function ParseFlashInfo(b: seq<byte>): FlashInfo
    requires |b| == FLASH_INFO_LENGTH
  {
    FlashInfo(FromLe32(b[0..4]), FromLe16(b[4..6]), b[6], b[7], b[8], b[9], b[10])
  }

  /** What a device sends to say so. */
  function FlashInfoBytes(f: FlashInfo): (b: seq<byte>)
    ensures |b| == FLASH_INFO_LENGTH
  {
    Le32(f.flashSize) + Le16(f.blockSize) + [f.pageSize, f.eccBits, f.accessTime, f.manufacture, f.flashMask]
  }

  lemma FlashInfoRoundTrip(f: FlashInfo)
    ensures ParseFlashInfo(FlashInfoBytes(f)) == f
  {
    var b := FlashInfoBytes(f);
    assert b[0..4] == Le32(f.flashSize) && b[4..6] == Le16(f.blockSize);
    IntegersRoundTrip(f.blockSize, f.flashSize);
  }

  /** The sector `bytes` further on, if it still is a 32-bit number. */
  function AdvanceLbaByBytes(pos: u32, bytes: nat): Result<u32, RkUsbError> {
    var sectors := bytes / SECTOR;
    if sectors >= 0x1_0000_0000 || pos + sectors >= 0x1_0000_0000 then Err(LbaOverflow) else Ok(pos + sectors)
  }

  /** The last sector of a disk of 2^32 sectors: when everything works, its data is in place, no other byte has
      changed, and the call reports an overflow. */
  method WriteLastSector(dev: RkDevice, data: seq<byte>, subcode: byte, timeout: nat) returns (r: Result<(), RkUsbError>)
    requires Wf(dev.device.world) && Clean(dev.device.world)
    requires |dev.device.world.disk| == 0x1_0000_0000 * SECTOR && |data| == SECTOR
    modifies dev.device
    ensures var w0, w := old(dev.device.world), dev.device.world;
            InTime(w0, w, w0.now + timeout) ==>
              r == Err(LbaOverflow) && Clean(w) && w.disk == w0.disk[..0xFFFF_FFFF * SECTOR] + data
  {
    hide Wf, Clean, Stopped, Budgeted, WritePlan, MayHold;
    ghost var w0 := dev.device.world;
    ghost var done, chunk;
    r, done, chunk := dev.WriteLba(0xFFFF_FFFF, data, subcode, timeout);
    ghost var w := dev.device.world;
    if InTime(w0, w, w0.now + timeout) {
      LastSectorWritten(w0, w, data, done, chunk);
    }
  }

  lemma SeenStill(w: World, v: World, tag: u32)
    requires v == w.(mishaps := v.mishaps, faults := v.faults)
    ensures Seen(w, tag) <==> Seen(v, tag)
    ensures Clean(w) <==> Clean(v)
  {
  }

  lemma LastSectorWritten(w0: World, w: World, data: seq<byte>, done: nat, chunk: nat)
    requires Clean(w0) && |w0.disk| == 0x1_0000_0000 * SECTOR && |data| == SECTOR && w.mishaps == w0.mishaps
    requires Stopped(w0, w, 0xFFFF_FFFF * SECTOR, data, done, chunk) && chunk == 0 && done >= SECTOR
    ensures w.disk == w0.disk[..0xFFFF_FFFF * SECTOR] + data
  {
    assert data[..done] == data && data[done..done + chunk] == [];
    PatchedClean(w0, w, Splice(0xFFFF_FFFF * SECTOR, data));
  }

  lemma ArrivedUnderway(w0: World, mid: World, cbw: Cbw, dataOut: Option<seq<byte>>, c: Command, a: Arrival,
                        timeout: nat)
    requires Encodes(cbw, dataOut, c) && Unsent(w0, mid, c)
    ensures Underway(w0, Arrived(mid, AsBytes(cbw), a, timeout), c)
  {
    hide Wf, Torn, MayHold, Nominal, Encodes, ReadCbw, CommandOf;
    WrapperArrives(w0, mid, cbw, dataOut, c);
    var b := AsBytes(cbw);
    EncodesPacked(cbw, dataOut, c);
    ArrivedKeeps(mid, b, a, timeout);
    ExpectingOther(mid);
    match a
    case Acknowledged =>
    case Unacknowledged(_) => UnderwayBooks(w0, Deliver(mid, b), Arrived(mid, b, a, timeout), c);
    case _ => UnderwayBooks(w0, mid, Arrived(mid, b, a, timeout), c);
  }

  lemma DataUnderway(w0: World, mid: World, q: Request, b: seq<byte>, c: Command, a: Arrival,
                        timeout: nat)
    requires Announced(w0, mid, q, c) && |b| == q.transferLength && CommandOf(q, b) == Some(c)
    ensures Underway(w0, Arrived(mid, b, a, timeout), c)
  {
    hide Wf, Torn, MayHold, Nominal, ReadCbw, CommandOf;
    DataArrives(w0, mid, q, b, c);
    ArrivedKeeps(mid, b, a, timeout);
    match a
    case Acknowledged =>
    case Unacknowledged(_) => UnderwayBooks(w0, Deliver(mid, b), Arrived(mid, b, a, timeout), c);
    case Cut(_, _, true) => UnderwayBooks(w0, Deliver(mid, b), Arrived(mid, b, a, timeout), c);
    case _ => UnderwayBooks(w0, mid, Arrived(mid, b, a, timeout), c);
  }
}
