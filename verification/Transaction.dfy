/** What the stages of one command do to the world, from the moment the host sets out to send it. */
module Transactions {
  import opened Bytes
  import opened Usb
  import opened Link
  import opened LinkSafety
  import opened LinkReply
  import opened LinkNominal
  import opened LinkHost
  import opened Effects

  /** The wrapper and the data stage, as the device will read them, are the command `c`. */
  ghost predicate Encodes(cbw: Cbw, dataOut: Option<seq<byte>>, c: Command) {
    |cbw.cb.reserved3| == 7 &&
    match ReadCbw(AsBytes(cbw))
    case None => false
    case Some(r) =>
      && r.tag == cbw.tag && r.transferLength == cbw.dataTransferLength
      && (dataOut.Some? <==> WantsData(r))
      && CommandOf(r, if dataOut.Some? then dataOut.value else []) == Some(c)
  }

  /** A command is being sent: nothing but its own effect may have been added to what the disk can hold. */
  ghost predicate Underway(w0: World, w: World, c: Command) {
    && Wf(w) && Later(w0, w) && Torn(w0, w, Effect(c, w0.erased))
  }

  /** The command has arrived whole, and if all went well since a clean start, nothing else is going on. */
  ghost predicate Asked(w0: World, w: World, tag: u32, c: Command) {
    && Underway(w0, w, c) && w.parser.Idle?
    && w.accepted == w0.accepted + [Job(tag, c)]
    && (Clean(w0) && w.faults == w0.faults ==>
          Nominal(w, |w0.stream|, |w0.accepted|) && w.taken == |w0.stream|)
  }

  /** The wrapper has arrived, and the device awaits the data stage. */
  ghost predicate Announced(w0: World, w: World, r: Request, c: Command) {
    && Underway(w0, w, c) && w.parser == Expecting(r) && w.accepted == w0.accepted
    && (Clean(w0) && w.faults == w0.faults ==> Clean(w.(parser := Idle)) && w.stream == w0.stream)
  }

  ghost predicate Unsent(w0: World, w: World, c: Command) {
    && Underway(w0, w, c) && w.accepted == w0.accepted
    && (Clean(w0) && w.faults == w0.faults ==> Clean(w) && w.stream == w0.stream)
  }

  /** A device with nothing to do has done nothing. */
  ghost predicate Rested(w: World, v: World) {
    Quiet(w) ==> v.stream == w.stream && v.taken == w.taken && v.done == w.done && v.reply == w.reply
  }

  lemma UnderwayDrift(w0: World, w: World, v: World, c: Command)
    requires Underway(w0, w, c) && Drift(w, v) && Wf(v)
    ensures Underway(w0, v, c)
  {
    hide Wf, MayHold;
  }

  lemma UnsentDrift(w0: World, w: World, v: World, c: Command)
    requires Unsent(w0, w, c) && Drift(w, v) && Wf(v) && Rested(w, v)
    ensures Unsent(w0, v, c)
  {
    hide Wf, MayHold;
  }

  lemma AnnouncedDrift(w0: World, w: World, v: World, r: Request, c: Command)
    requires Announced(w0, w, r, c) && Drift(w, v) && Wf(v) && Rested(w, v)
    ensures Announced(w0, v, r, c)
  {
    hide Wf, MayHold;
  }

  lemma AskedDrift(w0: World, w: World, v: World, tag: u32, c: Command)
    requires Asked(w0, w, tag, c) && Drift(w, v) && Wf(v)
    ensures Underway(w0, v, c) && v.parser.Idle? && v.accepted == w0.accepted + [Job(tag, c)]
  {
    hide Wf, MayHold, Nominal;
  }

  /** A look at the clock. */
  lemma AskedBooks(w0: World, w: World, v: World, tag: u32, c: Command)
    requires Asked(w0, w, tag, c) && Drift(w, v) && Wf(v) && v == w.(now := v.now)
    ensures Asked(w0, v, tag, c)
  {
    hide MayHold, Wf, Answering;
    if Nominal(w, |w0.stream|, |w0.accepted|) { NominalSame(w, v, |w0.stream|, |w0.accepted|); }
  }

  /** The data stage, if there is one, has been received; when all went well, all of it and nothing more. */
  ghost predicate Replied(w0: World, w: World, tag: u32, c: Command, deadline: nat) {
    && Underway(w0, w, c) && w.parser.Idle?
    && w.accepted == w0.accepted + [Job(tag, c)]
    && (Clean(w0) && InTime(w0, w, deadline) ==>
          Nominal(w, |w0.stream|, |w0.accepted|) && StatusNext(w, |w0.stream|, c))
  }

  ghost predicate StatusNext(w: World, base: nat, c: Command) {
    base <= w.taken <= |w.stream| &&
    if w.taken == base then DataIn(c) == 0
    else var p := w.stream[w.taken - 1]; p.Data? && p.offset + |p.bytes| == |w.reply.data|
  }

  lemma ReplyHeard(w0: World, w: World, v: World, tag: u32, c: Command, room: nat, deadline: nat)
    requires Asked(w0, w, tag, c) && Drift(w, v) && Wf(v)
    requires InTime(w, v, deadline) ==> Smooth(w, v, room)
    requires 0 < DataIn(c) && (room == DataIn(c) || DataIn(c) < 64 <= room)
    ensures Replied(w0, v, tag, c, deadline)
    ensures Clean(w0) && InTime(w0, v, deadline) ==> |Gather(Window(v, w.taken, v.taken))| == DataIn(c)
  {
    hide MayHold, Wf, Nominal, StatusNext, Torn, Clean, Smooth, DataIn;
    AskedDrift(w0, w, v, tag, c);
    if Clean(w0) && InTime(w0, v, deadline) {
      ReplyComes(w, v, |w0.stream|, |w0.accepted|, c, room);
    }
  }

  lemma ReplyComes(w: World, v: World, base: nat, n: nat, c: Command, room: nat)
    requires Nominal(w, base, n) && w.taken == base && Wf(v) && Smooth(w, v, room)
    requires |v.accepted| == n + 1 && v.accepted[n].command == c
    requires 0 < DataIn(c) && (room == DataIn(c) || DataIn(c) < 64 <= room)
    ensures Nominal(v, base, n) && StatusNext(v, base, c)
    ensures |Gather(Window(v, w.taken, v.taken))| == DataIn(c)
  {
    hide MayHold, Wf, Chained, Whole, PacketsOk;
    WfStream(v);
    assert Nominal(v, base, n);
    StageComplete(v, base, n, v.taken, room);
  }

  lemma EncodesData(cbw: Cbw, data: seq<byte>, c: Command)
    requires Encodes(cbw, Some(data), c)
    ensures var q := ReadCbw(AsBytes(cbw)).value;
            |data| == q.transferLength && |data| != CBW_LENGTH && CommandOf(q, data) == Some(c) && q.tag == cbw.tag
  {
    hide AsBytes, ReadCbw;
  }

  lemma NoReply(w0: World, w: World, tag: u32, c: Command, deadline: nat)
    requires Asked(w0, w, tag, c) && DataIn(c) == 0
    ensures Replied(w0, w, tag, c, deadline)
  {
    hide Wf, Torn, Nominal;
  }

  lemma RepliedBooks(w0: World, w: World, v: World, tag: u32, c: Command, deadline: nat)
    requires Replied(w0, w, tag, c, deadline) && Drift(w, v) && Wf(v) && v == w.(now := v.now)
    ensures Replied(w0, v, tag, c, deadline)
  {
    hide MayHold, Wf, Answering;
    if Nominal(w, |w0.stream|, |w0.accepted|) { NominalSame(w, v, |w0.stream|, |w0.accepted|); }
  }

  /** 13 bytes have been taken that read as a zero status under this tag. */
  ghost predicate StatusRead(w: World, v: World, tag: u32) {
    && w.taken <= v.taken <= |v.stream|
    && FullButLast(v.mps, Window(v, w.taken, v.taken))
    && var b := Gather(Window(v, w.taken, v.taken));
       |b| == CSW_LENGTH && ParseCsw(b).signature == CSW_SIGN && ParseCsw(b).tag == tag && ParseCsw(b).status == 0
  }

  lemma WfStream(w: World)
    requires Wf(w)
    ensures StreamOk(w) && w.taken <= |w.stream|
  {
  }

  lemma StatusHeard(w0: World, w: World, v: World, tag: u32, c: Command, deadline: nat)
    requires Replied(w0, w, tag, c, deadline) && Drift(w, v) && Wf(v)
    requires InTime(w, v, deadline) ==> Smooth(w, v, CSW_LENGTH)
    ensures Underway(w0, v, c) && v.parser.Idle? && v.accepted == w0.accepted + [Job(tag, c)]
    ensures Clean(w0) && InTime(w0, v, deadline) ==> StatusRead(w, v, tag)
  {
    hide MayHold, Wf, Nominal, StatusNext, StatusRead, Torn, Clean, Smooth;
    UnderwayDrift(w0, w, v, c);
    if Clean(w0) && InTime(w0, v, deadline) {
      StatusComes(w, v, |w0.stream|, |w0.accepted|, tag, c);
    }
  }

  lemma StatusComes(w: World, v: World, base: nat, n: nat, tag: u32, c: Command)
    requires Nominal(w, base, n) && StatusNext(w, base, c) && Later(w, v) && Wf(v) && Smooth(w, v, CSW_LENGTH)
    requires |v.accepted| == n + 1 && v.accepted[n] == Job(tag, c)
    ensures StatusRead(w, v, tag)
  {
    hide MayHold, Wf, Chained, Whole, CswBytes, ParseCsw;
    WfStream(v);
    assert Nominal(v, base, n);
    if w.taken > base { assert v.stream[w.taken - 1] == w.stream[w.taken - 1]; }
    assert |v.reply.data| == DataIn(c);
    StatusComplete(v, base, n, w.taken, v.taken);
    assert PacketOk(v, v.stream[w.taken]);
    CswRoundTrip(v.stream[w.taken].csw);
  }

  lemma EncodesPacked(cbw: Cbw, dataOut: Option<seq<byte>>, c: Command)
    requires Encodes(cbw, dataOut, c)
    ensures |cbw.cb.reserved3| == 7
  {
    hide AsBytes, ReadCbw;
  }

  /** Nothing but the host's books, or the parser giving up on a data stage, has changed. */
  lemma UnderwayBooks(w0: World, w: World, v: World, c: Command)
    requires Underway(w0, w, c) && Wf(v) && Later(w, v)
    requires SameDevice(w, v) && v.accepted == w.accepted
    ensures Underway(w0, v, c)
  {
    hide Wf;
    MayHoldSame(w, v);
  }

  lemma ExpectingOther(w: World)
    requires Wf(w)
    ensures w.parser.Expecting? ==> w.parser.request.transferLength != CBW_LENGTH
  {
  }

  lemma WrapperArrives(w0: World, mid: World, cbw: Cbw, dataOut: Option<seq<byte>>, c: Command)
    requires Encodes(cbw, dataOut, c) && Unsent(w0, mid, c)
    ensures var w := Deliver(mid, AsBytes(cbw));
            if dataOut.None? then Asked(w0, w, cbw.tag, c)
            else Announced(w0, w, ReadCbw(AsBytes(cbw)).value, c)
  {
    hide Wf, MayHold, Torn, CommandOf, AsBytes, ReadCbw;
    ExpectingOther(mid);
    var r := ReadCbw(AsBytes(cbw)).value;
    assert Deliver(mid, AsBytes(cbw)) == if WantsData(r) then mid.(parser := Expecting(r)) else Accept(mid, r, []);
    if dataOut.Some? {
      ParserKeeps(mid, Expecting(r));
      UnderwayBooks(w0, mid, mid.(parser := Expecting(r)), c);
    } else {
      CommandArrives(w0, mid, cbw.tag, c);
    }
  }

  lemma DataArrives(w0: World, mid: World, r: Request, data: seq<byte>, c: Command)
    requires Announced(w0, mid, r, c) && |data| == r.transferLength && CommandOf(r, data) == Some(c)
    ensures Asked(w0, Deliver(mid, data), r.tag, c)
  {
    CommandArrives(w0, mid, r.tag, c);
  }

  lemma CommandArrives(w0: World, mid: World, tag: u32, c: Command)
    requires Underway(w0, mid, c) && mid.accepted == w0.accepted
    requires Clean(w0) && mid.faults == w0.faults ==> Clean(mid.(parser := Idle)) && mid.stream == w0.stream
    ensures Asked(w0, mid.(parser := Idle, accepted := mid.accepted + [Job(tag, c)]), tag, c)
  {
    AcceptKeeps(mid, Job(tag, c));
  }

  lemma Begin(w0: World, w: World, c: Command)
    requires Wf(w0) && Wf(w) && w == w0.(now := w.now) && w0.now <= w.now
    ensures Unsent(w0, w, c)
  {
    hide Wf;
    MayHoldSame(w0, w);
  }

  /** What one transaction under a lucky tag has done, whether or not it succeeded. */
  ghost predicate Concluded(w0: World, w: World, tag: u32, c: Command, budget: nat, ok: bool) {
    && Underway(w0, w, c) && SameBooks(w0, w)
    && (ok && !Seen(w0, tag) ==> Clean(w))
    && (ok && !Seen(w0, tag) && w.mishaps == w0.mishaps ==> InRange(c, w) && Patched(w0, w, Effect(c, w0.erased)))
    && (Clean(w0) && InTime(w0, w, w0.now + budget) ==> ok)
    && Limited(w0, w, budget)
  }

  lemma UntilJoins(w0: World, w1: World, w2: World, deadline: nat)
    requires Until(w0, w1, deadline) && Until(w1, w2, deadline)
    ensures Until(w0, w2, deadline)
  {
  }

  lemma UntilLimited(w0: World, w: World, timeout: nat, deadline: nat)
    requires Until(w0, w, deadline) && w0.now + timeout <= deadline <= w.now + timeout
    ensures Limited(w0, w, timeout)
  {
  }

  lemma UntilNothing(w0: World, w: World)
    requires w.limits == w0.limits
    ensures forall deadline: nat :: Until(w0, w, deadline)
  {
  }

  /** What the host has taken from the pipe when its transaction succeeds: the data stage `lo..mid` and the
      thirteen bytes `mid..taken`, which pass all of its checks. The residue is not one of them. */
  ghost predicate Taken(w: World, lo: nat, mid: nat, tag: u32, wanted: nat) {
    && lo <= mid <= w.taken <= |w.stream|
    && FullButLast(w.mps, Window(w, lo, mid)) && wanted <= |Gather(Window(w, lo, mid))|
    && FullButLast(w.mps, Window(w, mid, w.taken))
    && var b := Gather(Window(w, mid, w.taken));
       |b| == CSW_LENGTH && ParseCsw(b).signature == CSW_SIGN && ParseCsw(b).tag == tag && ParseCsw(b).status == 0
  }

  /** What the host has made of the thirteen bytes it took from packet `mid` on, when it gives up because of them. */
  ghost predicate Rejected(w: World, mid: nat, tag: u32, status: Option<byte>) {
    && mid <= w.taken <= |w.stream|
    && var b := Gather(Window(w, mid, w.taken));
       && |b| == CSW_LENGTH && ParseCsw(b).signature == CSW_SIGN
       && match status
          case None => ParseCsw(b).tag != tag
          case Some(s) => ParseCsw(b).tag == tag && ParseCsw(b).status == s != 0
  }

  /** The residue the host was told and did not look at. */
  function ToldResidue(w: World, mid: nat): u32
    requires mid <= w.taken <= |w.stream| && |Gather(Window(w, mid, w.taken))| == CSW_LENGTH
  {
    ParseCsw(Gather(Window(w, mid, w.taken))).dataResidue
  }

  /** The command has been sent and the host has taken what it takes for its answer, under a tag that no command
      still visible carried. */
  ghost predicate Trusted(w0: World, w: World, lo: nat, mid: nat, tag: u32, c: Command) {
    && Underway(w0, w, c) && w.parser.Idle? && w.accepted == w0.accepted + [Job(tag, c)] && !Seen(w0, tag)
    && w0.taken <= lo && Taken(w, lo, mid, tag, if lo < mid then DataIn(c) else 0)
  }

  /** The accepted status is that of this very command, and the last thing the device had to say. */
  lemma StatusIsOwn(w0: World, w: World, lo: nat, mid: nat, tag: u32, c: Command)
    requires Trusted(w0, w, lo, mid, tag, c)
    ensures Clean(w) && mid == w.taken - 1 && w.stream[mid].Status? && w.stream[mid].serial == w.done - 1
    ensures w.reply.status == 0 && w.reply.residue == ToldResidue(w, mid)
  {
    hide Torn, MayHold, Effective, ParserOk, CswBytes, ParseCsw;
    ThirteenBytes(w, mid, w.taken);
    var p := w.stream[mid];
    assert PacketOk(w, p);
    CswRoundTrip(p.csw);
    NewestStatusIsLast(w0, w, mid, Job(tag, c));
  }

  /** What a zero status with a zero residue under a lucky tag proves: the command was carried out as the last of
      all, and what was read before, if it is as long as the answer, is the whole answer. */
  lemma StatusProves(w0: World, w: World, lo: nat, mid: nat, tag: u32, c: Command)
    requires Trusted(w0, w, lo, mid, tag, c) && ToldResidue(w, mid) == 0
    ensures Clean(w) && InRange(c, w) && Patched(w0, w, Effect(c, w0.erased))
    ensures lo < mid && |Gather(Window(w, lo, mid))| == DataIn(c) ==> Gather(Window(w, lo, mid)) == FullReply(c, w)
  {
    StatusIsOwn(w0, w, lo, mid, tag, c);
    assert Effective(w) && ReplyOk(w);
    forall i, b | MayHold(w, i, b)
      ensures var m := Effect(c, w0.erased); if i in m then b == m[i] else MayHold(w0, i, b)
    {
      var m := Effect(c, w0.erased);
      if i in m { assert Stores(c, w.erased, i, m[i]); }
    }
    if lo < mid && |Gather(Window(w, lo, mid))| == DataIn(c) > 0 {
      StageOfNewest(w, lo, mid);
    }
  }

  /** The bytes of a successful read are those of its own answer if and only if the residue is zero. */
  lemma AnswerIsOwn(w0: World, w: World, lo: nat, mid: nat, tag: u32, c: Command)
    requires Trusted(w0, w, lo, mid, tag, c) && lo < mid && |Gather(Window(w, lo, mid))| == DataIn(c) > 0
    ensures ToldResidue(w, mid) == 0 <==> forall j | lo <= j < mid :: w.stream[j].serial == |w.accepted| - 1
    ensures ToldResidue(w, mid) == 0 ==> InRange(c, w) && Gather(Window(w, lo, mid)) == FullReply(c, w)
  {
    StatusIsOwn(w0, w, lo, mid, tag, c);
    assert ReplyOk(w);
    if ToldResidue(w, mid) == 0 {
      StatusProves(w0, w, lo, mid, tag, c);
      StageOfNewest(w, lo, mid);
    } else if forall j | lo <= j < mid :: w.stream[j].serial == |w.accepted| - 1 {
      forall j | lo <= j < mid ensures w.stream[j].Data? {
        if w.stream[j].Status? { LastStatus(w, j); }
      }
      OwnPackets(w, lo, mid);
      assert false;
    }
  }

  /** A mishap is noted. */
  lemma UnderwayOn(w0: World, w: World, v: World, c: Command)
    requires Underway(w0, w, c) && Wf(v) && Aged(w, v) && v == w.(mishaps := v.mishaps, faults := v.faults)
    ensures Underway(w0, v, c)
  {
    hide Wf;
    MayHoldSame(w, v);
  }

  lemma StagesTaken(w1: World, w2: World, w: World, tag: u32, buf: seq<byte>, length: nat, wanted: nat)
    requires ReadInto(w1, w2, buf, length) && wanted <= length
    requires w2.mps == w.mps && w2.stream <= w.stream && StatusRead(w2, w, tag)
    ensures Taken(w, w1.taken, w2.taken, tag, wanted) && buf[..length] == Gather(Window(w, w1.taken, w2.taken))
  {
    hide ParseCsw;
    assert Window(w, w1.taken, w2.taken) == Window(w2, w1.taken, w2.taken);
  }

  /** The stages of a successful transaction, put together: `w1` before the reply, `w2` after it. */
  lemma Success(w0: World, w1: World, w2: World, w: World, tag: u32, c: Command, buf: seq<byte>, length: nat)
    requires Underway(w0, w, c) && w.parser.Idle? && w.accepted == w0.accepted + [Job(tag, c)]
    requires w0.taken <= w1.taken <= w2.taken
    requires DataIn(c) > 0 ==> ReadInto(w1, w2, buf, length) && DataIn(c) <= length <= |buf|
    requires w2.mps == w.mps && w2.stream <= w.stream && StatusRead(w2, w, tag)
    ensures !Seen(w0, tag) ==> Clean(w)
    ensures !Seen(w0, tag) && ToldResidue(w, w2.taken) == 0 ==>
      && InRange(c, w) && Patched(w0, w, Effect(c, w0.erased))
      && (DataIn(c) == length > 0 ==> buf[..length] == FullReply(c, w))
  {
    hide Wf, Torn, Patched, MayHold, Later, Seen, Clean, InRange, ParseCsw;
    if !Seen(w0, tag) {
      var lo := if DataIn(c) > 0 then w1.taken else w2.taken;
      if DataIn(c) > 0 { assert Window(w, w1.taken, w2.taken) == Window(w2, w1.taken, w2.taken); }
      assert lo == w2.taken ==> Window(w, lo, w2.taken) == [];
      assert Trusted(w0, w, lo, w2.taken, tag, c);
      StatusIsOwn(w0, w, lo, w2.taken, tag, c);
      if ToldResidue(w, w2.taken) == 0 {
        StatusProves(w0, w, lo, w2.taken, tag, c);
      }
    }
  }

  /** One device command issued on its own: what it recorded, what it did, when it had to succeed. */
  ghost predicate Commanded(w0: World, w: World, c: Command, budget: nat, ok: bool) {
    && Wf(w) && Later(w0, w) && Torn(w0, w, Effect(c, w0.erased))
    && w.issued == w0.issued + [SpanOf(c)] && w.times == w0.times + [w0.now] && w.budgets == w0.budgets + [budget]
    && (ok && w.mishaps == w0.mishaps ==> Clean(w) && InRange(c, w) && Patched(w0, w, Effect(c, w0.erased)))
    && (Clean(w0) && InTime(w0, w, w0.now + budget) ==> ok)
    && Limited(w0, w, budget)
  }

  /** The host has written its books, the command to come, and drawn a tag for it. */
  ghost predicate Prepared(w0: World, w: World, tag: u32, c: Command, budget: nat) {
    && w == w0.(issued := w0.issued + [SpanOf(c)], times := w0.times + [w0.now], budgets := w0.budgets + [budget],
                mishaps := w.mishaps, faults := w.faults)
    && Aged(w0, w) && (w.mishaps == w0.mishaps ==> !Seen(w, tag))
  }

  lemma ConcludedCommand(w0: World, w1: World, w: World, tag: u32, c: Command, budget: nat, ok: bool)
    requires Wf(w0) && Prepared(w0, w1, tag, c, budget) && Concluded(w1, w, tag, c, budget, ok)
    ensures Commanded(w0, w, c, budget, ok)
    ensures w1.answers == w0.answers && w1.now == w0.now && w0.faults <= w1.faults <= w.faults
    ensures w.mishaps == w0.mishaps ==> w.mishaps == w1.mishaps && !Seen(w1, tag)
  {
    hide Wf, InRange, Seen, Limited;
    MayHoldSame(w0, w1);
    LimitedFrom(w0, w1, w, budget);
  }

  lemma LimitedFrom(w0: World, w1: World, w: World, budget: nat)
    requires Limited(w1, w, budget) && w1.limits == w0.limits && w1.now == w0.now
    ensures Limited(w0, w, budget)
  {
    var deadline: nat :| w1.now + budget <= deadline <= w.now + budget && Until(w1, w, deadline);
    assert Until(w0, w, deadline);
  }

  /** The three storage commands, as the raw methods fill them in. */
  lemma EncodesCommand(cbw: Cbw, dataOut: Option<seq<byte>>, c: Command, lba: u32, count: u16)
    requires |cbw.cb.reserved3| == 7 && cbw.signature == CBW_SIGN && cbw.flags == DirectionOf(cbw.cb.operCode)
    requires cbw.lun == 0 && cbw.cbLength == BlockLengthOf(cbw.cb.operCode)
    requires cbw.cb.address == ToBe32(lba) && cbw.cb.length == ToBe16(count)
    requires match c
             case Read(l, n, s) => l == lba && n == count && s == cbw.cb.reserved && cbw.cb.operCode == READ_LBA
                                   && cbw.dataTransferLength == count * SECTOR && dataOut.None?
             case Write(l, d, s) => l == lba && |d| == count * SECTOR && s == cbw.cb.reserved && count > 0
                                    && cbw.cb.operCode == WRITE_LBA
                                    && cbw.dataTransferLength == count * SECTOR && dataOut == Some(d)
             case Erase(l, n) => l == lba && n == count && cbw.cb.operCode == ERASE_LBA
                                 && cbw.dataTransferLength == 0 && dataOut.None?
             case Query(o, n) => lba == 0 && count == 0 && cbw.cb.operCode == o && n == cbw.dataTransferLength <= 12
                                 && ShortIn(o) && dataOut.None?
    ensures Encodes(cbw, dataOut, c)
  {
    hide AsBytes, ReadCbw;
    CommandRoundTrip(cbw, lba, count);
  }

  /** A read command, and what it must have brought when it succeeded. */
  ghost predicate Brought(w0: World, w: World, lba: u32, count: u16, subcode: byte, budget: nat, ok: bool, got: seq<byte>) {
    && Commanded(w0, w, Read(lba, count, subcode), budget, ok)
    && (ok && w.mishaps == w0.mishaps ==>
          InRange(Read(lba, count, subcode), w) && got == w.disk[lba * SECTOR..(lba + count) * SECTOR])
  }

  /** A sector read asks for exactly its answer: what was read is what the sectors hold. */
  lemma SectorAnswer(w0: World, w: World, lba: u32, count: u16, subcode: byte, budget: nat, ok: bool,
                     got: seq<byte>, length: nat)
    requires Commanded(w0, w, Read(lba, count, subcode), budget, ok) && |got| == count * SECTOR
    requires ok ==> count * SECTOR <= length <= |got|
    requires ok && w.mishaps == w0.mishaps && length == count * SECTOR ==>
      got[..length] == FullReply(Read(lba, count, subcode), w)
    ensures Brought(w0, w, lba, count, subcode, budget, ok, got)
  {
    hide Wf, Later, Torn, Patched, Clean;
    if ok { assert got[..length] == got; }
  }
}
