/** How a transaction can succeed with the wrong bytes, for every command that is still under way: the two mishaps the
    contracts set aside are no less than what they have to set aside. */
module Deceptions {
  import opened Bytes
  import opened Usb
  import opened Link
  import opened LinkSafety
  import opened LinkReply
  import opened Transactions
  import LinkHost

  lemma {:induction false} RunOn(w: World, a: seq<Event>, b: seq<Event>)
    ensures Run(w, a + b) == Run(Run(w, a), b)
    decreases |a|
  {
    hide Step;
    if a == [] {
      assert a + b == b;
    } else {
      assert (a + b)[0] == a[0] && (a + b)[1..] == a[1..] + b;
      RunOn(Step(w, a[0]), a[1..], b);
    }
  }

  lemma RunOne(w: World, e: Event)
    ensures Run(w, [e]) == Step(w, e)
  {
    hide Step;
    assert [e][1..] == [];
    assert Run(Step(w, e), []) == Step(w, e);
  }

  /** Only the device's progress differs. */
  ghost predicate SamePipe(w: World, v: World) {
    && v.mps == w.mps && v.disk == w.disk && v.accepted == w.accepted && v.stream == w.stream && v.taken == w.taken
    && v.answers == w.answers && v.erased == w.erased
  }

  /** The device forgets everything before command `k`. */
  lemma {:induction false} SkipTo(w: World, k: nat) returns (events: seq<Event>)
    requires Wf(w) && w.done <= k <= |w.accepted|
    ensures var v := Run(w, events); Wf(v) && SamePipe(w, v) && v.done == k && !v.reply.open
    decreases k - w.done, w.reply.open
  {
    hide Wf;
    if w.done == k && !w.reply.open { return []; }
    var e := if w.reply.open then Drop else Forget(w.disk);
    SkipStep(w, k, e);
    events := SkipTo(Step(w, e), k);
    RunOne(w, e);
    RunOn(w, [e], events);
    events := [e] + events;
  }

  lemma SkipStep(w: World, k: nat, e: Event)
    requires Wf(w) && w.done <= k <= |w.accepted| && (w.done < k || w.reply.open)
    requires e == if w.reply.open then Drop else Forget(w.disk)
    ensures var v := Step(w, e);
            && Wf(v) && SamePipe(w, v) && w.done <= v.done <= k && !v.reply.open
            && (w.reply.open ==> v.done == w.done) && (!w.reply.open ==> v.done == w.done + 1)
  {
    StepKeeps(w, e);
  }

  /** All of a data stage is sent, in full packets but the last. */
  lemma {:induction false} SendStage(w: World) returns (events: seq<Event>, ps: seq<Packet>)
    requires Wf(w) && w.reply.open
    ensures var v := Run(w, events);
            && Wf(v) && v.stream == w.stream + ps && v.reply == w.reply.(sent := |w.reply.data|)
            && v == w.(stream := v.stream, reply := v.reply)
    ensures FullButLast(w.mps, ps) && Gather(ps) == w.reply.data[w.reply.sent..]
    ensures w.reply.sent == |w.reply.data| ==> ps == []
    decreases |w.reply.data| - w.reply.sent
  {
    hide Wf, Step;
    StageSent(w);
    if w.reply.sent == |w.reply.data| { return [], []; }
    var v := Step(w, Send);
    var p := v.stream[|w.stream|];
    events, ps := SendStage(v);
    RunOne(w, Send);
    RunOn(w, [Send], events);
    events := [Send] + events;
    assert ([p] + ps)[1..] == ps;
    SliceFront(w.reply.data, w.reply.sent, v.reply.sent, Gather(ps));
    FullFirst(w.mps, p, ps);
    assert w.stream + [p] + ps == w.stream + ([p] + ps);
    ps := [p] + ps;
  }

  lemma FullFirst(mps: nat, p: Packet, ps: seq<Packet>)
    requires FullButLast(mps, ps) && (|p.bytes| == mps || ps == [])
    ensures FullButLast(mps, [p] + ps)
  {
  }

  lemma StageSent(w: World)
    requires Wf(w) && w.reply.open
    ensures w.reply.sent <= |w.reply.data|
    ensures w.reply.sent == |w.reply.data| ==> w.reply == w.reply.(sent := |w.reply.data|)
    ensures w.reply.sent < |w.reply.data| ==>
      var v := Step(w, Send);
      && Wf(v) && |v.stream| == |w.stream| + 1
      && v == w.(stream := v.stream, reply := v.reply) && v.stream == w.stream + [v.stream[|w.stream|]]
      && v.reply == w.reply.(sent := v.reply.sent) && w.reply.sent < v.reply.sent <= |w.reply.data|
      && var p := v.stream[|w.stream|];
         && p.bytes == w.reply.data[w.reply.sent..v.reply.sent]
         && (|p.bytes| == w.mps || v.reply.sent == |w.reply.data|)
  {
    StepKeeps(w, Send);
  }

  lemma StatusSent(w: World)
    requires Wf(w) && w.reply.open && w.reply.sent == |w.reply.data|
    ensures w.done > 0 && w.done <= |w.accepted|
    ensures var v := Step(w, Send);
            var csw := Csw(CSW_SIGN, w.accepted[w.done - 1].tag, w.reply.residue, w.reply.status);
            && Wf(v) && v == w.(stream := v.stream, reply := v.reply) && v.reply == w.reply.(open := false)
            && v.stream == w.stream + [Status(w.done - 1, |w.reply.data|, CswBytes(csw), csw)]
  {
    StepKeeps(w, Send);
  }

  /** Some packets `ps` of data and then a status under `tag`: what the host takes for the answer. */
  lemma HostTakes(w: World, lo: nat, ps: seq<Packet>, p: Packet, tag: u32, residue: u32, wanted: nat)
    requires lo <= |w.stream| && w.stream[lo..] == ps + [p]
    requires FullButLast(w.mps, ps) && wanted <= |Gather(ps)|
    requires p.bytes == CswBytes(Csw(CSW_SIGN, tag, residue, 0))
    ensures var u, mid := w.(taken := |w.stream|), lo + |ps|;
            && Taken(u, lo, mid, tag, wanted) && Gather(Window(u, lo, mid)) == Gather(ps)
            && ToldResidue(u, mid) == residue
            && (|Gather(ps)| == wanted ==> Ended(u.mps, Window(u, lo, mid), wanted))
  {
    hide CswBytes, ParseCsw;
    CswRoundTrip(Csw(CSW_SIGN, tag, residue, 0));
    var u, mid := w.(taken := |w.stream|), lo + |ps|;
    assert |w.stream| == lo + |ps| + 1;
    assert Window(u, lo, mid) == w.stream[lo..][..|ps|] == ps;
    assert Window(u, mid, u.taken) == w.stream[lo..][|ps|..] == [p];
    assert [p][1..] == [];
    assert Gather([p]) == p.bytes + Gather([]) == CswBytes(Csw(CSW_SIGN, tag, residue, 0));
  }

  /** The wrapper of a command that reads sectors. */
  function ReadWrapper(tag: u32, lba: u32, count: u16): Cbw
    requires count * SECTOR < 0x1_0000_0000
  {
    Cbw(CBW_SIGN, tag, count * SECTOR, DirectionOf(READ_LBA), 0, BlockLengthOf(READ_LBA),
        Cbwcb(READ_LBA, 0, ToBe32(lba), 0, ToBe16(count), Zeros(7)))
  }

  lemma WrapperDelivered(w: World, tag: u32, lba: u32, count: u16)
    requires w.parser.Idle?
    ensures |ReadWrapper(tag, lba, count).cb.reserved3| == 7
    ensures Deliver(w, AsBytes(ReadWrapper(tag, lba, count)))
         == w.(accepted := w.accepted + [Job(tag, Read(lba, count, 0))])
  {
    hide AsBytes, ReadCbw, ToBe32, ToBe16;
    var cbw := ReadWrapper(tag, lba, count);
    CommandRoundTrip(cbw, lba, count);
    assert ReadCbw(AsBytes(cbw)) == Some(Request(tag, count * SECTOR, true, 0, 10, READ_LBA, 0, lba, count));
  }

  /** An earlier read is still under way, on a link whose pipe the host has emptied: it has not been taken up, or
      it has and its answer is still to be sent. */
  ghost predicate Outstanding(w: World, k: nat, tag: u32, lba: u32, count: u16, subcode: byte) {
    && Wf(w) && w.parser.Idle? && w.taken == |w.stream|
    && k < |w.accepted| && w.accepted[k] == Job(tag, Read(lba, count, subcode))
    && 0 < count && (lba + count) * SECTOR <= |w.disk|
    && (w.done <= k || Unanswered(w, k, lba, count))
  }

  ghost predicate Unanswered(w: World, k: nat, lba: u32, count: u16)
    requires (lba + count) * SECTOR <= |w.disk|
  {
    w.done == k + 1 && w.reply == Reply(SectorsOf(w, lba, count), 0, 0, 0, true)
  }

  function SectorsOf(w: World, lba: u32, count: u16): (b: seq<byte>)
    requires (lba + count) * SECTOR <= |w.disk|
    ensures |b| == count * SECTOR
  {
    w.disk[lba * SECTOR..(lba + count) * SECTOR]
  }

  /** The answer to command `k`, up to its status. */
  lemma AnswerSent(w: World, k: nat, lba: u32, count: u16, subcode: byte) returns (events: seq<Event>, ps: seq<Packet>)
    requires Wf(w) && k < |w.accepted| && w.accepted[k].command == Read(lba, count, subcode)
    requires (lba + count) * SECTOR <= |w.disk| && (w.done <= k || Unanswered(w, k, lba, count))
    ensures var v := Run(w, events);
            && Wf(v) && v.stream == w.stream + ps && v.disk == w.disk && v.accepted == w.accepted && v.mps == w.mps
            && v.done == k + 1 && v.reply == Reply(SectorsOf(w, lba, count), 0, 0, count * SECTOR, true)
    ensures FullButLast(w.mps, ps) && Gather(ps) == SectorsOf(w, lba, count)
  {
    hide Wf, Step;
    if w.done > k {
      events, ps := SendStage(w);
      assert w.reply.data[0..] == w.reply.data;
      return;
    }
    var skip := SkipTo(w, k);
    var w1 := Run(w, skip);
    ExecuteRead(w1, lba, count, subcode);
    var w2 := Step(w1, Execute);
    var send;
    send, ps := SendStage(w2);
    RunOne(w1, Execute);
    RunOn(w1, [Execute], send);
    RunOn(w, skip, [Execute] + send);
    events := skip + ([Execute] + send);
    assert w2.reply.data[0..] == w2.reply.data;
  }

  lemma ExecuteRead(w: World, lba: u32, count: u16, subcode: byte)
    requires Wf(w) && !w.reply.open && w.done < |w.accepted|
    requires w.accepted[w.done].command == Read(lba, count, subcode) && (lba + count) * SECTOR <= |w.disk|
    ensures var v := Step(w, Execute);
            && Wf(v) && v == w.(done := w.done + 1, reply := v.reply)
            && v.reply == Reply(SectorsOf(w, lba, count), 0, 0, 0, true)
  {
    StepKeeps(w, Execute);
    AtLeastOnePacket(w.mps);
    AnswersInFull(w);
    assert Overlay(w.disk, map[]) == w.disk;
  }

  lemma AtLeastOnePacket(mps: nat)
    requires mps > 0 && mps % 64 == 0
    ensures mps >= 64
  {
  }

  /** A tag that a read still under way carries: the next read of as many sectors can be made to return, with a zero
      status and a zero residue, what the earlier one asked for, before it is even looked at. */
  lemma RepeatedTagDeceives(w: World, k: nat, tag: u32, lba: u32, count: u16, subcode: byte, other: u32)
    returns (events: seq<Event>, mid: nat)
    requires Outstanding(w, k, tag, lba, count, subcode)
    ensures Seen(w, tag)
    ensures |ReadWrapper(tag, other, count).cb.reserved3| == 7
    ensures var asked := Deliver(w, AsBytes(ReadWrapper(tag, other, count)));
            var v := Run(asked, events);
            var u := v.(taken := |v.stream|);
            && asked.accepted == w.accepted + [Job(tag, Read(other, count, 0))]
            && v.done < |v.accepted|
            && Taken(u, w.taken, mid, tag, count * SECTOR) && Ended(u.mps, Window(u, w.taken, mid), count * SECTOR)
            && Gather(Window(u, w.taken, mid)) == SectorsOf(w, lba, count)
            && ToldResidue(u, mid) == 0
  {
    hide Wf, Step, Taken, ToldResidue, CswBytes, AsBytes, ReadWrapper;
    StillSeen(w, k, tag);
    WrapperDelivered(w, tag, other, count);
    var asked := Deliver(w, AsBytes(ReadWrapper(tag, other, count)));
    AskedWf(w, Job(tag, Read(other, count, 0)));
    var ps;
    events, ps := AnswerSent(asked, k, lba, count, subcode);
    var v := Run(asked, events);
    StatusSent(v);
    RunOne(v, Send);
    RunOn(asked, events, [Send]);
    events := events + [Send];
    var last := Step(v, Send);
    assert last.stream[w.taken..] == ps + [last.stream[|last.stream| - 1]];
    HostTakes(last, w.taken, ps, last.stream[|last.stream| - 1], tag, 0, count * SECTOR);
    mid := w.taken + |ps|;
  }

  lemma StillSeen(w: World, k: nat, tag: u32)
    requires w.taken == |w.stream| && k < |w.accepted| && w.accepted[k].tag == tag
    requires w.done <= k || (w.done == k + 1 && w.reply.open)
    ensures Seen(w, tag)
  {
  }

  lemma AskedWf(w: World, job: Job)
    requires Wf(w) && w.parser.Idle?
    ensures Wf(w.(accepted := w.accepted + [job]))
  {
    LinkHost.AcceptKeeps(w, job);
  }

  /** Distinct tags do not help against an answer that breaks off before its status: the next read of as many sectors
      can be made to return it, with a zero status, if the device then sends none of the data it was asked for. The
      residue says so, but nobody looks. */
  lemma ShortAnswerDeceives(w: World, k: nat, tag: u32, lba: u32, count: u16, subcode: byte, own: u32, other: u32)
    returns (events: seq<Event>, mid: nat)
    requires Outstanding(w, k, tag, lba, count, subcode) && !Seen(w, own)
    ensures |ReadWrapper(own, other, count).cb.reserved3| == 7
    ensures var asked := Deliver(w, AsBytes(ReadWrapper(own, other, count)));
            var v := Run(asked, events);
            var u := v.(taken := |v.stream|);
            && asked.accepted == w.accepted + [Job(own, Read(other, count, 0))]
            && Taken(u, w.taken, mid, own, count * SECTOR) && Ended(u.mps, Window(u, w.taken, mid), count * SECTOR)
            && Gather(Window(u, w.taken, mid)) == SectorsOf(w, lba, count)
            && ToldResidue(u, mid) == count * SECTOR
  {
    hide Wf, Step, Taken, ToldResidue, CswBytes, AsBytes, ReadWrapper;
    WrapperDelivered(w, own, other, count);
    var asked := Deliver(w, AsBytes(ReadWrapper(own, other, count)));
    AskedWf(w, Job(own, Read(other, count, 0)));
    var first, ps := AnswerSent(asked, k, lba, count, subcode);
    var w1 := Run(asked, first);
    var skip := SkipTo(w1, |asked.accepted| - 1);
    var w2 := Run(w1, skip);
    var none := Falter(0, [], w2.disk, 0);
    AnswersNothing(w2, own, other, count);
    var w3 := Step(w2, none);
    StatusSent(w3);
    ThreeParts(asked, first, skip, none);
    events := first + (skip + [none, Send]);
    var last := Step(w3, Send);
    assert last.stream[w.taken..] == ps + [last.stream[|last.stream| - 1]];
    HostTakes(last, w.taken, ps, last.stream[|last.stream| - 1], own, count * SECTOR, count * SECTOR);
    mid := w.taken + |ps|;
  }

  lemma ThreeParts(w: World, a: seq<Event>, b: seq<Event>, e: Event)
    ensures Run(w, a + (b + [e, Send])) == Step(Step(Run(Run(w, a), b), e), Send)
  {
    hide Step;
    RunOn(w, a, b + [e, Send]);
    RunOn(Run(w, a), b, [e, Send]);
    assert [e, Send] == [e] + [Send];
    var v := Run(Run(w, a), b);
    RunOn(v, [e], [Send]);
    RunOne(v, e);
    RunOne(Step(v, e), Send);
  }

  lemma AnswersNothing(w: World, tag: u32, lba: u32, count: u16)
    requires Wf(w) && !w.reply.open && w.done == |w.accepted| - 1 && 0 < count
    requires w.accepted[w.done] == Job(tag, Read(lba, count, 0))
    ensures var v := Step(w, Falter(0, [], w.disk, 0));
            && Wf(v) && v.stream == w.stream && v.done == |v.accepted| && v.accepted == w.accepted
            && v.reply == Reply([], 0, count * SECTOR, 0, true) && v.mps == w.mps
  {
    StepKeeps(w, Falter(0, [], w.disk, 0));
    ZeroRest(w.mps);
  }

  lemma ZeroRest(mps: nat)
    requires mps > 0
    ensures StageOk(mps, [])
  {
  }
}
