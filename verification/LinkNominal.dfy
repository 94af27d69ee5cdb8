/** When nothing misbehaves: a command sent over a clean link is answered in full and in order. */
module LinkNominal {
  import opened Bytes
  import opened Usb
  import opened Link
  import opened LinkSafety
  import opened LinkReply

  /** Since the newest command (number `n`) arrived at a clean link, with `base` packets sent before it,
      nothing has gone wrong. */
  ghost predicate Nominal(w: World, base: nat, n: nat) {
    && w.parser.Idle? && w.mps > 0
    && |w.accepted| == n + 1 && base <= |w.stream| && n <= w.done <= n + 1 && w.reply.sent <= |w.reply.data|
    && (w.done == n ==> |w.stream| == base && !w.reply.open)
    && (w.done == n + 1 ==> Answering(w, base))
  }

  ghost predicate Answering(w: World, base: nat)
    requires 0 < w.done <= |w.accepted|
  {
    && w.reply.status == 0 && w.reply.residue == 0 && |w.reply.data| == DataIn(w.accepted[w.done - 1].command)
    && (forall j | base <= j < |w.stream| :: w.stream[j].serial == w.done - 1 && Whole(w, w.stream[j]))
    && (|w.stream| > base ==> w.stream[base].offset == 0)
    && (|w.stream| == base ==> w.reply.open && w.reply.sent == 0)
  }

  ghost predicate Whole(w: World, p: Packet) {
    p.Data? ==> 0 < |p.bytes| && (|p.bytes| == w.mps || p.offset + |p.bytes| == |w.reply.data|)
  }

  lemma ExecuteNominal(w: World, base: nat, n: nat)
    requires Nominal(w, base, n)
    ensures Nominal(Step(w, Execute), base, n)
  {
  }

  lemma AppendAnswering(w: World, v: World, p: Packet, base: nat)
    requires 0 < w.done <= |w.accepted| && base <= |w.stream| && Answering(w, base)
    requires v.stream == w.stream + [p] && v.done == w.done && v.accepted == w.accepted && v.mps == w.mps
    requires v.reply.data == w.reply.data && v.reply.status == w.reply.status && v.reply.residue == w.reply.residue
    requires p.serial == w.done - 1 && p.offset == w.reply.sent && Whole(w, p)
    ensures Answering(v, base)
  {
    forall j | base <= j < |v.stream| ensures v.stream[j].serial == v.done - 1 && Whole(v, v.stream[j]) {
      if j < |w.stream| {
        assert v.stream[j] == w.stream[j] && Whole(w, w.stream[j]);
      }
    }
  }

  lemma SendNominal(w: World, base: nat, n: nat)
    requires Nominal(w, base, n)
    ensures Nominal(Step(w, Send), base, n)
  {
    var v := Step(w, Send);
    if v != w {
      AppendAnswering(w, v, v.stream[|w.stream|], base);
    }
  }

  lemma StepNominal(w: World, ev: Event, base: nat, n: nat)
    requires Nominal(w, base, n) && Step(w, ev).faults == w.faults
    ensures Nominal(Step(w, ev), base, n)
  {
    match ev
    case Execute => ExecuteNominal(w, base, n);
    case Send => SendNominal(w, base, n);
    case _ =>
  }

  lemma {:induction false} RunNominal(w: World, events: seq<Event>, base: nat, n: nat)
    requires Wf(w) && Nominal(w, base, n) && Run(w, events).faults == w.faults
    ensures Nominal(Run(w, events), base, n)
    decreases |events|
  {
    if events != [] {
      var v := Step(w, events[0]);
      StepKeeps(w, events[0]);
      RunKeeps(v, events[1..]);
      StepNominal(w, events[0], base, n);
      RunNominal(v, events[1..], base, n);
    }
  }

  lemma NominalSame(w: World, v: World, base: nat, n: nat)
    requires Nominal(w, base, n)
    requires v.mps == w.mps && v.parser == w.parser && v.accepted == w.accepted && v.done == w.done
    requires v.reply == w.reply && v.stream == w.stream
    ensures Nominal(v, base, n)
  {
    if w.done == n + 1 {
      forall j | base <= j < |w.stream| ensures Whole(v, v.stream[j]) {
        assert Whole(w, w.stream[j]);
      }
    }
  }

  lemma {:induction false} DataLength(w: World, lo: nat, hi: nat)
    requires lo < hi <= |w.stream| && Chained(w.stream)
    requires forall j | lo <= j < hi :: w.stream[j].Data? && w.stream[j].serial == w.stream[lo].serial
    ensures |Gather(Window(w, lo, hi))| == w.stream[hi - 1].offset + |w.stream[hi - 1].bytes| - w.stream[lo].offset
    decreases hi - lo
  {
    WindowFrom(w, lo, hi);
    if lo + 1 < hi {
      assert Follows(w.stream[lo], w.stream[lo + 1]);
      DataLength(w, lo + 1, hi);
    } else {
      assert Window(w, hi, hi) == [];
    }
  }

  /** A status wrapper of the newest command ends the stream. */
  lemma StatusEnds(w: World, base: nat, n: nat, j: nat)
    requires StreamOk(w) && Nominal(w, base, n) && base <= j < |w.stream| && w.stream[j].Status?
    ensures w.done == n + 1 && j == |w.stream| - 1
    ensures w.stream[j].offset == |w.reply.data| && w.stream[j].csw.status == 0 && w.stream[j].csw.dataResidue == 0
    ensures w.stream[j].csw.tag == w.accepted[n].tag
  {
    assert j + 1 < |w.stream| ==> Follows(w.stream[j], w.stream[j + 1]);
    assert PacketOk(w, w.stream[j]) && PacketCurrent(w, w.stream[j]);
  }

  lemma GatherLast(w: World, lo: nat, hi: nat)
    requires lo < hi <= |w.stream|
    ensures |Gather(Window(w, lo, hi))| == |Gather(Window(w, lo, hi - 1))| + |w.stream[hi - 1].bytes|
    decreases hi - lo
  {
    WindowFrom(w, lo, hi);
    if lo + 1 < hi {
      WindowFrom(w, lo, hi - 1);
      GatherLast(w, lo + 1, hi);
    } else {
      assert Window(w, hi, hi) == [] && Window(w, lo, lo) == [];
    }
  }

  lemma OnlyLastIsStatus(w: World, base: nat, n: nat, hi: nat)
    requires StreamOk(w) && Nominal(w, base, n) && base < hi <= |w.stream|
    ensures forall k | base <= k < hi - 1 :: w.stream[k].Data?
  {
    forall k | base <= k < hi - 1 ensures w.stream[k].Data? {
      if w.stream[k].Status? { StatusEnds(w, base, n, k); }
    }
  }

  /** A read that took in the status wrapper got 13 bytes more than the data stage has. */
  lemma StatusIncluded(w: World, base: nat, n: nat, hi: nat)
    requires StreamOk(w) && Nominal(w, base, n) && base < hi - 1 < |w.stream| && w.stream[hi - 1].Status?
    ensures |Gather(Window(w, base, hi))| == DataIn(w.accepted[n].command) + CSW_LENGTH
    ensures |w.stream[hi - 2].bytes| <= DataIn(w.accepted[n].command)
  {
    StatusEnds(w, base, n, hi - 1);
    OnlyLastIsStatus(w, base, n, hi);
    DataLength(w, base, hi - 1);
    GatherLast(w, base, hi);
    assert Follows(w.stream[hi - 2], w.stream[hi - 1]);
    assert PacketOk(w, w.stream[hi - 1]) && PacketCurrent(w, w.stream[hi - 2]);
  }

  /** The read of a data stage cannot run into the status wrapper. */
  lemma StageIsData(w: World, base: nat, n: nat, hi: nat, room: nat)
    requires StreamOk(w) && Nominal(w, base, n) && base < hi <= |w.stream|
    requires FullButLast(w.mps, Window(w, base, hi)) && |Gather(Window(w, base, hi))| <= room
    requires 0 < DataIn(w.accepted[n].command)
    requires room == DataIn(w.accepted[n].command) || DataIn(w.accepted[n].command) < 64
    ensures forall j | base <= j < hi :: w.stream[j].Data?
  {
    OnlyLastIsStatus(w, base, n, hi);
    assert base < hi - 1 ==> |Window(w, base, hi)[hi - 2 - base].bytes| == w.mps;
    if w.stream[hi - 1].Status? {
      if base < hi - 1 {
        StatusIncluded(w, base, n, hi);
      } else {
        StatusEnds(w, base, n, base);
      }
    }
  }

  lemma StageComplete(w: World, base: nat, n: nat, hi: nat, room: nat)
    requires StreamOk(w) && Nominal(w, base, n) && base <= hi <= |w.stream|
    requires FullButLast(w.mps, Window(w, base, hi)) && |Gather(Window(w, base, hi))| <= room
    requires Ended(w.mps, Window(w, base, hi), room)
    requires var length := DataIn(w.accepted[n].command); 0 < length && (room == length || length < 64 <= room)
    ensures base < hi && w.done == n + 1 && w.stream[hi - 1].Data?
    ensures w.stream[hi - 1].offset + |w.stream[hi - 1].bytes| == |w.reply.data|
    ensures |Gather(Window(w, base, hi))| == DataIn(w.accepted[n].command)
  {
    assert |Window(w, base, hi)| == hi - base;
    StageIsData(w, base, n, hi, room);
    DataLength(w, base, hi);
    var p := w.stream[hi - 1];
    assert Whole(w, p) && PacketCurrent(w, p);
    assert Window(w, base, hi)[hi - 1 - base] == p;
  }

  lemma StatusComplete(w: World, base: nat, n: nat, lo: nat, hi: nat)
    requires StreamOk(w) && Nominal(w, base, n) && base <= lo <= hi <= |w.stream|
    requires FullButLast(w.mps, Window(w, lo, hi)) && Ended(w.mps, Window(w, lo, hi), CSW_LENGTH)
    requires if lo == base then DataIn(w.accepted[n].command) == 0
             else w.stream[lo - 1].Data? && w.stream[lo - 1].offset + |w.stream[lo - 1].bytes| == |w.reply.data|
    ensures hi == lo + 1 && w.stream[lo].Status? && w.stream[lo].csw.status == 0 && w.stream[lo].csw.dataResidue == 0
    ensures w.stream[lo].csw.tag == w.accepted[n].tag
    ensures Gather(Window(w, lo, hi)) == w.stream[lo].bytes
  {
    assert |Window(w, lo, hi)| == hi - lo;
    assert lo < hi;
    var q := w.stream[lo];
    assert PacketCurrent(w, q) && PacketOk(w, q) && Whole(w, q);
    assert lo > base ==> Follows(w.stream[lo - 1], q);
    StatusEnds(w, base, n, lo);
    WindowFrom(w, lo, hi);
    assert Window(w, hi, hi) == [];
  }

  /** What a bulk read that met no trouble adds. */
  ghost predicate Smooth(w: World, v: World, room: nat) {
    && w.taken <= v.taken <= |v.stream|
    && FullButLast(v.mps, Window(v, w.taken, v.taken)) && |Gather(Window(v, w.taken, v.taken))| <= room
    && Ended(v.mps, Window(v, w.taken, v.taken), room)
    && forall base, n :: Nominal(w, base, n) ==> Nominal(v, base, n)
  }
}
