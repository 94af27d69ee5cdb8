/** What the host does to the link: taking packets, sending transfers, keeping its books. */
module LinkHost {
  import opened Bytes
  import opened Usb
  import opened Link

  /** Only the host's bookkeeping and the clock differ. */
  ghost predicate SameLink(w: World, v: World) {
    v == w.(now := v.now, faults := v.faults, mishaps := v.mishaps,
            issued := v.issued, times := v.times, budgets := v.budgets, limits := v.limits)
  }

  /** The host's own books, apart from the clock. */
  ghost predicate SameBooks(w: World, v: World) {
    v.issued == w.issued && v.times == w.times && v.budgets == w.budgets
  }

  /** The device's side of the world is untouched, except that more commands may have arrived. */
  ghost predicate SameDevice(w: World, v: World) {
    && v.mps == w.mps && v.erased == w.erased && v.answers == w.answers && v.disk == w.disk
    && w.accepted <= v.accepted && v.done == w.done && v.reply == w.reply && v.stream == w.stream
  }

  lemma EffectiveSame(w: World, v: World)
    requires w.done <= |w.accepted| && Effective(w) && SameDevice(w, v)
    ensures Effective(v)
  {
    if 0 < w.done && w.reply.status == 0 && w.reply.residue == 0 {
      var c := w.accepted[w.done - 1].command;
      assert v.accepted[w.done - 1] == w.accepted[w.done - 1];
      assert FullReply(c, v) == FullReply(c, w);
    }
  }

  lemma FrameKeeps(w: World, v: World)
    requires Wf(w) && SameDevice(w, v)
    requires v.taken <= |v.stream| && |v.times| == |v.budgets| == |v.issued| && ParserOk(v)
    ensures Wf(v)
  {
    EffectiveSame(w, v);
    forall j | 0 <= j < |w.stream| ensures PacketOk(v, v.stream[j]) && PacketCurrent(v, v.stream[j]) {
      assert PacketOk(w, w.stream[j]) && PacketCurrent(w, w.stream[j]);
    }
  }

  lemma MayHoldSame(w: World, v: World)
    requires SameDevice(w, v) && v.accepted == w.accepted
    ensures forall i, b :: MayHold(v, i, b) <==> MayHold(w, i, b)
  {
    forall i, b ensures MayHold(v, i, b) <==> MayHold(w, i, b) {
      assert Pending(v, i, b) <==> Pending(w, i, b);
    }
  }

  lemma SameLinkKeeps(w: World, v: World)
    requires Wf(w) && SameLink(w, v) && |v.issued| == |v.times| == |v.budgets|
    ensures Wf(v)
    ensures forall i, b :: MayHold(v, i, b) <==> MayHold(w, i, b)
  {
    FrameKeeps(w, v);
    MayHoldSame(w, v);
  }

  lemma TakenKeeps(w: World, v: World)
    requires Wf(w) && v == w.(taken := v.taken, faults := v.faults, now := v.now) && v.taken <= |w.stream|
    ensures Wf(v)
    ensures forall i, b :: MayHold(v, i, b) <==> MayHold(w, i, b)
  {
    FrameKeeps(w, v);
    MayHoldSame(w, v);
  }

  lemma ParserKeeps(w: World, p: Parser)
    requires Wf(w) && (p.Expecting? ==> WantsData(p.request))
    ensures Wf(w.(parser := p))
    ensures forall i, b :: MayHold(w.(parser := p), i, b) <==> MayHold(w, i, b)
  {
    FrameKeeps(w, w.(parser := p));
    MayHoldSame(w, w.(parser := p));
  }

  lemma AcceptKeeps(w: World, job: Job)
    requires Wf(w)
    ensures var v := w.(parser := Idle, accepted := w.accepted + [job]);
            && Wf(v)
            && forall i, b :: MayHold(v, i, b) ==> MayHold(w, i, b) || Stores(job.command, w.erased, i, b)
  {
    var v := w.(parser := Idle, accepted := w.accepted + [job]);
    FrameKeeps(w, v);
    forall i, b | MayHold(v, i, b) && !MayHold(w, i, b) ensures Stores(job.command, w.erased, i, b) {
      var k :| w.done <= k < |v.accepted| && Stores(v.accepted[k].command, w.erased, i, b);
    }
  }
}
