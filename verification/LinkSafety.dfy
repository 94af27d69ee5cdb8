/** The link keeps its invariant under every device step, and the device alone never gives a byte of the
    disk a value that no command under way wants to store there. */
module LinkSafety {
  import opened Bytes
  import opened Usb
  import opened Link

  lemma ChainedAppend(s: seq<Packet>, q: Packet)
    requires Chained(s)
    requires if |s| == 0 then q.offset == 0 else Follows(s[|s| - 1], q)
    ensures Chained(s + [q])
  {
  }

  lemma PendingShrinks(w: World, v: World)
    requires v.accepted == w.accepted && v.erased == w.erased && v.done == w.done + 1 <= |w.accepted|
    requires TornBetween(w.disk, Effect(w.accepted[w.done].command, w.erased), v.disk)
    ensures forall i, b :: MayHold(v, i, b) ==> MayHold(w, i, b)
  {
    forall i, b | MayHold(v, i, b) ensures MayHold(w, i, b) {
      if !Pending(v, i, b) && v.disk[i] != w.disk[i] {
        assert Stores(w.accepted[w.done].command, w.erased, i, b);
      }
    }
  }

  lemma TakenUpKeeps(w: World, v: World)
    requires Wf(w) && Ready(w)
    requires v == w.(disk := v.disk, done := w.done + 1, reply := v.reply, faults := v.faults) && w.faults <= v.faults
    requires TornBetween(w.disk, Effect(w.accepted[w.done].command, w.erased), v.disk)
    requires v.reply.sent == 0 && StageOk(w.mps, v.reply.data)
    requires Accounted(w.accepted[w.done].command, v.reply)
    requires Effective(v)
    ensures Wf(v) && Drift(w, v)
  {
    PendingShrinks(w, v);
    assert v.reply.data[0..] == v.reply.data;
    forall j | 0 <= j < |v.stream| ensures PacketOk(v, v.stream[j]) && PacketCurrent(v, v.stream[j]) {
      assert PacketOk(w, w.stream[j]);
    }
  }

  lemma ExecuteKeeps(w: World)
    requires Wf(w)
    ensures Wf(Step(w, Execute)) && Drift(w, Step(w, Execute))
  {
    var v := Step(w, Execute);
    if v != w {
      var c := w.accepted[w.done].command;
      assert FullReply(c, v) == FullReply(c, w);
      TakenUpKeeps(w, v);
    }
  }

  lemma FailureKeeps(w: World, ev: Event)
    requires Wf(w) && (ev.Falter? || ev.Forget?)
    ensures Wf(Step(w, ev)) && Drift(w, Step(w, ev))
  {
    var v := Step(w, ev);
    if v != w {
      TakenUpKeeps(w, v);
    }
  }

  /** Sending and giving up leave the disk, and what may become of it, alone. */
  lemma ReplyOnly(w: World, v: World)
    requires v == w.(stream := v.stream, reply := v.reply, faults := v.faults)
    ensures forall i, b :: MayHold(v, i, b) <==> MayHold(w, i, b)
  {
    forall i, b ensures MayHold(v, i, b) <==> MayHold(w, i, b) {
      assert Pending(v, i, b) <==> Pending(w, i, b);
    }
  }

  lemma EffectiveKept(w: World, v: World)
    requires v == w.(stream := v.stream, reply := v.reply, faults := v.faults) && Effective(w)
    requires v.reply == w.reply.(sent := v.reply.sent, open := v.reply.open)
    ensures Effective(v)
  {
    if 0 < w.done <= |w.accepted| && v.reply.status == 0 && v.reply.residue == 0 {
      var c := w.accepted[w.done - 1].command;
      assert FullReply(c, v) == FullReply(c, w);
    }
  }

  lemma SentKeeps(w: World, p: Packet, v: World)
    requires Wf(w)
    requires v.stream == w.stream + [p] && v.reply == w.reply.(sent := v.reply.sent, open := v.reply.open)
    requires v == w.(stream := v.stream, reply := v.reply, faults := v.faults) && w.faults <= v.faults
    requires w.reply.open && p.serial == w.done - 1 && p.offset == w.reply.sent
    requires ReplyOk(v) && TailOk(v) && PacketOk(v, p) && PacketCurrent(v, p)
    ensures Wf(v) && Drift(w, v)
  {
    hide MayHold, Effective;
    ChainedAppend(w.stream, p);
    forall j | 0 <= j < |v.stream| ensures PacketOk(v, v.stream[j]) && PacketCurrent(v, v.stream[j]) {
      if j < |w.stream| {
        assert v.stream[j] == w.stream[j];
        assert PacketOk(w, w.stream[j]) && PacketCurrent(w, w.stream[j]);
      }
    }
    EffectiveKept(w, v);
    ReplyOnly(w, v);
  }

  /** No packet of a data stage looks like a status wrapper if its last one does not. */
  lemma NextPacket(mps: nat, rest: seq<byte>)
    requires 0 < |rest| && mps >= 64 && StageOk(mps, rest)
    ensures var n := if |rest| < mps then |rest| else mps;
            !LooksLikeStatus(rest[..n]) && StageOk(mps, rest[n..])
  {
    hide ParseCsw;
    if |rest| >= mps {
      RestOfDivision(|rest|, mps);
      if |rest| - mps >= CSW_LENGTH {
        assert rest[mps..][|rest| - mps - CSW_LENGTH..] == rest[|rest| - CSW_LENGTH..];
      }
    } else {
      Division(|rest|, mps, 0, |rest|);
      assert rest[..|rest|] == rest == rest[0..];
    }
  }

  lemma RestOfDivision(a: nat, m: nat)
    requires 0 < m <= a
    ensures (a - m) % m == a % m
  {
    var q, r := a / m, a % m;
    assert a == q * m + r;
    Product(q, m);
    assert (q - 1) * m == q * m - m;
    if q > 0 { Division(a - m, m, q - 1, r); }
  }

  lemma SendsData(w: World)
    requires Wf(w) && w.reply.open && w.reply.sent < |w.reply.data|
    ensures Wf(Step(w, Send)) && Drift(w, Step(w, Send))
  {
    hide LooksLikeStatus;
    var rest := w.reply.data[w.reply.sent..];
    NextPacket(w.mps, rest);
    var v := Step(w, Send);
    var p := v.stream[|w.stream|];
    assert p.bytes == rest[..|p.bytes|] && w.reply.data[v.reply.sent..] == rest[|p.bytes|..];
    assert v.stream[|v.stream| - 1] == p;
    SentKeeps(w, p, v);
  }

  lemma DropKeeps(w: World)
    requires Wf(w)
    ensures Wf(Step(w, Drop)) && Drift(w, Step(w, Drop))
  {
    hide MayHold, Effective;
    var v := Step(w, Drop);
    forall j | 0 <= j < |v.stream| ensures PacketOk(v, v.stream[j]) && PacketCurrent(v, v.stream[j]) {
      assert PacketOk(w, w.stream[j]) && PacketCurrent(w, w.stream[j]);
    }
    EffectiveKept(w, v);
    ReplyOnly(w, v);
  }

  lemma SendsStatus(w: World)
    requires Wf(w) && w.reply.open && w.reply.sent == |w.reply.data|
    ensures Wf(Step(w, Send)) && Drift(w, Step(w, Send))
    ensures Wf(Step(w, SendEmpty)) && Drift(w, Step(w, SendEmpty))
  {
    var v := Step(w, Send);
    assert v.stream[|v.stream| - 1] == v.stream[|w.stream|];
    SentKeeps(w, v.stream[|w.stream|], v);
    var u := Step(w, SendEmpty);
    assert u.stream[|u.stream| - 1] == u.stream[|w.stream|];
    SentKeeps(w, u.stream[|w.stream|], u);
  }

  lemma StepKeeps(w: World, ev: Event)
    requires Wf(w)
    ensures Wf(Step(w, ev)) && Drift(w, Step(w, ev)) && Step(w, ev).taken == w.taken
    ensures Step(w, ev).now == w.now && Step(w, ev).limits == w.limits
  {
    if ev.Send? || ev.SendEmpty? {
      if w.reply.open {
        if w.reply.sent < |w.reply.data| {
          SendsData(w);
        } else {
          SendsStatus(w);
        }
      }
    } else if ev.Execute? {
      ExecuteKeeps(w);
    } else if ev.Drop? {
      DropKeeps(w);
    } else {
      FailureKeeps(w, ev);
    }
  }

  lemma DriftTransitive(w0: World, w1: World, w2: World)
    requires Drift(w0, w1) && Drift(w1, w2)
    ensures Drift(w0, w2)
  {
  }

  /** Whatever the device does, in whatever order, the invariant of the link stands. */
  lemma {:induction false} RunKeeps(w: World, events: seq<Event>)
    requires Wf(w)
    ensures Wf(Run(w, events)) && Drift(w, Run(w, events)) && Run(w, events).taken == w.taken
    ensures Run(w, events).now == w.now && Run(w, events).limits == w.limits
    decreases |events|
  {
    if events != [] {
      StepKeeps(w, events[0]);
      RunKeeps(Step(w, events[0]), events[1..]);
      DriftTransitive(w, Step(w, events[0]), Run(w, events));
    }
  }

  /** With every command answered in full, the device has nothing to do. */
  ghost predicate Quiet(w: World) {
    w.done == |w.accepted| && !w.reply.open
  }

  lemma {:induction false} RunQuiet(w: World, events: seq<Event>)
    requires Quiet(w)
    ensures Run(w, events) == w
    decreases |events|
  {
    if events != [] {
      RunQuiet(w, events[1..]);
    }
  }

  /** A device that has just been plugged in. */
  function PluggedIn(mps: nat, erased: byte, answers: map<byte, seq<byte>>, disk: seq<byte>): World {
    World(mps, erased, answers, disk, Idle, [], 0, Reply([], 0, 0, 0, false), [], 0, 0, 0, 0, [], [], [], [])
  }

  /** It satisfies the invariant and is clean, and whatever happens on its own, nothing does. */
  lemma Plug(mps: nat, erased: byte, answers: map<byte, seq<byte>>, disk: seq<byte>, events: seq<Event>)
    requires 0 < mps && mps % 64 == 0 && |disk| <= 0x1_0000_0000 * SECTOR
    ensures var w := PluggedIn(mps, erased, answers, disk); Wf(w) && Clean(w) && Run(w, events) == w
  {
    var w := PluggedIn(mps, erased, answers, disk);
    RunQuiet(w, events);
  }

  /** A device can always carry out a command in its range and answer it in full: no packet of such an answer is
      as long as a status wrapper. */
  lemma AnswersInFull(w: World)
    requires w.mps >= 64 && w.mps % 64 == 0 && Ready(w) && InRange(w.accepted[w.done].command, w)
    requires var c := w.accepted[w.done].command; c.Query? ==> c.length <= 12
    ensures var c, v := w.accepted[w.done].command, Step(w, Execute);
            && v.done == w.done + 1 && v.faults == w.faults && v.reply == Reply(FullReply(c, w), 0, 0, 0, true)
            && v.disk == Overlay(w.disk, Effect(c, w.erased))
  {
    var c := w.accepted[w.done].command;
    AnswerLength(w.mps, c);
  }

  lemma AnswerLength(mps: nat, c: Command)
    requires mps >= 64 && mps % 64 == 0 && (c.Query? ==> c.length <= 12)
    ensures DataIn(c) % mps != CSW_LENGTH
  {
    if c.Read? {
      SectorsLength(mps, c.count);
    } else {
      Division(DataIn(c), mps, 0, DataIn(c));
    }
  }

  lemma SectorsLength(mps: nat, count: nat)
    requires mps > 0 && mps % 64 == 0
    ensures count * SECTOR % mps != CSW_LENGTH
  {
    Division(count * SECTOR, 64, 8 * count, 0);
    MultipleOfSixtyFour(mps, count * SECTOR);
    Division(CSW_LENGTH, 64, 0, CSW_LENGTH);
  }

  lemma MultipleOfSixtyFour(mps: nat, n: nat)
    requires mps > 0 && mps % 64 == 0 && n % 64 == 0
    ensures (n % mps) % 64 == 0
  {
    var q, k := n / mps, mps / 64;
    var j := n / 64;
    assert n == q * mps + n % mps && mps == 64 * k && n == 64 * j;
    assert q * mps == 64 * (q * k);
    assert n % mps == 64 * (j - q * k);
  }
}
