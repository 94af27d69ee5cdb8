/** The USB handle of an opened device: bulk transfers, the clock and the random tags. Its methods choose
    any outcome the environment may produce; `faults` counts the ones a healthy cable and device avoid. A transfer
    that times out is not a fault, but it takes its time. */
module DeviceHandles {
  import opened Bytes
  import opened Usb
  import opened Link
  import opened LinkSafety
  import opened LinkReply
  import opened LinkNominal
  import opened LinkHost

  datatype UsbError = Timeout | Io | InvalidParam | Overflow | Pipe | NoDevice

  /** How a transfer ends: acknowledged, delivered but unacknowledged, cut short, or lost. A device that was
      waiting for the data of a command may have started on it by the time the data is cut short. */
  datatype Arrival =
    | Acknowledged
    | Unacknowledged(error: UsbError)
    | Cut(length: nat, error: UsbError, started: bool)
    | Lost(error: UsbError)

  class DeviceHandle {
    var world: World

    /** The current time. */
    method Now() returns (t: nat)
      requires Wf(world)
      modifies this
      ensures Wf(world) && world == old(world).(now := t) && old(world).now <= t
      ensures forall i, b :: MayHold(world, i, b) <==> MayHold(old(world), i, b)
    {
      t :| true;
      if t < world.now { t := world.now; }
      SameLinkKeeps(world, world.(now := t));
      world := world.(now := t);
    }

    /** A random 32-bit tag. It is unlucky if a command carries it whose answer the host can still see; with
        nothing under way, no tag is. */
    method RandomTag() returns (tag: u32)
      requires Wf(world)
      modifies this
      ensures Wf(world)
      ensures var n := if Seen(old(world), tag) then 1 else 0;
              world == old(world).(mishaps := old(world).mishaps + n, faults := old(world).faults + n)
      ensures Clean(old(world)) ==> world == old(world)
      ensures forall i, b :: MayHold(world, i, b) <==> MayHold(old(world), i, b)
    {
      tag :| true;
      var n := if Seen(world, tag) then 1 else 0;
      SameLinkKeeps(world, world.(mishaps := world.mishaps + n, faults := world.faults + n));
      world := world.(mishaps := world.mishaps + n, faults := world.faults + n);
    }

    /** The last thing taken, from packet `mid` on, was a zero status that reported missing bytes, and passed. */
    method Mishap(ghost mid: nat)
      requires Wf(world) && mid <= world.taken && Misleading(Gather(Window(world, mid, world.taken)))
      modifies this
      ensures Wf(world) && world == old(world).(mishaps := old(world).mishaps + 1, faults := old(world).faults + 1)
      ensures forall i, b :: MayHold(world, i, b) <==> MayHold(old(world), i, b)
    {
      var v := world.(mishaps := world.mishaps + 1, faults := world.faults + 1);
      SameLinkKeeps(world, v);
      world := v;
    }

    /** The host sets out to send a command. */
    method Record(span: Span, budget: nat)
      requires Wf(world)
      modifies this
      ensures Wf(world)
      ensures world == old(world).(issued := old(world).issued + [span], times := old(world).times + [old(world).now],
                                   budgets := old(world).budgets + [budget])
      ensures forall i, b :: MayHold(world, i, b) <==> MayHold(old(world), i, b)
    {
      var v := world.(issued := world.issued + [span], times := world.times + [world.now],
                      budgets := world.budgets + [budget]);
      SameLinkKeeps(world, v);
      world := v;
    }

    method SetLimit(timeout: nat)
      requires Wf(world)
      modifies this
      ensures Wf(world) && world == old(world).(limits := old(world).limits + [old(world).now + timeout])
      ensures forall i, b :: MayHold(world, i, b) <==> MayHold(old(world), i, b)
    {
      var v := world.(limits := world.limits + [world.now + timeout]);
      SameLinkKeeps(world, v);
      world := v;
    }

    /** The device goes on by itself for a while. */
    method Elapse()
      requires Wf(world)
      modifies this
      ensures world.limits == old(world).limits && world.now == old(world).now
      ensures Wf(world) && Drift(old(world), world) && world.taken == old(world).taken
      ensures Quiet(old(world)) ==> world == old(world)
      ensures world.faults == old(world).faults ==>
        forall base, n :: Nominal(old(world), base, n) ==> Nominal(world, base, n)
    {
      var events: seq<Event> :| true;
      RunKeeps(world, events);
      ghost var before := world;
      if Quiet(world) { RunQuiet(world, events); }
      world := Run(world, events);
      forall base, n | Nominal(before, base, n) && world.faults == before.faults ensures Nominal(world, base, n) {
        RunNominal(before, events, base, n);
      }
    }

    /** Send one transfer. It may arrive whole, cut short, or not at all; an error says nothing about which. */
    method WriteBulk(b: seq<byte>, timeout: nat) returns (r: Result<nat, UsbError>, ghost mid: World, ghost a: Arrival)
      requires Wf(world)
      modifies this
      ensures Wf(mid) && Drift(old(world), mid) && mid.taken == old(world).taken
      ensures Quiet(old(world)) ==> mid == old(world).(limits := mid.limits)
      ensures world.limits == old(world).limits + [old(world).now + timeout]
      ensures Wf(world) && world == Arrived(mid, b, a, timeout)
      ensures SameBooks(old(world), world) && Aged(old(world), world) && world.mishaps == old(world).mishaps
      ensures world.mishaps == old(world).mishaps && world.taken == old(world).taken
      ensures r == Ok(|b|) ==> a.Acknowledged?
      ensures InTime(old(world), world, old(world).now + timeout) ==> r == Ok(|b|)
    {
      hide Wf, MayHold, Nominal, Arrived, ReadCbw;
      ghost var before := world;
      SetLimit(timeout);
      ghost var w := world;
      Elapse();
      LimitKeeps(before, w, world);
      mid := world;
      var arrival: Arrival :| true;
      ArrivedKeeps(world, b, arrival, timeout);
      world := Arrived(world, b, arrival, timeout);
      a := arrival;
      r := match arrival
        case Acknowledged => Ok(|b|)
        case Cut(n, e, _) => if n < |b| then Ok(n) else Err(e)
        case _ => Err(arrival.error);
    }

    /** Receive into `buf[lo..hi]`: full packets up to the first one that is not full, as many as fit; or
        an error, which may lose any number of packets and leave anything in the buffer. */
    method ReadBulk(buf: array<byte>, lo: nat, hi: nat, timeout: nat) returns (r: Result<nat, UsbError>)
      requires Wf(world) && lo < hi <= buf.Length
      modifies this, buf
      ensures Wf(world) && Drift(old(world), world)
      ensures SameBooks(old(world), world) && Aged(old(world), world) && world.mishaps == old(world).mishaps
      ensures world.limits == old(world).limits + [old(world).now + timeout]
      ensures buf[..lo] == old(buf[..lo]) && buf[hi..] == old(buf[hi..])
      ensures r.Ok? ==> ReadInto(old(world), world, buf[lo..hi], r.value)
      ensures InTime(old(world), world, old(world).now + timeout) ==> r.Ok? && Smooth(old(world), world, hi - lo)
    {
      hide Wf, Smooth, ReadInto, MayHold;
      ghost var before := world;
      SetLimit(timeout);
      ghost var armed := world;
      r := Await(buf, lo, hi, timeout);
      LimitKeeps(before, armed, world);
      LimitReads(before, armed, world, buf[lo..hi], if r.Ok? then r.value else 0, hi - lo);
    }

    method Await(buf: array<byte>, lo: nat, hi: nat, timeout: nat) returns (r: Result<nat, UsbError>)
      requires Wf(world) && lo < hi <= buf.Length
      modifies this, buf
      ensures Wf(world) && Drift(old(world), world) && world.limits == old(world).limits
      ensures SameBooks(old(world), world) && Aged(old(world), world) && world.mishaps == old(world).mishaps
      ensures buf[..lo] == old(buf[..lo]) && buf[hi..] == old(buf[hi..])
      ensures r.Ok? ==> ReadInto(old(world), world, buf[lo..hi], r.value)
      ensures InTime(old(world), world, old(world).now + timeout) ==> r.Ok? && Smooth(old(world), world, hi - lo)
    {
      Elapse();
      ghost var w := world;
      var a: Arrival :| true;
      if a.Cut? && Readable(world, a.length, hi - lo) {
        r := Receive(buf, lo, hi, a.length, a.error, timeout);
      } else {
        r := Fail(buf, lo, hi, a, timeout);
      }
      DriftTransitive(old(world), w, world);
    }

    /** What has arrived. If that is not the end of it, some trouble was the reason. */
    method Receive(buf: array<byte>, lo: nat, hi: nat, count: nat, e: UsbError, timeout: nat)
      returns (r: Result<nat, UsbError>)
      requires Wf(world) && lo < hi <= buf.Length && Readable(world, count, hi - lo)
      modifies this, buf
      ensures Wf(world) && Drift(old(world), world) && world.limits == old(world).limits
      ensures buf[..lo] == old(buf[..lo]) && buf[hi..] == old(buf[hi..])
      ensures r.Ok? && ReadInto(old(world), world, buf[lo..hi], r.value)
      ensures InTime(old(world), world, old(world).now + timeout) ==> Smooth(old(world), world, hi - lo)
    {
      hide Wf, Drift, Nominal, SameBooks;
      var ps := Window(world, world.taken, world.taken + count);
      var got := Gather(ps);
      var ended := Ended(world.mps, ps, hi - lo);
      Take(count, if ended then None else Some(e), timeout);
      assert Window(world, old(world).taken, world.taken) == ps;
      Fill(buf, lo, got);
      assert buf[lo..hi][..|got|] == buf[lo..lo + |got|];
      SuffixKept(old(buf[..]), buf[..], lo + |got|, hi);
      r := Ok(|got|);
    }

    method Fail(buf: array<byte>, lo: nat, hi: nat, a: Arrival, timeout: nat) returns (r: Result<nat, UsbError>)
      requires Wf(world) && lo < hi <= buf.Length
      modifies this, buf
      ensures Wf(world) && Drift(old(world), world) && world.limits == old(world).limits && r.Err?
      ensures buf[..lo] == old(buf[..lo]) && buf[hi..] == old(buf[hi..])
      ensures !InTime(old(world), world, old(world).now + timeout)
    {
      var junk: seq<byte> :| true;
      if |junk| == hi - lo { Fill(buf, lo, junk); }
      var lost := if a.Cut? then a.length else 0;
      var e := if a.Acknowledged? then Timeout else a.error;
      Take(if lost <= |world.stream| - world.taken then lost else 0, Some(e), timeout);
      r := Err(e);
    }

    /** The host has consumed (or lost) the next `count` packets. */
    method Take(count: nat, e: Option<UsbError>, timeout: nat)
      requires Wf(world) && world.taken + count <= |world.stream|
      modifies this
      ensures Wf(world)
      ensures var v := old(world).(taken := old(world).taken + count);
              world == if e.None? then v else Trouble(v, e.value, timeout)
      ensures Drift(old(world), world)
      ensures e.None? ==> forall base, n :: Nominal(old(world), base, n) ==> Nominal(world, base, n)
    {
      var v := world.(taken := world.taken + count);
      v := if e.None? then v else Trouble(v, e.value, timeout);
      TakenKeeps(world, v);
      forall base, n | Nominal(world, base, n) ensures Nominal(v, base, n) {
        NominalSame(world, v, base, n);
      }
      world := v;
    }
  }

  /** The command whose data was cut short is under way, and may end in any way a command can: carried out,
      refused or forgotten, with any of its bytes stored. */
  function Start(w: World, b: seq<byte>): World {
    if w.parser.Expecting? && |b| == w.parser.request.transferLength then Accept(w, w.parser.request, b)
    else w.(parser := Idle)
  }

  /** The device does not know what the host is waiting for. */
  lemma LimitKeeps(w: World, armed: World, v: World)
    requires armed == w.(limits := armed.limits) && Drift(armed, v)
    ensures Drift(w, v)
    ensures Quiet(armed) <==> Quiet(w)
  {
    hide Nominal;
  }

  lemma LimitReads(w: World, armed: World, v: World, buf: seq<byte>, got: nat, room: nat)
    requires armed == w.(limits := armed.limits)
    ensures Smooth(armed, v, room) ==> Smooth(w, v, room)
    ensures ReadInto(armed, v, buf, got) <==> ReadInto(w, v, buf, got)
  {
    hide Nominal;
    forall base, n ensures Nominal(w, base, n) <==> Nominal(armed, base, n) {
      LimitNominal(w, armed, base, n);
    }
  }

  lemma LimitNominal(w: World, armed: World, base: nat, n: nat)
    requires armed == w.(limits := armed.limits)
    ensures Nominal(w, base, n) <==> Nominal(armed, base, n)
  {
  }

  /** A transfer that did not go through as it should: a timeout has taken its time, everything else is a fault. To
      wait 0 milliseconds means to wait forever, which does not time out. */
  function Trouble(w: World, e: UsbError, timeout: nat): World {
    if e == Timeout && timeout > 0 then w.(now := w.now + timeout) else w.(faults := w.faults + 1)
  }

  /** Thirteen bytes that say that all went well, and that bytes are missing. */
  predicate Misleading(b: seq<byte>) {
    LooksLikeStatus(b) && ParseCsw(b).status == 0 && ParseCsw(b).dataResidue != 0
  }

  function Arrived(w: World, b: seq<byte>, a: Arrival, timeout: nat): World {
    match a
    case Acknowledged => Deliver(w, b)
    case Unacknowledged(e) => Trouble(Deliver(w, b), e, timeout)
    case Cut(_, e, started) => Trouble(if started then Start(w, b) else w.(parser := Idle), e, timeout)
    case Lost(e) => Trouble(w, e, timeout)
  }

  lemma ArrivedKeeps(w: World, b: seq<byte>, a: Arrival, timeout: nat)
    requires Wf(w)
    ensures var v := Arrived(w, b, a, timeout);
            && Wf(v) && SameBooks(w, v) && v.limits == w.limits && Aged(w, v) && v.mishaps == w.mishaps && v.taken == w.taken
            && (a.Acknowledged? <==> v.faults == w.faults && v.now == w.now)
            && (InTime(w, v, w.now + timeout) ==> a.Acknowledged?)
  {
    hide Wf, ReadCbw, Deliver, Start;
    var v := if a.Lost? then w else if a.Cut? then if a.started then Start(w, b) else w.(parser := Idle) else Deliver(w, b);
    DeliverKeeps(w, b);
    StartKeeps(w, b);
    ParserKeeps(w, Idle);
    BooksMatch(v);
    SameLinkKeeps(v, Arrived(w, b, a, timeout));
  }

  lemma BooksMatch(w: World)
    requires Wf(w)
    ensures |w.issued| == |w.times| == |w.budgets|
  {
  }

  lemma StartKeeps(w: World, b: seq<byte>)
    requires Wf(w)
    ensures var v := Start(w, b); Wf(v) && v == w.(parser := v.parser, accepted := v.accepted)
  {
    hide Effective, PacketsOk, Chained;
    ParserKeeps(w, Idle);
    if w.parser.Expecting? { AcceptRequestKeeps(w, w.parser.request, b); }
  }

  lemma DeliverKeeps(w: World, b: seq<byte>)
    requires Wf(w)
    ensures var v := Deliver(w, b); Wf(v) && v == w.(parser := v.parser, accepted := v.accepted)
  {
    hide Effective, PacketsOk, Chained, ReadCbw;
    if w.parser.Expecting? && |b| == w.parser.request.transferLength {
      AcceptRequestKeeps(w, w.parser.request, b);
    } else if ReadCbw(b).Some? {
      var r := ReadCbw(b).value;
      if WantsData(r) {
        ParserKeeps(w, Expecting(r));
      } else {
        AcceptRequestKeeps(w, r, []);
      }
    } else {
      ParserKeeps(w, Idle);
    }
  }

  lemma AcceptRequestKeeps(w: World, r: Request, data: seq<byte>)
    requires Wf(w)
    ensures Wf(Accept(w, r, data))
  {
    match CommandOf(r, data)
    case None => ParserKeeps(w, Idle);
    case Some(c) => AcceptKeeps(w, Job(r.tag, c));
  }
}
