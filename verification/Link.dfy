/** The other end of the cable: a storage device that executes commands in order of arrival, and the
    first-in-first-out pipe of packets it has sent and the host has not yet taken.

    Every choice the environment can make (when a command runs, whether it fails half way, how much of a
    reply it sends, whether it answers at all) is an `Event`; any list of events is possible at any time. */
module Link {
  import opened Bytes
  import opened Usb

  const SECTOR := 512

  datatype Command =
    | Read(lba: u32, count: u16, subcode: byte)
    | Write(lba: u32, data: seq<byte>, subcode: byte)
    | Erase(lba: u32, count: u16)
    | Query(opcode: byte, length: byte)

  /** The command a device accepts: the request of the wrapper with the bytes of its data stage. It has one logical
      unit, and needs 10 bytes of command for 0x14 (READ_LBA), 0x15 (WRITE_LBA) and 0x25 (ERASE_LBA), 6 for the rest. */
  function CommandOf(r: Request, data: seq<byte>): Option<Command> {
    if r.lun != 0 then None
    else if r.opcode == 0x14 then
      if r.dataIn && r.blockLength == 10 && r.transferLength == r.count * SECTOR then Some(Read(r.lba, r.count, r.subcode))
      else None
    else if r.opcode == 0x15 then
      if !r.dataIn && r.blockLength == 10 && |data| == r.transferLength == r.count * SECTOR
      then Some(Write(r.lba, data, r.subcode)) else None
    else if r.opcode == 0x25 then
      if !r.dataIn && r.blockLength == 10 && r.transferLength == 0 then Some(Erase(r.lba, r.count)) else None
    else if r.blockLength == 6 && r.transferLength <= 12 && (r.dataIn || r.transferLength == 0)
      then Some(Query(r.opcode, r.transferLength))
    else None
  }

  function DataIn(c: Command): nat {
    match c
    case Read(_, count, _) => count * SECTOR
    case Query(_, length) => length
    case _ => 0
  }

  /** Bytes by address: what a command stores where. */
  type Patch = map<int, byte>

  function Splice(lo: int, data: seq<byte>): (m: Patch)
    ensures forall i :: i in m <==> lo <= i < lo + |data|
    ensures forall i | i in m :: m[i] == data[i - lo]
  {
    if data == [] then map[]
    else
      var n := |data| - 1;
      Splice(lo, data[..n])[lo + n := data[n]]
  }

  function Overlay(disk: seq<byte>, m: Patch): (r: seq<byte>)
    ensures |r| == |disk|
    ensures forall i | 0 <= i < |disk| :: r[i] == if i in m then m[i] else disk[i]
  {
    seq(|disk|, i requires 0 <= i < |disk| => if i in m then m[i] else disk[i])
  }

  function Effect(c: Command, erased: byte): Patch {
    match c
    case Write(lba, data, _) => Splice(lba * SECTOR, data)
    case Erase(lba, count) => Splice(lba * SECTOR, seq(count * SECTOR, _ => erased))
    case _ => map[]
  }

  datatype Job = Job(tag: u32, command: Command)

  /** A packet in the pipe. `serial` and `offset` record where it came from; the host sees `bytes` only. */
  datatype Packet =
    | Data(serial: nat, offset: nat, bytes: seq<byte>)
    | Status(serial: nat, offset: nat, bytes: seq<byte>, csw: Csw)

  /** The answer to the last executed command: the bytes of its data stage, its status and residue, how many of
      the bytes are already sent, and whether its status wrapper is still to come. */
  datatype Reply = Reply(data: seq<byte>, status: byte, residue: u32, sent: nat, open: bool)

  datatype Parser = Idle | Expecting(request: Request)

  datatype SpanKind = Reading | Writing | Erasing | Other
  datatype Span = Span(kind: SpanKind, lba: nat, count: nat, subcode: byte)

  function SpanOf(c: Command): Span {
    match c
    case Read(lba, count, subcode) => Span(Reading, lba, count, subcode)
    case Write(lba, data, subcode) => Span(Writing, lba, |data| / SECTOR, subcode)
    case Erase(lba, count) => Span(Erasing, lba, count, 0)
    case Query(_, _) => Span(Other, 0, 0, 0)
  }

  datatype World = World(
    mps: nat,                      // maximum packet size of the in-endpoint
    erased: byte,                  // what an erased byte reads as
    answers: map<byte, seq<byte>>, // what the device says about itself, by opcode
    disk: seq<byte>,
    parser: Parser,
    accepted: seq<Job>,            // commands received, in order of arrival
    done: nat,                     // how many of them have been executed, refused or forgotten
    reply: Reply,                  // the answer to accepted[done - 1]
    stream: seq<Packet>,           // everything ever sent on the in-pipe
    taken: nat,                    // how many packets of it the host has consumed or lost
    mishaps: nat,                  // unlucky tags drawn and incomplete answers taken for complete, so far
    faults: nat,                   // misbehaviour of the device or the cable, and mishaps, so far
    now: nat,                      // a clock that never runs backwards
    issued: seq<Span>,             // commands the host set out to send, in order
    times: seq<nat>,               // when the clock was read for each of them
    budgets: seq<nat>,             // and the time each was given
    limits: seq<nat>               // when each of the transfers would have given up
  )

  datatype Event =
    | Execute                                                               // carried out and answered in full
    | Falter(status: byte, junk: seq<byte>, after: seq<byte>, residue: u32) // carried out in part, and answered so
    | Forget(after: seq<byte>)                                              // the same, without an answer
    | Drop                                                                  // the rest of an answer never comes
    | Send
    | SendEmpty

  predicate InRange(c: Command, w: World) {
    match c
    case Read(lba, count, _) => (lba + count) * SECTOR <= |w.disk|
    case Write(lba, data, _) => lba * SECTOR + |data| <= |w.disk|
    case Erase(lba, count) => (lba + count) * SECTOR <= |w.disk|
    case Query(opcode, length) => opcode in w.answers && |w.answers[opcode]| == length
  }

  function FullReply(c: Command, w: World): (r: seq<byte>)
    requires InRange(c, w)
    ensures |r| == DataIn(c)
  {
    match c
    case Read(lba, count, _) => w.disk[lba * SECTOR..(lba + count) * SECTOR]
    case Query(opcode, _) => w.answers[opcode]
    case _ => []
  }

  /** A packet that has the length and the signature of a status wrapper. */
  predicate LooksLikeStatus(b: seq<byte>) {
    |b| == CSW_LENGTH && ParseCsw(b).signature == CSW_SIGN
  }

  /** A data stage may break off anywhere, as long as its last packet does not look like a status wrapper. */
  predicate StageOk(mps: nat, data: seq<byte>)
    requires mps > 0
  {
    |data| % mps == CSW_LENGTH <= |data| ==> !LooksLikeStatus(data[|data| - CSW_LENGTH..])
  }

  predicate Ready(w: World) {
    w.done < |w.accepted| && !w.reply.open
  }

  /** What a device reports as missing: of an expected answer, exactly the bytes it does not send; of a command
      without one, whatever it likes. */
  function Residue(c: Command, sent: nat, reported: u32): u32 {
    if sent <= DataIn(c) && DataIn(c) > 0 then DataIn(c) - sent else reported
  }

  predicate TornBetween(before: seq<byte>, m: Patch, after: seq<byte>) {
    |after| == |before| &&
    forall i | 0 <= i < |before| :: after[i] == before[i] || (i in m && after[i] == m[i])
  }

  function Sent(w: World, p: Packet, r: Reply): World {
    w.(stream := w.stream + [p], reply := r)
  }

  /** One step of the device. An event that does not apply changes nothing. */
  function Step(w: World, ev: Event): World {
    match ev
    case Execute =>
      if !Ready(w) || !InRange(w.accepted[w.done].command, w) then w else
      var c := w.accepted[w.done].command;
      if w.mps == 0 || !StageOk(w.mps, FullReply(c, w)) then w else
      w.(disk := Overlay(w.disk, Effect(c, w.erased)), done := w.done + 1, reply := Reply(FullReply(c, w), 0, 0, 0, true))
    case Falter(status, junk, after, residue) =>
      if !Ready(w) then w else
      var c := w.accepted[w.done].command;
      var rest := Residue(c, |junk|, residue);
      if |junk| > DataIn(c) || (status == 0 && rest == 0) || w.mps == 0 || !StageOk(w.mps, junk)
         || !TornBetween(w.disk, Effect(c, w.erased), after) then w else
      w.(disk := after, done := w.done + 1, reply := Reply(junk, status, rest, 0, true), faults := w.faults + 1)
    case Forget(after) =>
      if !Ready(w) || !TornBetween(w.disk, Effect(w.accepted[w.done].command, w.erased), after) then w else
      w.(disk := after, done := w.done + 1, reply := Reply([], 1, 0, 0, false), faults := w.faults + 1)
    case Drop =>
      if !w.reply.open then w else w.(reply := w.reply.(open := false), faults := w.faults + 1)
    case Send =>
      if !w.reply.open || !(0 < w.done <= |w.accepted|) || w.reply.sent > |w.reply.data| then w else
      var r := w.reply;
      if r.sent < |r.data| then
        var n := if |r.data| - r.sent < w.mps then |r.data| - r.sent else w.mps;
        Sent(w, Data(w.done - 1, r.sent, r.data[r.sent..r.sent + n]), r.(sent := r.sent + n))
      else
        var job := w.accepted[w.done - 1];
        var csw := Csw(CSW_SIGN, job.tag, r.residue, r.status);
        Sent(w, Status(w.done - 1, |r.data|, CswBytes(csw), csw), r.(open := false))
    case SendEmpty =>
      if !w.reply.open || w.done == 0 || w.reply.sent != |w.reply.data| then w else
      Sent(w, Data(w.done - 1, w.reply.sent, []), w.reply).(faults := w.faults + 1)
  }

  function Run(w: World, events: seq<Event>): World
    decreases |events|
  {
    if events == [] then w else Run(Step(w, events[0]), events[1..])
  }

  /** A whole transfer arrives at the device: the awaited data stage, a command wrapper, or rubbish. */
  function Deliver(w: World, b: seq<byte>): World {
    if w.parser.Expecting? && |b| == w.parser.request.transferLength then Accept(w, w.parser.request, b)
    else match ReadCbw(b)
      case None => w.(parser := Idle)
      case Some(r) => if WantsData(r) then w.(parser := Expecting(r)) else Accept(w, r, [])
  }

  predicate WantsData(r: Request) {
    r.opcode == 0x15 && !r.dataIn && 0 < r.transferLength == r.count * SECTOR
  }

  function Accept(w: World, r: Request, data: seq<byte>): World {
    match CommandOf(r, data)
    case None => w.(parser := Idle)
    case Some(c) => w.(parser := Idle, accepted := w.accepted + [Job(r.tag, c)])
  }

  /** What byte `i` of the disk can hold now or after any of the commands still under way. */
  ghost predicate MayHold(w: World, i: int, b: byte) {
    0 <= i < |w.disk| && (b == w.disk[i] || Pending(w, i, b))
  }

  ghost predicate Pending(w: World, i: int, b: byte) {
    exists k | w.done <= k < |w.accepted| :: Stores(w.accepted[k].command, w.erased, i, b)
  }

  ghost predicate Stores(c: Command, erased: byte, i: int, b: byte) {
    var m := Effect(c, erased);
    i in m && b == m[i]
  }

  /** Nothing in the pipe, nothing under way: the disk will not change by itself. */
  ghost predicate Clean(w: World) {
    w.taken == |w.stream| && w.done == |w.accepted| && !w.reply.open && w.parser.Idle?
  }

  // ----- The invariant of the link -----

  /** A packet goes on with the answer of the one before it, or begins that of a later command. */
  ghost predicate Follows(p: Packet, q: Packet) {
    (p.serial < q.serial && q.offset == 0) || (p.Data? && q.serial == p.serial && q.offset == p.offset + |p.bytes|)
  }

  ghost predicate Chained(s: seq<Packet>) {
    (|s| > 0 ==> s[0].offset == 0) &&
    forall j | 0 < j < |s| :: Follows(s[j - 1], s[j])
  }

  ghost predicate PacketOk(w: World, p: Packet) {
    p.serial < w.done <= |w.accepted| &&
    match p
    case Data(_, _, bytes) => |bytes| <= w.mps && !LooksLikeStatus(bytes)
    case Status(_, _, bytes, csw) =>
      bytes == CswBytes(csw) && csw.signature == CSW_SIGN && csw.tag == w.accepted[p.serial].tag
  }

  /** A packet of the answer to the last executed command shows that answer. */
  ghost predicate PacketCurrent(w: World, p: Packet) {
    p.serial == w.done - 1 ==>
      match p
      case Data(_, offset, bytes) =>
        offset + |bytes| <= |w.reply.data| && bytes == w.reply.data[offset..offset + |bytes|]
      case Status(_, offset, _, csw) =>
        && !w.reply.open && offset == |w.reply.data|
        && csw.status == w.reply.status && csw.dataResidue == w.reply.residue
  }

  ghost predicate PacketsOk(w: World) {
    forall j | 0 <= j < |w.stream| :: PacketOk(w, w.stream[j]) && PacketCurrent(w, w.stream[j])
  }

  /** What the stream alone says. */
  ghost predicate StreamOk(w: World) {
    w.mps > 0 && w.mps % 64 == 0 && Chained(w.stream) && PacketsOk(w)
  }

  ghost predicate TailOk(w: World) {
    w.reply.open ==>
      if |w.stream| == 0 then w.reply.sent == 0
      else
        var p := w.stream[|w.stream| - 1];
        (p.serial < w.done - 1 && w.reply.sent == 0)
        || (p.Data? && p.serial == w.done - 1 && p.offset + |p.bytes| == w.reply.sent)
  }

  /** A zero status with a zero residue means the command was carried out, and the data stage is its reply. */
  ghost predicate Effective(w: World) {
    0 < w.done <= |w.accepted| && w.reply.status == 0 && w.reply.residue == 0 ==>
      var c := w.accepted[w.done - 1].command;
      && InRange(c, w)
      && (forall i, b | Stores(c, w.erased, i, b) :: 0 <= i < |w.disk| && w.disk[i] == b)
      && w.reply.data == FullReply(c, w)
  }

  ghost predicate ParserOk(w: World) {
    w.parser.Expecting? ==> WantsData(w.parser.request)
  }

  ghost predicate ReplyOk(w: World) {
    && w.reply.sent <= |w.reply.data|
    && w.mps > 0 && StageOk(w.mps, w.reply.data[w.reply.sent..])
    && (w.reply.open ==> w.done > 0)
    && (0 < w.done <= |w.accepted| ==> Accounted(w.accepted[w.done - 1].command, w.reply))
    && (w.done == 0 ==> w.reply.data == [])
  }

  /** An answer is no longer than expected, and its residue says by how much it is shorter. A forgotten command
      has no answer. */
  ghost predicate Accounted(c: Command, r: Reply) {
    |r.data| <= DataIn(c) && (r.status == 0 && DataIn(c) > 0 ==> r.residue == DataIn(c) - |r.data|)
  }

  ghost predicate Wf(w: World) {
    && w.mps > 0 && w.mps % 64 == 0
    && |w.disk| <= 0x1_0000_0000 * SECTOR
    && w.taken <= |w.stream|
    && w.done <= |w.accepted|
    && |w.times| == |w.budgets| == |w.issued|
    && ReplyOk(w)
    && Chained(w.stream)
    && PacketsOk(w)
    && TailOk(w)
    && Effective(w)
    && ParserOk(w)
  }

  // ----- What the host can still see -----

  /** The first command a packet sent from now on can belong to. */
  function NextSerial(w: World): nat {
    if w.reply.open && w.done > 0 then w.done - 1 else w.done
  }

  /** The first command a packet taken from now on can belong to. */
  function Oldest(w: World): nat {
    if w.taken < |w.stream| then w.stream[w.taken].serial else NextSerial(w)
  }

  /** A command with this tag is still under way, or its answer is. */
  predicate Seen(w: World, tag: u32) {
    exists k | Oldest(w) <= k < |w.accepted| :: w.accepted[k].tag == tag
  }

  /** Time has passed: every mishap counts as a fault. */
  ghost predicate Aged(w0: World, w1: World) {
    0 <= w1.mishaps - w0.mishaps <= w1.faults - w0.faults && w0.now <= w1.now
  }

  /** Nothing has gone wrong, and the deadline has not passed. */
  ghost predicate InTime(w0: World, w1: World, deadline: nat) {
    w1.faults == w0.faults && w1.now < deadline
  }

  /** Nothing has gone wrong since `w0`, and the operation begun in `began` has taken less than `timeout`. */
  ghost predicate Healthy(w0: World, began: World, w1: World, timeout: nat) {
    w1.faults == w0.faults && InTime(began, w1, began.now + timeout)
  }

  /** All transfers since `w0` had the same deadline, `timeout` after some moment in between. */
  ghost predicate Limited(w0: World, w1: World, timeout: nat) {
    exists deadline: nat :: w0.now + timeout <= deadline <= w1.now + timeout && Until(w0, w1, deadline)
  }

  ghost predicate Until(w0: World, w1: World, deadline: nat) {
    w0.limits <= w1.limits && forall k | |w0.limits| <= k < |w1.limits| :: w1.limits[k] == deadline
  }

  /** What never changes, and what only grows. */
  ghost predicate Later(w0: World, w1: World) {
    && w1.mps == w0.mps && w1.erased == w0.erased && w1.answers == w0.answers && |w1.disk| == |w0.disk|
    && w0.stream <= w1.stream && w0.taken <= w1.taken && w0.done <= w1.done
    && Aged(w0, w1)
    && w0.issued <= w1.issued && w0.times <= w1.times && w0.budgets <= w1.budgets
    && w0.accepted <= w1.accepted
    && NextSerial(w0) <= NextSerial(w1)
    && forall j | |w0.stream| <= j < |w1.stream| :: NextSerial(w0) <= w1.stream[j].serial
  }

  /** What can happen while the host sends nothing. */
  ghost predicate Drift(w0: World, w1: World) {
    && Later(w0, w1)
    && w1.parser == w0.parser && w1.accepted == w0.accepted && w1.mishaps == w0.mishaps
    && w1.issued == w0.issued && w1.times == w0.times && w1.budgets == w0.budgets
    && forall i, b :: MayHold(w1, i, b) ==> MayHold(w0, i, b)
  }
}
