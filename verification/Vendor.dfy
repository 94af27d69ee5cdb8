/** Vendor control requests: a payload followed by its check, in transfers of at most 4096 bytes. */
module Vendors {
  import opened Bytes
  import opened Crc16
  import opened DeviceHandles
  import opened RkDevices

  const CHUNK := 4096

  datatype Transfer = Transfer(request: u16, bytes: seq<byte>)

  /** The control pipe: what it has delivered, and whether it has failed since. */
  class ControlPipe {
    var delivered: seq<Transfer>
    var faults: nat

    /** One control transfer. An incomplete one is not delivered. */
    method WriteControl(request: u16, b: seq<byte>) returns (r: Result<nat, UsbError>)
      modifies this
      ensures r == Ok(|b|) ==> delivered == old(delivered) + [Transfer(request, b)] && faults == old(faults)
      ensures r != Ok(|b|) ==> delivered == old(delivered) && faults == old(faults) + 1
    {
      var whole: bool, n: nat, e: UsbError :| true;
      if whole {
        delivered := delivered + [Transfer(request, b)];
        return Ok(|b|);
      }
      faults := faults + 1;
      return if n < |b| then Ok(n) else Err(e);
    }
  }

  /** A payload cut into transfers. */
  function Cut(request: u16, b: seq<byte>): seq<Transfer>
    decreases |b|
  {
    if b == [] then []
    else if |b| <= CHUNK then [Transfer(request, b)]
    else [Transfer(request, b[..CHUNK])] + Cut(request, b[CHUNK..])
  }

  function Joined(ts: seq<Transfer>): seq<byte> {
    if ts == [] then [] else ts[0].bytes + Joined(ts[1..])
  }

  /** Cutting loses nothing, and no transfer is empty or too long. */
  lemma {:induction false} CutJoins(request: u16, b: seq<byte>)
    ensures Joined(Cut(request, b)) == b
    ensures forall t | t in Cut(request, b) :: t.request == request && 0 < |t.bytes| <= CHUNK
    decreases |b|
  {
    if |b| > CHUNK {
      CutJoins(request, b[CHUNK..]);
      assert Cut(request, b)[1..] == Cut(request, b[CHUNK..]);
      assert b == b[..CHUNK] + b[CHUNK..];
    } else if b != [] {
      assert Cut(request, b)[1..] == [];
    }
  }

  function WithCheck(data: seq<byte>): (r: seq<byte>)
    ensures |r| == |data| + 2 && r[..|data|] == data
  {
    var c := Checksum(VENDOR_INIT, data);
    data + [High(c) as int, Low(c) as int]
  }

  method VendorRequest(pipe: ControlPipe, request: u16, data: seq<byte>) returns (r: Result<(), RkUsbError>)
    modifies pipe
    ensures r.Ok? ==> pipe.delivered == old(pipe.delivered) + Cut(request, WithCheck(data))
    ensures pipe.delivered <= old(pipe.delivered) + Cut(request, WithCheck(data))
    ensures r.Ok? <==> pipe.faults == old(pipe.faults)
  {
    hide Cut, WithCheck;
    var payload := WithCheck(data);
    var off := 0;
    ghost var before := pipe.delivered;
    ghost var sent: seq<Transfer> := [];
    while off < |payload|
      invariant off <= |payload| && pipe.delivered == before + sent && pipe.faults == old(pipe.faults)
      invariant Cut(request, payload) == sent + Cut(request, payload[off..])
    {
      var n := if |payload| - off < CHUNK then |payload| - off else CHUNK;
      CutStep(request, payload, off, n);
      ghost var rest := Cut(request, payload[off + n..]);
      var chunk := payload[off..off + n];
      var wrote := pipe.WriteControl(request, chunk);
      assert before + (sent + Cut(request, payload[off..])) == before + sent + Cut(request, payload[off..]);
      if wrote.Err? { return Err(Usb(wrote.error)); }
      if wrote.value != n { return Err(Usb(Io)); }
      assert sent + ([Transfer(request, chunk)] + rest) == sent + [Transfer(request, chunk)] + rest;
      sent := sent + [Transfer(request, chunk)];
      off := off + n;
    }
    CutEnd(request, payload);
    r := Ok(());
  }

  lemma CutStep(request: u16, payload: seq<byte>, off: nat, n: nat)
    requires off < |payload| && n == if |payload| - off < CHUNK then |payload| - off else CHUNK
    ensures Cut(request, payload[off..]) == [Transfer(request, payload[off..off + n])] + Cut(request, payload[off + n..])
  {
    var b := payload[off..];
    assert b[..n] == payload[off..off + n] && b[n..] == payload[off + n..];
    if n == |b| { assert b[..n] == b && payload[off + n..] == []; }
  }

  lemma CutEnd(request: u16, payload: seq<byte>)
    ensures Cut(request, payload[|payload|..]) == []
  {
  }

  /** Whatever the payload, what goes out checks to zero as a whole. */
  lemma StreamChecks(request: u16, data: seq<byte>)
    ensures Checksum(VENDOR_INIT, Joined(Cut(request, WithCheck(data)))) == 0
  {
    CutJoins(request, WithCheck(data));
    SelfCheck(VENDOR_INIT, data);
  }
}
