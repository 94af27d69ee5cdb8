/** What a received status wrapper proves. There is no recovery after an error, so packets of earlier
    answers can sit in the pipe; what follows says when the bytes just read are the answer just asked for. */
module LinkReply {
  import opened Bytes
  import opened Usb
  import opened Link

  /** The bytes of consecutive packets. */
  function Gather(ps: seq<Packet>): seq<byte> {
    if ps == [] then [] else ps[0].bytes + Gather(ps[1..])
  }

  /** A bulk read goes on over full packets and stops at the first one that is not full. */
  predicate FullButLast(mps: nat, ps: seq<Packet>) {
    forall j | 0 <= j < |ps| - 1 :: |ps[j].bytes| == mps
  }

  function Window(w: World, lo: nat, hi: nat): seq<Packet>
    requires lo <= hi <= |w.stream|
  {
    w.stream[lo..hi]
  }

  /** The packets a successful bulk read into a buffer of `room` bytes can consume. */
  predicate Readable(w: World, count: nat, room: nat) {
    w.taken + count <= |w.stream| &&
    FullButLast(w.mps, Window(w, w.taken, w.taken + count)) &&
    |Gather(Window(w, w.taken, w.taken + count))| <= room
  }

  /** A read that was not cut short by its timeout fills its buffer or ends with a short packet. */
  predicate Ended(mps: nat, ps: seq<Packet>, room: nat) {
    |Gather(ps)| == room || (ps != [] && |ps[|ps| - 1].bytes| < mps)
  }

  lemma {:induction false} SerialsGrow(s: seq<Packet>, i: nat, j: nat)
    requires Chained(s) && i <= j < |s|
    ensures s[i].serial <= s[j].serial
    decreases j
  {
    if i < j {
      SerialsGrow(s, i, j - 1);
      assert Follows(s[j - 1], s[j]);
    }
  }

  /** Whatever the host takes from the pipe after `w0` belongs to a command it could still see in `w0`. */
  lemma SeenSince(w0: World, w: World, j: nat)
    requires Later(w0, w) && StreamOk(w) && w0.taken <= j < |w.stream|
    ensures Oldest(w0) <= w.stream[j].serial
  {
    if w0.taken < |w0.stream| {
      SerialsGrow(w.stream, w0.taken, j);
    }
  }

  /** A status wrapper under a tag that no command still visible carried when it was drawn is the last packet the
      device will send: nothing is left in the pipe and no earlier command is still under way. */
  lemma NewestStatusIsLast(w0: World, w: World, j: nat, job: Job)
    requires Later(w0, w) && StreamOk(w) && w.accepted == w0.accepted + [job] && !Seen(w0, job.tag)
    requires w0.taken <= j < |w.stream| && w.stream[j].Status? && w.stream[j].csw.tag == job.tag
    ensures j == |w.stream| - 1 && w.done == |w.accepted| && !w.reply.open
    ensures w.stream[j].serial == w.done - 1
    ensures w.stream[j].csw.status == w.reply.status && w.stream[j].csw.dataResidue == w.reply.residue
    ensures w.stream[j].offset == |w.reply.data|
  {
    SeenSince(w0, w, j);
    assert PacketOk(w, w.stream[j]);
    assert forall k | 0 <= k < |w0.accepted| :: w.accepted[k] == w0.accepted[k];
    LastStatus(w, j);
  }

  /** The status of the newest command is the last packet. */
  lemma LastStatus(w: World, j: nat)
    requires StreamOk(w) && j < |w.stream| && w.stream[j].Status? && w.stream[j].serial == |w.accepted| - 1
    ensures j == |w.stream| - 1 && w.done == |w.accepted| && PacketCurrent(w, w.stream[j])
  {
    assert j + 1 < |w.stream| ==> Follows(w.stream[j], w.stream[j + 1]);
    assert forall k | j <= k < |w.stream| :: PacketOk(w, w.stream[k]) && PacketCurrent(w, w.stream[k]);
  }

  lemma WindowFrom(w: World, lo: nat, hi: nat)
    requires lo < hi <= |w.stream|
    ensures Gather(Window(w, lo, hi)) == w.stream[lo].bytes + Gather(Window(w, lo + 1, hi))
  {
    assert Window(w, lo, hi)[1..] == Window(w, lo + 1, hi);
  }

  lemma SliceFront(data: seq<byte>, a: nat, b: nat, rest: seq<byte>)
    requires a <= b <= |data| && rest == data[b..]
    ensures data[a..b] + rest == data[a..]
  {
  }

  /** Reading back from the last status wrapper, full packets belong to its data stage, back to back, for as
      long as they are no more than that stage. */
  lemma {:induction false} StageBackwards(w: World, lo: nat, hi: nat)
    requires StreamOk(w) && lo < hi < |w.stream|
    requires w.stream[hi].Status? && w.stream[hi].serial == w.done - 1
    requires forall j | lo <= j < hi - 1 :: |w.stream[j].bytes| == w.mps
    requires 0 < |w.reply.data| && |Gather(Window(w, lo, hi))| <= |w.reply.data|
    ensures var p, got := w.stream[lo], Gather(Window(w, lo, hi));
            && p.Data? && p.serial == w.done - 1
            && p.offset + |got| == |w.reply.data| && got == w.reply.data[p.offset..]
    ensures forall j | lo <= j < hi :: w.stream[j].serial == w.done - 1
    decreases hi - lo
  {
    var p, q := w.stream[lo], w.stream[lo + 1];
    assert PacketOk(w, p) && Follows(p, q) && PacketCurrent(w, q);
    WindowFrom(w, lo, hi);
    if lo + 1 < hi {
      StageBackwards(w, lo + 1, hi);
    } else {
      assert Window(w, hi, hi) == [];
    }
    assert PacketCurrent(w, p);
    SliceFront(w.reply.data, p.offset, p.offset + |p.bytes|, Gather(Window(w, lo + 1, hi)));
  }

  /** What was read before the status of the newest command, if it is as long as that command's data stage, is
      that data stage. */
  lemma StageOfNewest(w: World, lo: nat, hi: nat)
    requires StreamOk(w) && lo < hi < |w.stream|
    requires w.stream[hi].Status? && w.stream[hi].serial == w.done - 1
    requires FullButLast(w.mps, Window(w, lo, hi))
    requires |Gather(Window(w, lo, hi))| == |w.reply.data| > 0
    ensures Gather(Window(w, lo, hi)) == w.reply.data
    ensures forall j | lo <= j < hi :: w.stream[j].serial == w.done - 1
  {
    assert forall j | lo <= j < hi :: w.stream[j] == Window(w, lo, hi)[j - lo];
    StageBackwards(w, lo, hi);
  }

  /** If all of it comes from the newest command, it is no longer than that command's data stage. */
  lemma {:induction false} OwnPackets(w: World, lo: nat, hi: nat)
    requires StreamOk(w) && lo < hi <= |w.stream|
    requires forall j | lo <= j < hi :: w.stream[j].Data? && w.stream[j].serial == w.done - 1
    ensures w.stream[lo].offset + |Gather(Window(w, lo, hi))| <= |w.reply.data|
    decreases hi - lo
  {
    WindowFrom(w, lo, hi);
    assert PacketCurrent(w, w.stream[lo]);
    if lo + 1 < hi {
      assert Follows(w.stream[lo], w.stream[lo + 1]);
      OwnPackets(w, lo + 1, hi);
    } else {
      assert Window(w, hi, hi) == [];
    }
  }

  /** Thirteen bytes that begin with the signature are one status wrapper. */
  lemma ThirteenBytes(w: World, lo: nat, hi: nat)
    requires StreamOk(w) && lo <= hi <= |w.stream|
    requires FullButLast(w.mps, Window(w, lo, hi)) && LooksLikeStatus(Gather(Window(w, lo, hi)))
    ensures hi == lo + 1 && w.stream[lo].Status?
    ensures Gather(Window(w, lo, hi)) == w.stream[lo].bytes
  {
    hide ParseCsw;
    var ps := Window(w, lo, hi);
    assert ps == [] || Gather(ps) == ps[0].bytes + Gather(ps[1..]);
    assert ps[0] == w.stream[lo] && |ps| == 1;
    assert Gather(ps) == ps[0].bytes;
    assert PacketOk(w, w.stream[lo]);
  }

  /** The first `got` bytes of the buffer are the packets taken between the two worlds. */
  ghost predicate ReadInto(w0: World, w1: World, buf: seq<byte>, got: nat) {
    && w0.taken <= w1.taken <= |w1.stream| && got <= |buf|
    && FullButLast(w1.mps, Window(w1, w0.taken, w1.taken))
    && buf[..got] == Gather(Window(w1, w0.taken, w1.taken))
  }
}
