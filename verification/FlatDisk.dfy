/** The reference the block device is measured against: a plain byte array with a cursor. */
module FlatDisks {
  import opened Bytes
  import opened Link
  import opened LinkHost
  import opened Effects
  import opened Plans
  import opened Batch
  import opened Blocks
  import opened RkDevices
  import opened BlockDevices

  datatype FlatDisk = FlatDisk(bytes: seq<byte>, cursor: nat)

  datatype Op = ReadOp(length: nat) | WriteOp(data: seq<byte>) | SeekOp(target: SeekFrom)

  datatype Reply = Content(bytes: seq<byte>) | Count(n: nat) | At(position: nat) | SeekRefused

  predicate Fits(f: FlatDisk, op: Op) {
    match op
    case ReadOp(n) => n == 0 || f.cursor + n <= |f.bytes|
    case WriteOp(data) => data == [] || f.cursor + |data| <= |f.bytes|
    case SeekOp(_) => true
  }

  function Apply(f: FlatDisk, op: Op, size: nat): (FlatDisk, Reply)
    requires Fits(f, op)
  {
    match op
    case ReadOp(n) =>
      if n == 0 then (f, Content([]))
      else (FlatDisk(f.bytes, f.cursor + n), Content(f.bytes[f.cursor..f.cursor + n]))
    case WriteOp(data) =>
      if data == [] then (f, Count(0))
      else (FlatDisk(f.bytes[..f.cursor] + data + f.bytes[f.cursor + |data|..], f.cursor + |data|), Count(|data|))
    case SeekOp(target) =>
      var p := SeekTarget(target, f.cursor, size);
      if 0 <= p < size then (FlatDisk(f.bytes, p), At(p)) else (f, SeekRefused)
  }

  /** All of the operations in turn, as long as they fit. */
  predicate AllFit(f: FlatDisk, ops: seq<Op>, size: nat)
    decreases |ops|
  {
    ops == [] || (Fits(f, ops[0]) && AllFit(Apply(f, ops[0], size).0, ops[1..], size))
  }

  function Run(f: FlatDisk, ops: seq<Op>, size: nat): (FlatDisk, seq<Reply>)
    requires AllFit(f, ops, size)
    decreases |ops|
  {
    if ops == [] then (f, [])
    else
      var (g, reply) := Apply(f, ops[0], size);
      var (h, replies) := Run(g, ops[1..], size);
      (h, [reply] + replies)
  }

  lemma RunSingle(f: FlatDisk, op: Op, size: nat)
    requires Fits(f, op)
    ensures AllFit(f, [op], size) && Run(f, [op], size) == (Apply(f, op, size).0, [Apply(f, op, size).1])
  {
    var (g, reply) := Apply(f, op, size);
    assert [op][1..] == [] && [reply] + [] == [reply];
    assert Run(g, [], size) == (g, []);
  }

  lemma {:induction false} RunOneMore(f: FlatDisk, ops: seq<Op>, op: Op, size: nat)
    requires AllFit(f, ops, size)
    ensures AllFit(f, ops + [op], size) <==> Fits(Run(f, ops, size).0, op)
    ensures Fits(Run(f, ops, size).0, op) ==>
      var (g, replies) := Run(f, ops, size);
      var (h, reply) := Apply(g, op, size);
      Run(f, ops + [op], size) == (h, replies + [reply])
    decreases |ops|
  {
    if ops == [] {
      assert [] + [op] == [op] && [op][1..] == [];
      assert AllFit(f, [op], size) <==> Fits(f, op);
      if Fits(f, op) {
        RunSingle(f, op, size);
        assert [] + [Apply(f, op, size).1] == [Apply(f, op, size).1];
      }
    } else {
      var g := Apply(f, ops[0], size).0;
      RunOneMore(g, ops[1..], op, size);
      assert (ops + [op])[1..] == ops[1..] + [op] && (ops + [op])[0] == ops[0];
      if Fits(Run(g, ops[1..], size).0, op) {
        var reply, replies := Apply(f, ops[0], size).1, Run(g, ops[1..], size).1;
        var last := Apply(Run(g, ops[1..], size).0, op, size).1;
        assert [reply] + (replies + [last]) == ([reply] + replies) + [last];
      }
    }
  }

  lemma {:induction false} PrefixFits(f: FlatDisk, ops: seq<Op>, n: nat, size: nat)
    requires AllFit(f, ops, size) && n <= |ops|
    ensures AllFit(f, ops[..n], size)
    decreases |ops|
  {
    if n > 0 {
      PrefixFits(Apply(f, ops[0], size).0, ops[1..], n - 1, size);
      assert ops[..n][1..] == ops[1..][..n - 1];
    }
  }

  /** Writing at the cursor and reading the same stretch back returns what was written, and nothing else moved. */
  lemma FlatReadBack(f: FlatDisk, data: seq<byte>, size: nat)
    requires Fits(f, WriteOp(data))
    ensures var g := Apply(f, WriteOp(data), size).0;
            && |g.bytes| == |f.bytes|
            && Apply(g.(cursor := f.cursor), ReadOp(|data|), size).1 == Content(data)
  {
  }

  /** The device holds the same bytes, for good, and has the same cursor. */
  ghost predicate Represents(w: World, pos: nat, f: FlatDisk) {
    Clean(w) && w.disk == f.bytes && pos == f.cursor
  }

  lemma WriteRefines(w0: World, w: World, pos: nat, data: seq<byte>, f: FlatDisk, plan: seq<Span>, size: nat)
    requires Represents(w0, pos, f) && Progress(w0, w, pos, data, |data|, plan) && w.mishaps == w0.mishaps
    ensures Fits(f, WriteOp(data)) && Represents(w, pos + |data|, Apply(f, WriteOp(data), size).0)
  {
    hide Wf;
    assert data[..|data|] == data;
    PatchedClean(w0, w, Splice(pos, data));
    assert w.disk == Apply(f, WriteOp(data), size).0.bytes;
  }

  lemma ReadRefines(w0: World, w: World, pos: nat, got: seq<byte>, f: FlatDisk, plan: seq<Span>, size: nat)
    requires Represents(w0, pos, f) && ReadProgress(w0, w, pos, got, plan) && w.mishaps == w0.mishaps
    ensures Fits(f, ReadOp(|got|))
    ensures var (g, reply) := Apply(f, ReadOp(|got|), size);
            Represents(w, pos + |got|, g) && reply == Content(got)
  {
    hide Wf;
    PatchedClean(w0, w, map[]);
    assert w.disk == w0.disk;
  }

  /** After a failed operation on a disk that held `f`: of a write, the first `done` bytes are in place and the next
      `chunk` bytes are old or new; every other byte is the old one, now and later. */
  ghost predicate Damaged(w: World, pos: nat, f: FlatDisk, op: Op, done: nat, chunk: nat) {
    && |w.disk| == |f.bytes| && pos == f.cursor
    && match op
       case WriteOp(data) =>
         && done + chunk <= |data|
         && forall i, b | MayHold(w, i, b) ::
              || (f.cursor + done <= i < f.cursor + done + chunk && b == data[i - f.cursor])
              || b == if f.cursor <= i < f.cursor + done then data[i - f.cursor] else f.bytes[i]
       case _ => forall i, b | MayHold(w, i, b) :: b == f.bytes[i]
  }

  lemma WriteDamages(w0: World, w: World, pos: nat, data: seq<byte>, f: FlatDisk, done: nat, chunk: nat)
    requires Represents(w0, pos, f) && Stopped(w0, w, pos, data, done, chunk) && w.mishaps == w0.mishaps
    ensures Damaged(w, pos, f, WriteOp(data), done, chunk)
  {
    var written, torn := Splice(pos, data[..done]), Splice(pos + done, data[done..done + chunk]);
    forall i, b | MayHold(w, i, b)
      ensures || (f.cursor + done <= i < f.cursor + done + chunk && b == data[i - f.cursor])
              || b == if f.cursor <= i < f.cursor + done then data[i - f.cursor] else f.bytes[i]
    {
      assert (i in torn && b == torn[i]) || if i in written then b == written[i] else MayHold(w0, i, b);
    }
  }

  lemma ReadDamages(w0: World, w: World, pos: nat, length: nat, f: FlatDisk)
    requires Represents(w0, pos, f) && Patched(w0, w, map[])
    ensures Damaged(w, pos, f, ReadOp(length), 0, 0)
  {
  }

  /** One operation on the device; None when the device reported an error. */
  method Perform(dev: RkBlockDevice, op: Op, ghost f: FlatDisk, ghost known: bool)
    returns (r: Option<Reply>, ghost done: nat, ghost chunk: nat)
    requires Wf(dev.rkdev.device.world)
    requires known ==> Represents(dev.rkdev.device.world, dev.pos, f)
    modifies dev`pos, dev.rkdev.device
    ensures r.None? ==> dev.pos == old(dev.pos)
    ensures var w0, w := old(dev.rkdev.device.world), dev.rkdev.device.world;
            && Wf(w) && Aged(w0, w)
            && (known && w.mishaps == w0.mishaps ==>
                  if r.Some? then
                    && Fits(f, op)
                    && Represents(w, dev.pos, Apply(f, op, dev.diskSizeBytes).0)
                    && r.value == Apply(f, op, dev.diskSizeBytes).1
                  else Damaged(w, dev.pos, f, op, done, chunk))
            && (known && InTime(w0, w, w0.now + dev.timeout) && Fits(f, op) && |f.bytes| <= (U32_LIMIT - 1) * SECTOR ==>
                  r.Some?)
  {
    hide Wf, Written, Stopped, Fetched, Patched, Clean, Represents, Addressable, WritePlan, ReadPlan, Damaged;
    ghost var w0, pos0 := dev.rkdev.device.world, dev.pos;
    done, chunk := 0, 0;
    RepresentsClean(w0, pos0, f);
    match op
    case ReadOp(length) =>
      var buf := new byte[length](_ => 0);
      var got := dev.Read(buf);
      ghost var w := dev.rkdev.device.world;
      FitsAddressable(f, length);
      if got.Err? {
        if known { ReadDamages(w0, w, pos0, length, f); }
        return None, 0, 0;
      }
      if known && w.mishaps == w0.mishaps {
        ReadRefines(w0, w, pos0, buf[..], f, BlockReadPlan(pos0, length, dev.subcode), dev.diskSizeBytes);
      }
      r := Some(Content(buf[..]));
    case WriteOp(data) =>
      var put;
      put, done, chunk := dev.Write(data);
      ghost var w := dev.rkdev.device.world;
      FitsAddressable(f, |data|);
      if put.Err? {
        if known && w.mishaps == w0.mishaps { WriteDamages(w0, w, pos0, data, f, done, chunk); }
        return None, done, chunk;
      }
      if known && w.mishaps == w0.mishaps {
        WriteRefines(w0, w, pos0, data, f, BlockWritePlan(pos0, |data|, dev.subcode), dev.diskSizeBytes);
      }
      r := Some(Count(put.value));
    case SeekOp(target) =>
      var at := dev.Seek(target);
      if known { SeekRefines(w0, pos0, dev.pos, f); }
      r := Some(if at.Ok? then At(at.value) else SeekRefused);
  }

  lemma RepresentsClean(w: World, pos: nat, f: FlatDisk)
    ensures Represents(w, pos, f) ==> Clean(w) && pos == f.cursor
  {
  }

  lemma SeekRefines(w: World, pos: nat, moved: nat, f: FlatDisk)
    requires Represents(w, pos, f)
    ensures Represents(w, moved, f.(cursor := moved))
  {
  }

  lemma FitsAddressable(f: FlatDisk, length: nat)
    ensures (length == 0 || f.cursor + length <= |f.bytes|) && |f.bytes| <= (U32_LIMIT - 1) * SECTOR ==>
      Addressable(f.cursor, length)
  {
  }

  /** Every sequence of reads, writes and seeks gives the results, the cursor and the contents of the byte
      array, for as long as the device reports no error, and what the failing operation, begun in `began`, can
      have damaged is bounded. The device reports no error if nothing goes wrong, no operation takes as long as
      its timeout, and every operation fits a disk of at most 2^32 - 1 sectors. */
  method Session(dev: RkBlockDevice, ops: seq<Op>, ghost f: FlatDisk)
    returns (replies: seq<Reply>, ghost done: nat, ghost chunk: nat, ghost began: World)
    requires Wf(dev.rkdev.device.world)
    requires Represents(dev.rkdev.device.world, dev.pos, f)
    modifies dev`pos, dev.rkdev.device
    ensures |replies| <= |ops|
    ensures var w0, w, size := old(dev.rkdev.device.world), dev.rkdev.device.world, dev.diskSizeBytes;
            && (w.mishaps == w0.mishaps ==>
                  && AllFit(f, ops[..|replies|], size)
                  && replies == Run(f, ops[..|replies|], size).1
                  && var now := Run(f, ops[..|replies|], size).0;
                     if |replies| == |ops| then Represents(w, dev.pos, now)
                     else Represents(began, dev.pos, now) && Damaged(w, dev.pos, now, ops[|replies|], done, chunk))
            && Aged(w0, began) && Aged(began, w)
            && (Healthy(w0, began, w, dev.timeout) && AllFit(f, ops, size) && |f.bytes| <= (U32_LIMIT - 1) * SECTOR ==>
                  |replies| == |ops|)
  {
    hide Wf, Represents, Apply, Fits, Damaged;
    replies, done, chunk := [], 0, 0;
    ghost var w0, size := dev.rkdev.device.world, dev.diskSizeBytes;
    ghost var now := f;
    began := w0;
    assert ops[..|ops|] == ops;
    while |replies| < |ops|
      invariant |replies| <= |ops|
      invariant Wf(dev.rkdev.device.world) && Aged(w0, began) && Aged(began, dev.rkdev.device.world)
      invariant dev.rkdev.device.world.mishaps == w0.mishaps ==>
        && AllFit(f, ops[..|replies|], size)
        && (now, replies) == Run(f, ops[..|replies|], size)
        && Represents(dev.rkdev.device.world, dev.pos, now)
      decreases |ops| - |replies|
    {
      var op := ops[|replies|];
      ghost var so := ops[..|replies|];
      ghost var known := dev.rkdev.device.world.mishaps == w0.mishaps;
      assert ops[..|replies| + 1] == so + [op];
      began := dev.rkdev.device.world;
      var r;
      r, done, chunk := Perform(dev, op, now, known);
      ghost var w := dev.rkdev.device.world;
      if known {
        RunOneMore(f, so, op, size);
        RunSize(f, so, size);
        if AllFit(f, ops, size) { PrefixFits(f, ops, |so| + 1, size); }
      }
      if r.None? { return; }
      now := if w.mishaps == w0.mishaps then Apply(now, op, size).0 else now;
      replies := replies + [r.value];
    }
  }

  lemma {:induction false} RunSize(f: FlatDisk, ops: seq<Op>, size: nat)
    requires AllFit(f, ops, size)
    ensures |Run(f, ops, size).0.bytes| == |f.bytes|
    decreases |ops|
  {
    if ops != [] {
      RunSize(Apply(f, ops[0], size).0, ops[1..], size);
    }
  }
}
