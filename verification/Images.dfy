/** Streams into the block device: what `std::io::copy` does over any sequence of buffer sizes. */
module Streams {
  import opened Bytes
  import opened Link
  import opened LinkHost
  import opened Effects
  import opened Plans
  import opened Batch
  import opened Blocks
  import opened BlockDevices

  /** The first `off` bytes of a stream are on the disk from `base` on. */
  ghost predicate Streamed(w0: World, w: World, base: nat, src: seq<byte>, off: nat) {
    Wf(w) && Later(w0, w) && Written(w0, w, base, src, off)
  }

  ghost predicate Broke(w0: World, w: World, base: nat, src: seq<byte>, done: nat, chunk: nat) {
    Wf(w) && Later(w0, w) && Stopped(w0, w, base, src, done, chunk)
  }

  lemma StreamStart(w: World, base: nat, src: seq<byte>)
    requires Wf(w)
    ensures Streamed(w, w, base, src, 0)
  {
    hide Wf;
    assert src[..0] == [];
  }

  lemma StreamMore(w0: World, w1: World, w2: World, base: nat, src: seq<byte>, off: nat, n: nat, plan: seq<Span>)
    requires Streamed(w0, w1, base, src, off) && 0 < n && off + n <= |src|
    requires Progress(w1, w2, base + off, src[off..off + n], n, plan)
    ensures Streamed(w0, w2, base, src, off + n)
    ensures w1.faults <= w2.faults && Aged(w1, w2) && (w2.mishaps == w1.mishaps ==> Clean(w2))
  {
    hide Wf, Patched, Clean;
    Joined(w0, w1, w2, base, src, off, n);
  }

  lemma StreamBreaks(w0: World, w1: World, w2: World, base: nat, src: seq<byte>, off: nat, n: nat,
                     done: nat, chunk: nat, plan: seq<Span>)
    requires Streamed(w0, w1, base, src, off) && off + n <= |src|
    requires Halted(w1, w2, base + off, src[off..off + n], done, chunk, plan)
    ensures Broke(w0, w2, base, src, off + done, chunk)
    ensures w1.faults <= w2.faults && Aged(w1, w2)
  {
    hide Wf, Written, Stopped;
    JoinedStop(w0, w1, w2, base, src, off, n, done, chunk);
  }

  /** One buffer of a stream: `write_all`, which a single call of `write` completes. */
  method WriteBuffer(dev: RkBlockDevice, piece: seq<byte>, ghost src: seq<byte>, ghost off: nat,
                     ghost w0: World, ghost base: nat)
    returns (r: Result<(), IoError>, ghost done: nat, ghost chunk: nat)
    requires 0 < |piece| && off + |piece| <= |src| && piece == src[off..off + |piece|] && dev.pos == base + off
    requires Streamed(w0, dev.rkdev.device.world, base, src, off)
    modifies dev`pos, dev.rkdev.device
    ensures var w1, w := old(dev.rkdev.device.world), dev.rkdev.device.world;
            && w1.faults <= w.faults && Aged(w1, w)
            && (if r.Ok? then Streamed(w0, w, base, src, off + |piece|) && (w.mishaps == w1.mishaps ==> Clean(w))
                else Broke(w0, w, base, src, done, chunk))
            && (r.Err? && AddressError(r.error) ==> !Addressable(base, |src|))
            && (r.Ok? ==> Addressable(base, off + |piece|))
            && (Clean(w1) && InTime(w1, w, w1.now + dev.timeout) ==>
                  if Addressable(base + off, |piece|) then r.Ok? else r.Err? && AddressError(r.error))
    ensures dev.pos == if r.Ok? then base + off + |piece| else base + off
  {
    hide Wf, Written, Stopped, Progress, Halted, Clean;
    ghost var w1 := dev.rkdev.device.world;
    var written;
    ghost var n := |piece|;
    written, done, chunk := dev.Write(piece);
    ghost var plan := BlockWritePlan(base + off, n, dev.subcode);
    if written.Err? {
      StreamBreaks(w0, w1, dev.rkdev.device.world, base, src, off, n, done, chunk, plan);
      return Err(written.error), off + done, chunk;
    }
    StreamMore(w0, w1, dev.rkdev.device.world, base, src, off, n, plan);
    return Ok(()), 0, 0;
  }

  /** Copy a stream to the device through buffers of any sizes: the same effect as one write. The last buffer was
      begun in `began`. */
  method Copy(dev: RkBlockDevice, src: seq<byte>)
    returns (r: Result<nat, IoError>, ghost done: nat, ghost chunk: nat, ghost began: World)
    requires Wf(dev.rkdev.device.world)
    modifies dev`pos, dev.rkdev.device
    ensures var w0, w := old(dev.rkdev.device.world), dev.rkdev.device.world;
            && Aged(w0, began) && Aged(began, w)
            && (if r.Ok? then Streamed(w0, w, old(dev.pos), src, |src|)
                else && old(dev.pos) <= dev.pos && Streamed(w0, began, old(dev.pos), src, dev.pos - old(dev.pos))
                     && Broke(w0, w, old(dev.pos), src, done, chunk))
            && (r.Err? && AddressError(r.error) ==> !Addressable(old(dev.pos), |src|))
            && (r.Ok? ==> Addressable(old(dev.pos), |src|))
            && (Clean(w0) && Healthy(w0, began, w, dev.timeout) ==>
                  if Addressable(old(dev.pos), |src|) then r.Ok? else r.Err? && AddressError(r.error))
    ensures r.Ok? ==> r.value == |src| && dev.pos == old(dev.pos) + |src|
  {
    hide Wf, Written, Stopped, Clean, Streamed, Broke;
    ghost var w0, base := dev.rkdev.device.world, dev.pos;
    StreamStart(w0, base, src);
    var off := 0;
    began := w0;
    while off < |src|
      invariant off <= |src| && dev.pos == base + off
      invariant Streamed(w0, dev.rkdev.device.world, base, src, off)
      invariant Addressable(base, off)
      invariant Aged(w0, began) && Aged(began, dev.rkdev.device.world)
      invariant Clean(w0) && dev.rkdev.device.world.mishaps == w0.mishaps ==> Clean(dev.rkdev.device.world)
    {
      var n: nat :| 0 < n <= |src| - off;
      began := dev.rkdev.device.world;
      var written;
      written, done, chunk := WriteBuffer(dev, src[off..off + n], src, off, w0, base);
      if written.Err? { return Err(written.error), done, chunk, began; }
      off := off + n;
    }
    return Ok(off), 0, 0, began;
  }

  // ----- Patches -----

  /** The bytes of `m` are on the disk for good, all others are as they were. */
  ghost predicate Applied(w0: World, w: World, m: Patch) {
    && Wf(w) && Later(w0, w)
    && (w.mishaps == w0.mishaps ==>
          && Patched(w0, w, m)
          && (Clean(w0) || m != map[] ==> Clean(w))
          && forall i | i in m :: 0 <= i < |w.disk|)
  }

  /** Bytes outside `m` are as they were, whatever happened to those inside. */
  ghost predicate OutsideKept(w0: World, w: World, m: Patch) {
    && Wf(w) && Later(w0, w)
    && (w.mishaps == w0.mishaps ==> forall i, b | i !in m && MayHold(w, i, b) :: MayHold(w0, i, b))
  }

  lemma NothingApplied(w: World)
    requires Wf(w)
    ensures Applied(w, w, map[]) && forall m: Patch :: OutsideKept(w, w, m)
  {
    hide Wf;
  }

  lemma ApplyStream(w0: World, w1: World, w: World, m: Patch, base: nat, src: seq<byte>)
    requires Applied(w0, w1, m) && Streamed(w1, w, base, src, |src|)
    ensures Applied(w0, w, m + Splice(base, src))
    ensures Wf(w) && w0.faults <= w1.faults <= w.faults && Aged(w1, w)
    ensures Clean(w1) && w.mishaps == w1.mishaps ==> Clean(w)
  {
    hide Wf, MayHold, Clean;
    assert src[..|src|] == src;
    if w.mishaps == w0.mishaps {
      Compose(w0, w1, w, m, Splice(base, src));
    }
  }

  lemma BreakStream(w0: World, w1: World, w: World, m: Patch, base: nat, src: seq<byte>, done: nat, chunk: nat, rest: Patch)
    requires Applied(w0, w1, m) && Broke(w1, w, base, src, done, chunk)
    ensures OutsideKept(w0, w, m + (Splice(base, src) + rest))
    ensures w0.faults <= w1.faults <= w.faults
  {
    hide Wf, MayHold, Clean;
  }

  /** A patch is on the disk, and the stream written after it stopped: `done` bytes of it are in place, the next
      `chunk` bytes are old or new, and everything else is as it was. */
  ghost predicate Interrupted(w0: World, w: World, m: Patch, base: nat, src: seq<byte>, done: nat, chunk: nat) {
    && Wf(w) && Later(w0, w) && done + chunk <= |src|
    && (w.mishaps == w0.mishaps ==>
          Broken(w0, w, m + Splice(base, src[..done]), Splice(base + done, src[done..done + chunk])))
  }

  lemma InterruptStream(w0: World, w1: World, w: World, m: Patch, base: nat, src: seq<byte>, done: nat, chunk: nat)
    requires Applied(w0, w1, m) && Broke(w1, w, base, src, done, chunk)
    ensures Interrupted(w0, w, m, base, src, done, chunk)
  {
    hide Wf, MayHold, Clean, Broken, Patched;
    if w.mishaps == w0.mishaps {
      ComposeBroken(w0, w1, w, m, Splice(base, src[..done]), Splice(base + done, src[done..done + chunk]));
    }
  }

  lemma NothingBroke(w: World, base: nat, src: seq<byte>)
    requires Wf(w)
    ensures Broke(w, w, base, src, 0, 0)
  {
    hide Wf;
    NotStarted(w, w, base, src);
  }

  lemma AppliedOutside(w0: World, w: World, m: Patch, rest: Patch)
    requires Applied(w0, w, m)
    ensures OutsideKept(w0, w, m + rest)
  {
    hide Wf, MayHold, Clean;
  }

  // ----- Repeated patterns -----

  /** Fills a buffer with whole copies of the pattern and says how much of it that is. */
  method RepeatRead(pattern: seq<byte>, buf: array<byte>) returns (n: nat)
    requires pattern != []
    modifies buf
    ensures n == buf.Length - buf.Length % |pattern|
    ensures forall i | 0 <= i < n :: buf[i] == pattern[i % |pattern|]
  {
    n := 0;
    while buf.Length - n >= |pattern|
      invariant n <= buf.Length && n % |pattern| == 0
      invariant forall i | 0 <= i < n :: buf[i] == pattern[i % |pattern|]
    {
      Fill(buf, n, pattern);
      CopyOfPattern(pattern, n);
      assert forall i | n <= i < n + |pattern| :: buf[i] == buf[n..n + |pattern|][i - n];
      assert forall i | 0 <= i < n :: buf[i] == buf[..n][i];
      n := n + |pattern|;
    }
    Remainder(buf.Length, n, |pattern|);
  }

  lemma CopyOfPattern(pattern: seq<byte>, n: nat)
    requires pattern != [] && n % |pattern| == 0
    ensures forall i | n <= i < n + |pattern| :: i % |pattern| == i - n
    ensures (n + |pattern|) % |pattern| == 0
  {
    var d := |pattern|;
    var q := n / d;
    assert n == q * d;
    forall i | n <= i < n + d ensures i % d == i - n {
      Division(i, d, q, i - n);
    }
    assert n + d == (q + 1) * d;
    Division(n + d, d, q + 1, 0);
  }

  lemma Remainder(length: nat, n: nat, d: nat)
    requires d > 0 && n <= length && n % d == 0 && length - n < d
    ensures length % d == length - n
  {
    Division(length, d, n / d, length - n);
  }
}
