/** What a host operation has done to the disk, counting what commands still under way may yet do. */
module Effects {
  import opened Bytes
  import opened Link

  /** Every byte of the patch is on the disk for good; every other byte is what it was or was already
      going to be. */
  ghost predicate Patched(w0: World, w1: World, m: Patch) {
    |w1.disk| == |w0.disk| &&
    forall i, b :: MayHold(w1, i, b) ==> if i in m then b == m[i] else MayHold(w0, i, b)
  }

  /** Every byte of the patch is old or new, now and later; every other byte is as it was. */
  ghost predicate Torn(w0: World, w1: World, m: Patch) {
    |w1.disk| == |w0.disk| &&
    forall i, b :: MayHold(w1, i, b) ==> MayHold(w0, i, b) || (i in m && b == m[i])
  }

  /** The bytes of `written` are in place except where `torn` was being stored, whose bytes are old or new;
      everything else is as it was. */
  ghost predicate Broken(w0: World, w1: World, written: Patch, torn: Patch) {
    |w1.disk| == |w0.disk| &&
    forall i, b :: MayHold(w1, i, b) ==>
      (i in torn && b == torn[i]) || if i in written then b == written[i] else MayHold(w0, i, b)
  }

  lemma PatchedNow(w0: World, w1: World, m: Patch)
    requires Patched(w0, w1, m)
    ensures forall i | 0 <= i < |w1.disk| ::
      if i in m then w1.disk[i] == m[i] else MayHold(w0, i, w1.disk[i])
  {
    assert forall i | 0 <= i < |w1.disk| :: MayHold(w1, i, w1.disk[i]);
  }

  /** From a clean link a patch determines the disk. */
  lemma PatchedClean(w0: World, w1: World, m: Patch)
    requires Clean(w0) && Patched(w0, w1, m)
    ensures w1.disk == Overlay(w0.disk, m)
  {
    PatchedNow(w0, w1, m);
  }

  lemma Compose(w0: World, w1: World, w2: World, m1: Patch, m2: Patch)
    requires Patched(w0, w1, m1)
    ensures Patched(w1, w2, m2) ==> Patched(w0, w2, m1 + m2)
    ensures Torn(w1, w2, m2) ==> Broken(w0, w2, m1, m2)
  {
  }

  lemma ComposeBroken(w0: World, w1: World, w2: World, m1: Patch, m2: Patch, torn: Patch)
    requires Patched(w0, w1, m1) && Broken(w1, w2, m2, torn)
    ensures Broken(w0, w2, m1 + m2, torn)
  {
  }

  /** Rewriting a whole sector with bytes that are already there changes only the bytes that differ. */
  lemma Narrow(w0: World, w1: World, base: int, sector: seq<byte>, at: nat, data: seq<byte>)
    requires 0 <= base && base + |sector| <= |w0.disk| && at + |data| <= |sector|
    requires sector == w0.disk[base..base + at] + data + w0.disk[base + at + |data|..base + |sector|]
    ensures Patched(w0, w1, Splice(base, sector)) ==> Patched(w0, w1, Splice(base + at, data))
    ensures Torn(w0, w1, Splice(base, sector)) ==> Torn(w0, w1, Splice(base + at, data))
  {
    var m := Splice(base, sector);
    forall i | i in m && !(base + at <= i < base + at + |data|) ensures MayHold(w0, i, m[i]) {
      assert m[i] == w0.disk[i];
    }
    forall i | base + at <= i < base + at + |data| ensures i in m && m[i] == data[i - base - at] {
    }
  }
}
