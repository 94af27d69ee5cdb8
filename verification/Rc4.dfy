/** RC4 as the IDBlocks use it: one key, the keystream started anew for every 512-byte sector. */
module Rc4 {
  import opened Bytes
  import opened Crc16

  const SECTOR_SIZE := 512
  const RC4_KEY: seq<byte> := [124, 78, 3, 4, 85, 5, 9, 7, 45, 44, 123, 56, 23, 13, 23, 17]

  /** 256 different bytes. */
  ghost predicate Permutation(s: seq<byte>) {
    |s| == 256 && forall i, j | 0 <= i < j < 256 :: s[i] != s[j]
  }

  function Swap(s: seq<byte>, i: nat, j: nat): (r: seq<byte>)
    requires i < |s| && j < |s|
    ensures |r| == |s|
  {
    s[i := s[j]][j := s[i]]
  }

  /** The key schedule over the indices still to come. */
  function Schedule(key: seq<byte>, s: seq<byte>, indices: seq<byte>, j: byte): (r: seq<byte>)
    requires |s| == 256 && |key| > 0
    ensures |r| == 256
    ensures Permutation(s) ==> Permutation(r)
    decreases |indices|
  {
    if indices == [] then s
    else
      var i := indices[0];
      var k := ((j as int) + s[i] + key[i % |key|]) % 256;
      Schedule(key, Swap(s, i, k), indices[1..], k)
  }

  datatype State = State(s: seq<byte>, i: byte, j: byte)

  function Start(key: seq<byte>): (st: State)
    requires |key| > 0
    ensures |st.s| == 256 && Permutation(st.s)
  {
    var identity := seq(256, i requires 0 <= i < 256 => i);
    State(Schedule(key, identity, identity, 0), 0, 0)
  }

  function Next(st: State): (r: State)
    requires |st.s| == 256
    ensures |r.s| == 256
    ensures Permutation(st.s) ==> Permutation(r.s)
  {
    var i := ((st.i as int) + 1) % 256;
    var j := ((st.j as int) + st.s[i]) % 256;
    State(Swap(st.s, i, j), i, j)
  }

  function Output(st: State): byte
    requires |st.s| == 256
  {
    st.s[((st.s[st.i] as int) + st.s[st.j]) % 256]
  }

  /** Data xored with the keystream from a state on. */
  function ApplyKeystream(st: State, data: seq<byte>): (r: seq<byte>)
    requires |st.s| == 256
    ensures |r| == |data|
    decreases |data|
  {
    if data == [] then []
    else
      var next := Next(st);
      [XorByte(data[0], Output(next))] + ApplyKeystream(next, data[1..])
  }

  /** The state after `n` bytes; it stays a permutation for as long as the generator runs. */
  function After(st: State, n: nat): (r: State)
    requires |st.s| == 256
    ensures |r.s| == 256
    ensures Permutation(st.s) ==> Permutation(r.s)
    decreases n
  {
    if n == 0 then st else After(Next(st), n - 1)
  }

  lemma {:induction false} KeystreamAt(st: State, data: seq<byte>, k: nat)
    requires |st.s| == 256 && k < |data|
    ensures ApplyKeystream(st, data)[k] == XorByte(data[k], Output(After(st, k + 1)))
    decreases k
  {
    if k > 0 {
      KeystreamAt(Next(st), data[1..], k - 1);
    }
  }

  /** Every whole sector of an area, encrypted with a restarted keystream; a fragment at the end is left as it is. */
  function Crypt(area: seq<byte>): (r: seq<byte>)
    ensures |r| == |area|
    decreases |area|
  {
    if |area| < SECTOR_SIZE then area
    else ApplyKeystream(Start(RC4_KEY), area[..SECTOR_SIZE]) + Crypt(area[SECTOR_SIZE..])
  }

  lemma XorByteTwice(x: byte, k: byte)
    ensures XorByte(XorByte(x, k), k) == x
  {
    var p, q := x as bv8, k as bv8;
    ByteAndBack(Xor8(p, q));
    assert Xor8(Xor8(p, q), q) == p;
    BitsAndBack(x);
  }

  lemma {:induction false} KeystreamTwice(st: State, data: seq<byte>)
    requires |st.s| == 256
    ensures ApplyKeystream(st, ApplyKeystream(st, data)) == data
    decreases |data|
  {
    hide Next, Output, XorByte;
    if data != [] {
      var next := Next(st);
      XorByteTwice(data[0], Output(next));
      KeystreamTwice(next, data[1..]);
      assert ApplyKeystream(st, data)[1..] == ApplyKeystream(next, data[1..]);
    }
  }

  /** Encrypting twice restores the area. */
  lemma {:induction false} CryptTwice(area: seq<byte>)
    ensures Crypt(Crypt(area)) == area
    decreases |area|
  {
    hide Start, ApplyKeystream;
    if |area| >= SECTOR_SIZE {
      var head, rest := area[..SECTOR_SIZE], area[SECTOR_SIZE..];
      KeystreamTwice(Start(RC4_KEY), head);
      CryptTwice(rest);
      var c := Crypt(area);
      assert c[..SECTOR_SIZE] == ApplyKeystream(Start(RC4_KEY), head) && c[SECTOR_SIZE..] == Crypt(rest);
      assert area == head + rest;
    }
  }

  /** Areas of whole sectors can be encrypted one by one or together. */
  lemma {:induction false} CryptConcat(a: seq<byte>, b: seq<byte>)
    requires |a| % SECTOR_SIZE == 0
    ensures Crypt(a + b) == Crypt(a) + Crypt(b)
    decreases |a|
  {
    hide Start, ApplyKeystream;
    if a == [] {
      assert a + b == b;
    } else {
      assert (a + b)[..SECTOR_SIZE] == a[..SECTOR_SIZE] && (a + b)[SECTOR_SIZE..] == a[SECTOR_SIZE..] + b;
      CryptConcat(a[SECTOR_SIZE..], b);
    }
  }

  /** Encrypt `a[lo..hi]` in place, sector by sector. */
  method CryptArea(a: array<byte>, lo: nat, hi: nat)
    requires lo <= hi <= a.Length
    modifies a
    ensures a[lo..hi] == Crypt(old(a[lo..hi]))
    ensures a[..lo] == old(a[..lo]) && a[hi..] == old(a[hi..])
  {
    hide Crypt, Permutation, Start, ApplyKeystream;
    var at := lo;
    ghost var was := a[..];
    CryptNothing();
    assert was[lo..lo] == [];
    while hi - at >= SECTOR_SIZE
      invariant lo <= at <= hi && (at - lo) % SECTOR_SIZE == 0
      invariant a[..lo] == was[..lo] && a[at..] == was[at..]
      invariant a[lo..at] == Crypt(was[lo..at])
    {
      ghost var before := a[..];
      CryptOne(a, at, at + SECTOR_SIZE);
      CryptedSector(was, before, a[..], lo, at);
      at := at + SECTOR_SIZE;
    }
    CryptedArea(was, a[..], lo, at, hi);
  }

  /** One sector: a fresh generator, every byte xored in place. */
  method CryptOne(a: array<byte>, at: nat, end: nat)
    requires at <= end <= a.Length
    modifies a
    ensures a[at..end] == ApplyKeystream(Start(RC4_KEY), old(a[at..end]))
    ensures a[..at] == old(a[..at]) && a[end..] == old(a[end..])
  {
    hide Permutation, Start, Next, Output, XorByte;
    var st := Start(RC4_KEY);
    ghost var was := a[..];
    ghost var target := ApplyKeystream(st, was[at..end]);
    var n := at;
    assert target == a[at..at] + target;
    while n < end
      invariant at <= n <= end && |st.s| == 256
      invariant target == a[at..n] + ApplyKeystream(st, was[n..end])
      invariant a[..at] == was[..at] && a[n..] == was[n..]
    {
      assert was[n..end][1..] == was[n + 1..end] && a[n] == a[n..][0];
      st := Next(st);
      ghost var before := a[..];
      a[n] := XorByte(a[n], Output(st));
      ByteReplaced(was, before, a[..], at, n);
      n := n + 1;
    }
    assert a[at..end] == target;
    assert a[end..] == a[n..][end - n..];
  }

  lemma ByteReplaced(was: seq<byte>, before: seq<byte>, after: seq<byte>, at: nat, n: nat)
    requires at <= n < |was| == |before| == |after| && after == before[n := after[n]]
    requires before[..at] == was[..at] && before[n..] == was[n..]
    ensures after[..at] == was[..at] && after[n + 1..] == was[n + 1..]
    ensures after[at..n + 1] == before[at..n] + [after[n]]
  {
    assert after[n + 1..] == before[n..][1..] == was[n..][1..];
  }

  lemma CryptNothing()
    ensures Crypt([]) == []
  {
  }

  lemma CryptSector(done: seq<byte>, sector: seq<byte>)
    requires |done| % SECTOR_SIZE == 0 && |sector| == SECTOR_SIZE
    ensures Crypt(done + sector) == Crypt(done) + ApplyKeystream(Start(RC4_KEY), sector)
  {
    hide Start, ApplyKeystream;
    CryptConcat(done, sector);
    assert sector[..SECTOR_SIZE] == sector && sector[SECTOR_SIZE..] == [];
    assert Crypt(sector) == ApplyKeystream(Start(RC4_KEY), sector) + Crypt([]);
  }

  lemma CryptedArea(was: seq<byte>, after: seq<byte>, lo: nat, at: nat, hi: nat)
    requires lo <= at <= hi <= |was| == |after| && (at - lo) % SECTOR_SIZE == 0 && hi - at < SECTOR_SIZE
    requires after[at..] == was[at..] && after[lo..at] == Crypt(was[lo..at])
    ensures after[lo..hi] == Crypt(was[lo..hi]) && after[hi..] == was[hi..]
  {
    var rest := was[at..hi];
    CryptConcat(was[lo..at], rest);
    assert was[lo..hi] == was[lo..at] + rest;
    assert after[at..hi] == after[at..][..hi - at] == rest;
    assert after[lo..hi] == after[lo..at] + after[at..hi];
    assert after[hi..] == after[at..][hi - at..];
  }

  lemma CryptedSector(was: seq<byte>, before: seq<byte>, after: seq<byte>, lo: nat, at: nat)
    requires lo <= at && at + SECTOR_SIZE <= |was| == |before| == |after| && (at - lo) % SECTOR_SIZE == 0
    requires before[..lo] == was[..lo] && before[at..] == was[at..] && before[lo..at] == Crypt(was[lo..at])
    requires after[at..at + SECTOR_SIZE] == ApplyKeystream(Start(RC4_KEY), before[at..at + SECTOR_SIZE])
    requires after[..at] == before[..at] && after[at + SECTOR_SIZE..] == before[at + SECTOR_SIZE..]
    ensures after[..lo] == was[..lo] && after[at + SECTOR_SIZE..] == was[at + SECTOR_SIZE..]
    ensures after[lo..at + SECTOR_SIZE] == Crypt(was[lo..at + SECTOR_SIZE])
  {
    hide Crypt, Start, ApplyKeystream;
    var sector := was[at..at + SECTOR_SIZE];
    assert before[at..at + SECTOR_SIZE] == before[at..][..SECTOR_SIZE] == sector;
    CryptSector(was[lo..at], sector);
    assert was[lo..at + SECTOR_SIZE] == was[lo..at] + sector;
    assert after[lo..at] == after[..at][lo..] == before[lo..at];
    assert after[lo..at + SECTOR_SIZE] == after[lo..at] + after[at..at + SECTOR_SIZE];
    assert after[..lo] == after[..at][..lo];
    assert after[at + SECTOR_SIZE..] == before[at..][SECTOR_SIZE..] == was[at..][SECTOR_SIZE..];
  }
}
