/** How to follow the key schedule of RC4 for one key: a record of its 256 steps, and what a record that checks says. */
module Rc4Records {
  import opened Bytes
  import opened Rc4

  /** Step `i` finds the value `met[i]` at position `i` and swaps it to position `target[i]`. */
  datatype Record = Record(key: seq<byte>, target: seq<byte>, met: seq<byte>) {
    predicate Whole() {
      |key| > 0 && |target| == |met| == 256
    }

    function Before(i: byte): byte
      requires Whole()
    {
      if i == 0 then 0 else target[i - 1]
    }
  }

  /** The step goes where the key says. */
  predicate Aimed(r: Record, i: byte)
    requires r.Whole()
  {
    ((r.Before(i) as int) + r.met[i] + r.key[i % |r.key|]) % 256 == r.target[i]
  }

  /** Nothing was swapped to position `x` before step `n`, and the value there is still `v == x`; or step `p` was the last
      to swap something there. */
  ghost predicate Last(r: Record, x: byte, n: nat, p: nat, v: byte)
    requires r.Whole() && n <= 256
  {
    if p < n then r.target[p] == x && r.met[p] == v && forall k | p < k < n :: r.target[k] != x
    else v == x && forall k | 0 <= k < n :: r.target[k] != x
  }

  ghost predicate Checked(r: Record, i: byte)
    requires r.Whole()
  {
    Aimed(r, i) && exists p: nat :: Last(r, i, i, p, r.met[i])
  }

  /** The value at position `x` after `n` steps. */
  function Value(r: Record, x: byte, n: nat): byte
    requires r.Whole() && n <= 256
    decreases n
  {
    if n == 0 then x
    else if r.target[n - 1] == x then r.met[n - 1]
    else if x == n - 1 then Value(r, r.target[n - 1], n - 1)
    else Value(r, x, n - 1)
  }

  /** The steps from `p` on leave position `x` alone. */
  lemma {:induction false} Untouched(r: Record, x: byte, p: nat, n: nat)
    requires r.Whole() && p <= n <= 256 && forall k | p <= k < n :: r.target[k] != x && k != x
    ensures Value(r, x, n) == Value(r, x, p)
    decreases n
  {
    if p < n { Untouched(r, x, p, n - 1); }
  }

  lemma Pending(r: Record, x: byte, n: nat, p: nat, v: byte)
    requires r.Whole() && n <= 256 && n <= x && Last(r, x, n, p, v)
    ensures Value(r, x, n) == v
  {
    Untouched(r, x, if p < n then p + 1 else 0, n);
  }

  function Values(r: Record, n: nat): (s: seq<byte>)
    requires r.Whole() && n <= 256
    ensures |s| == 256 && forall x | 0 <= x < 256 :: s[x] == Value(r, x, n)
  {
    seq(256, x requires 0 <= x < 256 => Value(r, x, n))
  }

  function Identity(): (s: seq<byte>)
    ensures |s| == 256 && forall i | 0 <= i < 256 :: s[i] == i
  {
    seq(256, i requires 0 <= i < 256 => i)
  }

  lemma ValuesStep(r: Record, n: byte)
    requires r.Whole() && Checked(r, n)
    ensures var s := Values(r, n);
            && ((r.Before(n) as int) + s[n] + r.key[n % |r.key|]) % 256 == r.target[n]
            && Swap(s, n, r.target[n]) == Values(r, n + 1)
  {
    hide Last;
    var p: nat :| Last(r, n, n, p, r.met[n]);
    Pending(r, n, n, p, r.met[n]);
  }

  /** The rest of the schedule, from step `n` on. */
  lemma {:induction false} ScheduleFrom(r: Record, n: nat)
    requires r.Whole() && n <= 256 && forall i: byte :: Checked(r, i)
    ensures Schedule(r.key, Values(r, n), Identity()[n..], if n == 0 then 0 else r.target[n - 1]) == Values(r, 256)
    decreases 256 - n
  {
    hide Checked, Swap, Values, Identity;
    var rest := Identity()[n..];
    if n < 256 {
      var i: byte := n;
      assert Checked(r, i);
      ValuesStep(r, i);
      ScheduleFrom(r, n + 1);
      assert rest[0] == n && rest[1..] == Identity()[n + 1..];
    }
  }

  /** A record all of whose steps check is the key schedule. */
  lemma Scheduled(r: Record)
    requires r.Whole() && forall i: byte :: Checked(r, i)
    ensures Start(r.key) == State(Values(r, 256), 0, 0)
  {
    hide Checked, Schedule;
    ScheduleFrom(r, 0);
    assert Values(r, 0) == Identity() == seq(256, i requires 0 <= i < 256 => i);
    assert Identity()[0..] == Identity();
  }

  /** Step `p` is the last one to swap something to position `x`. */
  lemma SwappedTo(r: Record, x: byte, n: nat, p: nat)
    requires r.Whole() && p < n <= 256 && r.target[p] == x && (x <= p || n <= x)
    requires forall k | p < k < n :: r.target[k] != x
    ensures Value(r, x, n) == r.met[p]
  {
    Untouched(r, x, p + 1, n);
  }

  /** Step `x` itself is the last one to move something there. */
  lemma SwappedFrom(r: Record, x: byte, n: nat)
    requires r.Whole() && x < n <= 256 && forall k | x <= k < n :: r.target[k] != x
    ensures Value(r, x, n) == Value(r, r.target[x], x)
  {
    Untouched(r, x, x + 1, n);
  }

  // ----- Backwards -----

  /** The generator one byte earlier. */
  function Previous(st: State): State
    requires |st.s| == 256
  {
    var s := Swap(st.s, st.i, st.j);
    State(s, ((st.i as int) + 255) % 256, ((st.j as int) + 256 - s[st.i]) % 256)
  }

  /** No two states have the same successor: the generator can be run backwards. */
  lemma PreviousUndoes(st: State)
    requires |st.s| == 256
    ensures Previous(Next(st)) == st
  {
    var r := Next(st);
    assert Swap(r.s, r.i, r.j) == st.s;
  }

  /** One byte of keystream from a state of which only two positions are known. */
  lemma OneByte(st: State, i: byte, j: byte, a: byte, b: byte)
    requires |st.s| == 256 && i == ((st.i as int) + 1) % 256 && st.s[i] == a
    requires j == ((st.j as int) + a) % 256 && st.s[j] == b
    ensures var r := Next(st);
            && |r.s| == 256 && r.i == i && r.j == j && r.s[i] == b && r.s[j] == a
            && (forall x | 0 <= x < 256 && x != i && x != j :: r.s[x] == st.s[x])
            && Output(r) == r.s[((a as int) + b) % 256]
  {
  }

  lemma FourStates(st: State)
    requires |st.s| == 256
    ensures After(st, 1) == Next(st) && After(st, 2) == Next(Next(st))
    ensures After(st, 3) == Next(Next(Next(st))) && After(st, 4) == Next(Next(Next(Next(st))))
  {
    hide Next;
    var u := Next(st);
    var v := Next(u);
    assert After(st, 2) == After(u, 1) == After(v, 0);
    assert After(st, 3) == After(u, 2) == After(v, 1) == After(Next(v), 0);
    assert After(st, 4) == After(u, 3) == After(v, 2) == After(Next(v), 1);
  }

  // ----- Tables -----

  function AsByte(n: int): byte {
    if 0 <= n < 256 then n else 0
  }

  /** One of 16 values. */
  function Pick(i: int, a: int, b: int, c: int, d: int, e: int, f: int, g: int, h: int,
                k: int, l: int, m: int, n: int, o: int, p: int, q: int, r: int): int {
    if i < 8 then
      if i < 4 then (if i < 1 then a else if i < 2 then b else if i < 3 then c else d)
      else (if i < 5 then e else if i < 6 then f else if i < 7 then g else h)
    else
      if i < 12 then (if i < 9 then k else if i < 10 then l else if i < 11 then m else n)
      else (if i < 13 then o else if i < 14 then p else if i < 15 then q else r)
  }
}
