/** Bytes, the fixed-width unsigned integers of the source, and their byte encodings. */
module Bytes {

  type byte = n: int | 0 <= n < 0x100
  type u16 = n: int | 0 <= n < 0x1_0000
  type u32 = n: int | 0 <= n < 0x1_0000_0000
  type u64 = n: int | 0 <= n < 0x1_0000_0000_0000_0000

  datatype Option<+T> = None | Some(value: T)

  datatype Result<+T, +E> = Ok(value: T) | Err(error: E)

  function Zeros(n: nat): (z: seq<byte>)
    ensures |z| == n && forall i | 0 <= i < n :: z[i] == 0
  {
    seq(n, _ => 0)
  }

  function Le16(x: u16): (b: seq<byte>)
    ensures |b| == 2
  {
    [x % 256, x / 256]
  }

  function FromLe16(b: seq<byte>): u16
    requires |b| == 2
  {
    b[0] + 256 * (b[1] as int)
  }

  function Le32(x: u32): (b: seq<byte>)
    ensures |b| == 4
  {
    [x % 256, x / 256 % 256, x / 65536 % 256, x / 16777216]
  }

  function FromLe32(b: seq<byte>): u32
    requires |b| == 4
  {
    b[0] + 256 * (b[1] as int) + 65536 * (b[2] as int) + 16777216 * (b[3] as int)
  }

  function Be16(x: u16): (b: seq<byte>)
    ensures |b| == 2
  {
    [x / 256, x % 256]
  }

  function FromBe16(b: seq<byte>): u16
    requires |b| == 2
  {
    b[1] + 256 * (b[0] as int)
  }

  function Be32(x: u32): (b: seq<byte>)
    ensures |b| == 4
  {
    [x / 16777216, x / 65536 % 256, x / 256 % 256, x % 256]
  }

  function FromBe32(b: seq<byte>): u32
    requires |b| == 4
  {
    b[3] + 256 * (b[2] as int) + 65536 * (b[1] as int) + 16777216 * (b[0] as int)
  }

  lemma LastDigit(p: int, y: int)
    requires 0 <= p < 256
    ensures (p + 256 * y) % 256 == p && (p + 256 * y) / 256 == y
  {
  }

  lemma DigitByDigit(x: int)
    ensures x / 65536 == x / 256 / 256 && x / 16777216 == x / 256 / 256 / 256
  {
  }

  /** Base-256 digits, the facts every codec below rests on. */
  lemma Digits(p: int, q: int, r: int, s: int)
    requires 0 <= p < 256 && 0 <= q < 256 && 0 <= r < 256 && 0 <= s < 256
    ensures var x := p + 256 * q + 65536 * r + 16777216 * s;
            x % 256 == p && x / 256 % 256 == q && x / 65536 % 256 == r && x / 16777216 == s
  {
    DigitByDigit(p + 256 * q + 65536 * r + 16777216 * s);
    LastDigit(p, q + 256 * r + 65536 * s);
    LastDigit(q, r + 256 * s);
    LastDigit(r, s);
  }

  lemma DigitSum(x: u32)
    ensures x == x % 256 + 256 * (x / 256 % 256) + 65536 * (x / 65536 % 256) + 16777216 * (x / 16777216)
  {
    DigitByDigit(x);
  }

  lemma IntegersRoundTrip(h: u16, w: u32)
    ensures FromLe16(Le16(h)) == h && FromBe16(Be16(h)) == h
    ensures FromLe32(Le32(w)) == w && FromBe32(Be32(w)) == w
  {
    DigitSum(w);
  }

  // ----- Division by a variable -----

  lemma Division(a: nat, d: nat, q: nat, r: nat)
    requires d > 0 && a == q * d + r && r < d
    ensures a / d == q && a % d == r
  {
    var k := a / d - q;
    Product(k, d);
    assert a == (a / d) * d + a % d;
    assert k * d == r - a % d;
  }

  lemma Product(k: int, d: nat)
    ensures k > 0 ==> k * d >= d
    ensures k < 0 ==> k * d <= -(d as int)
  {
  }

  // ----- Buffers -----

  lemma SubSlice(data: seq<byte>, off: nat, n: nat, a: nat, b: nat)
    requires off + n <= |data| && a <= b <= n
    ensures data[off..off + n][a..b] == data[off + a..off + b]
  {
    var x, y := data[off..off + n][a..b], data[off + a..off + b];
    assert forall i | 0 <= i < |x| :: x[i] == data[off..off + n][a + i] == y[i];
  }

  lemma SuffixKept(before: seq<byte>, after: seq<byte>, cut: nat, hi: nat)
    requires |before| == |after| && cut <= hi <= |before| && after[cut..] == before[cut..]
    ensures after[hi..] == before[hi..]
  {
    assert after[hi..] == after[cut..][hi - cut..];
  }

  /** A stretch that was extended at its end. */
  lemma PrefixExtended(before: seq<byte>, after: seq<byte>, lo: nat, mid: nat, hi: nat)
    requires lo <= mid <= hi <= |before| == |after| && after[..mid] == before[..mid]
    ensures after[lo..mid] == before[lo..mid] && after[lo..hi] == before[lo..mid] + after[mid..hi]
    ensures after[..lo] == before[..lo]
  {
    assert after[lo..mid] == after[..mid][lo..];
    assert before[lo..mid] == before[..mid][lo..];
    assert after[lo..hi] == after[lo..mid] + after[mid..hi];
    assert after[..lo] == after[..mid][..lo];
  }

  lemma JoinSlices(front: seq<byte>, b: seq<byte>, cut: nat, hi: nat)
    requires cut <= hi <= |b| && front == b[..cut]
    ensures front + b[cut..hi] == b[..hi]
  {
  }

  /** A buffer after its stretch up to `hi` was filled with the beginning of a sector. */
  lemma Filled(before: seq<byte>, after: seq<byte>, lo: nat, mid: nat, hi: nat, sector: seq<byte>, rest: nat)
    requires lo <= mid <= hi <= |before| == |after| && rest == hi - mid <= |sector|
    requires after[mid..hi] == sector[..rest] && after[..mid] == before[..mid]
    ensures after[lo..hi] == (before[lo..mid] + sector)[..mid - lo + rest]
    ensures after[..lo] == before[..lo]
  {
    assert after[lo..mid] == after[..mid][lo..] == before[lo..mid];
    assert after[lo..hi] == after[lo..mid] + after[mid..hi];
    assert after[..lo] == after[..mid][..lo];
  }

  method Fill(buf: array<byte>, lo: nat, bytes: seq<byte>)
    requires lo + |bytes| <= buf.Length
    modifies buf
    ensures buf[lo..lo + |bytes|] == bytes
    ensures buf[..lo] == old(buf[..lo]) && buf[lo + |bytes|..] == old(buf[lo + |bytes|..])
  {
    forall j | 0 <= j < |bytes| {
      buf[lo + j] := bytes[j];
    }
  }
}
