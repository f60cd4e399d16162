/** The Adler-32 check value (section 8.2 of RFC 1950): the definition reduces after every byte, the
    writer only after every 5552 bytes. */
module Adler {
  import opened Bits

  const BASE: nat := 65521
  const NMAX: nat := 5552

  /** The two sums of section 8.2, reduced after every byte. */
  function Sums(data: seq<byte>): (s: (nat, nat))
    ensures s.0 < BASE && s.1 < BASE
  {
    if data == [] then (1, 0)
    else
      var (a, b) := Sums(data[..|data| - 1]);
      var a' := (a + data[|data| - 1]) % BASE;
      (a', (b + a') % BASE)
  }

  /** The value as the four bytes that end a zlib stream. */
  function Trailer(data: seq<byte>): (t: seq<byte>)
    ensures |t| == 4
  {
    var (a, b) := Sums(data);
    [b / 256, b % 256, a / 256, a % 256]
  }

  lemma Congruent(x: nat, y: nat, c: nat)
    requires x % BASE == y % BASE
    ensures (x + c) % BASE == (y + c) % BASE
  {
  }

  /** Bounds on the two sums `k` bytes after a reduction. */
  function Cap1(k: nat): nat {
    BASE - 1 + 255 * k
  }

  function Cap2(k: nat): nat {
    if k == 0 then BASE - 1 else Cap2(k - 1) + Cap1(k)
  }

  lemma {:induction false} Cap2Grows(j: nat, k: nat)
    requires j <= k
    ensures Cap2(j) <= Cap2(k)
    decreases k
  {
    if j < k { Cap2Grows(j, k - 1); }
  }

  lemma {:induction false} Cap2Closed(k: nat)
    ensures 2 * Cap2(k) == 2 * (BASE - 1) * (k + 1) + 255 * k * (k + 1)
  {
    if k > 0 { Cap2Closed(k - 1); }
  }

  /** Sums before a reduction fit 32 bits. */
  lemma NoOverflow(k: nat)
    requires k <= NMAX
    ensures Cap1(k) <= 0xFFFF_FFFF && Cap2(k) <= 0xFFFF_FFFF
  {
    Cap2Grows(k, NMAX);
    Cap2Closed(NMAX);
  }

  lemma OneByte(data: seq<byte>, n: nat, s1: nat, s2: nat)
    requires n < |data| && s1 % BASE == Sums(data[..n]).0 && s2 % BASE == Sums(data[..n]).1
    ensures (s1 + data[n]) % BASE == Sums(data[..n + 1]).0
    ensures (s2 + (s1 + data[n])) % BASE == Sums(data[..n + 1]).1
  {
    assert data[..n + 1][..n] == data[..n] && data[..n + 1][n] == data[n];
    var (a, b) := Sums(data[..n]);
    Congruent(s1, a, data[n]);
    Congruent(s2, b, s1 + data[n]);
    Congruent(s1 + data[n], (a + data[n]) % BASE, b);
  }

  /** One block: sums grow without reduction, and stay within 32 bits. */
  method Block(data: seq<byte>, j: nat, blocklen: nat, s1: nat, s2: nat) returns (t1: nat, t2: nat)
    requires j + blocklen <= |data| && blocklen <= NMAX
    requires (s1, s2) == Sums(data[..j])
    ensures (t1, t2) == Sums(data[..j + blocklen])
  {
    t1, t2 := s1, s2;
    for i := 0 to blocklen
      invariant t1 <= Cap1(i) && t2 <= Cap2(i)
      invariant t1 % BASE == Sums(data[..j + i]).0 && t2 % BASE == Sums(data[..j + i]).1
    {
      OneByte(data, j + i, t1, t2);
      NoOverflow(i + 1);
      t1 := t1 + data[j + i];
      assert t1 <= 0xFFFF_FFFF;
      t2 := t2 + t1;
      assert t2 <= 0xFFFF_FFFF;
    }
    t1, t2 := t1 % BASE, t2 % BASE;
  }

  /** The writer's loop: a first block of `|data| % 5552` bytes, maybe none, and then full blocks. */
  method Adler32(data: seq<byte>) returns (s1: nat, s2: nat)
    ensures (s1, s2) == Sums(data)
  {
    s1, s2 := 1, 0;
    var blocklen := |data| % NMAX;
    var j := 0;
    while j < |data|
      invariant j <= |data| && (s1, s2) == Sums(data[..j])
      invariant blocklen == NMAX || (j == 0 && blocklen < NMAX)
      invariant j + blocklen <= |data| || j == |data|
      invariant (|data| - j - blocklen) % NMAX == 0
      decreases |data| - j, NMAX - blocklen
    {
      s1, s2 := Block(data, j, blocklen, s1, s2);
      j := j + blocklen;
      blocklen := NMAX;
    }
    assert data[..j] == data;
  }
}
