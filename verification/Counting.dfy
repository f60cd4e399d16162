/** There are fewer short streams than there is data: whatever the writer does, some data does not get shorter. */
module Counting {
  import opened Bits
  import opened Deflate
  import opened OneReading

  /** `m` pigeons in fewer holes. */
  lemma {:induction false} Pigeonhole(f: nat -> nat, m: nat, k: nat) returns (i: nat, j: nat)
    requires k < m && forall h: nat :: h < m ==> f(h) < k
    ensures i < j < m && f(i) == f(j)
    decreases k
  {
    var top := f(m - 1);
    if h: nat :| h < m - 1 && f(h) == top {
      i, j := h, m - 1;
    } else {
      var g := (h: nat) => if f(h) > top then f(h) - 1 else f(h);
      assert forall h: nat :: h < m - 1 ==> g(h) < k - 1;
      i, j := Pigeonhole(g, m - 1, k - 1);
    }
  }

  // ---------------------------------------------------------------- bytes as numbers

  /** The `n` low bytes of a number. */
  ghost function LowBytes(v: nat, n: nat): (s: seq<byte>)
    ensures |s| == n
  {
    if n == 0 then [] else [(v % 256) as byte] + LowBytes(v / 256, n - 1)
  }

  lemma {:induction false} LowBytesUnique(v: nat, w: nat, n: nat)
    requires v < Pow2(8 * n) && w < Pow2(8 * n) && LowBytes(v, n) == LowBytes(w, n)
    ensures v == w
  {
    if n > 0 {
      EightMore(n);
      assert LowBytes(v, n)[0] == LowBytes(w, n)[0] && LowBytes(v, n)[1..] == LowBytes(w, n)[1..];
      LowBytesUnique(v / 256, w / 256, n - 1);
    } else {
      assert Pow2(0) == 1;
    }
  }

  lemma EightMore(n: nat)
    requires n > 0
    ensures Pow2(8 * n) == 256 * Pow2(8 * (n - 1))
  {
    hide Shl, Pow2;
    ShlPow2(8, 8 * (n - 1));
    ShlEight(Pow2(8 * (n - 1)));
  }

  /** A number for each byte string that starts as a stream does: only the upper half of the first byte is open. */
  ghost function Index(z: seq<byte>): nat
    requires z != []
  {
    Put(z[0] / 16, 4, Put(LE(z[1..]), 8 * |z[1..]|, 1))
  }

  lemma IndexBound(z: seq<byte>, n: nat)
    requires 1 <= |z| <= n
    ensures Index(z) < Pow2(8 * n - 3)
  {
    hide Put;
    var m := 8 * |z[1..]|;
    Pow2Values();
    LEBound(z[1..]);
    JoinBound(LE(z[1..]), m, 1, 1);
    JoinBound(z[0] / 16, 4, Put(LE(z[1..]), m, 1), m + 1);
    Pow2Mono(4 + (m + 1), 8 * n - 3);
  }

  lemma IndexUnique(a: seq<byte>, b: seq<byte>)
    requires a != [] && b != [] && a[0] % 16 == b[0] % 16 && Index(a) == Index(b)
    ensures a == b
  {
    hide Put;
    Pow2Values();
    var s, t := a[1..], b[1..];
    PutUnique(a[0] / 16, b[0] / 16, 4, Put(LE(s), 8 * |s|, 1), Put(LE(t), 8 * |t|, 1));
    OneOnTop(s, t);
    OneOnTop(t, s);
    LEBound(s);
    LEBound(t);
    PutUnique(LE(s), LE(t), 8 * |s|, 1, 1);
    LEInjective(s, t);
    assert a == [a[0]] + s && b == [b[0]] + t;
  }

  /** The one on top tells how many bytes there are. */
  lemma OneOnTop(s: seq<byte>, t: seq<byte>)
    requires Put(LE(s), 8 * |s|, 1) == Put(LE(t), 8 * |t|, 1)
    ensures |s| >= |t|
  {
    if |s| < |t| {
      LEBound(s);
      Pow2Values();
      JoinBound(LE(s), 8 * |s|, 1, 1);
      Pow2Mono(8 * |s| + 1, 8 * |t|);
      ShlPow2(8 * |t|, 0);
    }
  }

  // ---------------------------------------------------------------- streams and data

  /** What a stream inflates to, turned by `g` into something of `p`'s kind, is `p`. */
  ghost predicate Yields(z: seq<byte>, g: seq<byte> -> seq<byte>, p: seq<byte>) {
    exists data :: InflatesTo(z, true, data) && g(data) == p
  }

  /** A stream of at most `|p|` bytes for `p`. */
  ghost predicate HasShort(p: seq<byte>, g: seq<byte> -> seq<byte>) {
    exists z :: |z| <= |p| && Yields(z, g, p)
  }

  ghost function Short(p: seq<byte>, g: seq<byte> -> seq<byte>): (z: seq<byte>)
    requires HasShort(p, g)
    ensures |z| <= |p| && Yields(z, g, p)
  {
    var z :| |z| <= |p| && Yields(z, g, p);
    z
  }

  lemma StartsAsStream(z: seq<byte>, data: seq<byte>)
    requires InflatesTo(z, true, data)
    ensures |z| > 2 && z[0] % 16 == 8
  {
  }

  lemma YieldsOnce(z: seq<byte>, g: seq<byte> -> seq<byte>, p: seq<byte>, q: seq<byte>)
    requires Yields(z, g, p) && Yields(z, g, q)
    ensures p == q && |z| > 2 && z[0] % 16 == 8
  {
    hide InflatesTo;
    var a :| InflatesTo(z, true, a) && g(a) == p;
    var b :| InflatesTo(z, true, b) && g(b) == q;
    InflatesOnce(z, true, a, b);
    StartsAsStream(z, a);
  }

  /** The number of the short stream for the `n` low bytes of `v`. */
  ghost function ShortIndex(v: nat, n: nat, g: seq<byte> -> seq<byte>): nat {
    var p := LowBytes(v, n);
    if HasShort(p, g) && Short(p, g) != [] then Index(Short(p, g)) else 0
  }

  lemma ShortIndexUnique(v: nat, w: nat, n: nat, g: seq<byte> -> seq<byte>)
    requires v < Pow2(8 * n) && w < Pow2(8 * n)
    requires HasShort(LowBytes(v, n), g) && HasShort(LowBytes(w, n), g) && ShortIndex(v, n, g) == ShortIndex(w, n, g)
    ensures v == w && ShortIndex(v, n, g) < Pow2(8 * n - 3)
  {
    hide Yields, HasShort, Index, Pow2;
    var p, q := LowBytes(v, n), LowBytes(w, n);
    var a, b := Short(p, g), Short(q, g);
    YieldsOnce(a, g, p, p);
    YieldsOnce(b, g, q, q);
    IndexBound(a, n);
    IndexUnique(a, b);
    YieldsOnce(a, g, p, q);
    LowBytesUnique(v, w, n);
  }

  /** Of any length there is something that no stream of at most that length yields. */
  lemma TooFewStreams(n: nat, g: seq<byte> -> seq<byte>) returns (p: seq<byte>)
    ensures |p| == n && forall z :: Yields(z, g, p) ==> |z| > n
  {
    hide Yields, Short, Index, Pow2;
    if forall v: nat :: v < Pow2(8 * n) ==> HasShort(LowBytes(v, n), g) {
      var f := (v: nat) => ShortIndex(v, n, g);
      Fewer(n, LowBytes(0, n), g);
      forall v: nat | v < Pow2(8 * n) ensures f(v) < Pow2(8 * n - 3) {
        ShortIndexUnique(v, v, n, g);
      }
      var i, j := Pigeonhole(f, Pow2(8 * n), Pow2(8 * n - 3));
      ShortIndexUnique(i, j, n, g);
    } else {
      var v: nat :| v < Pow2(8 * n) && !HasShort(LowBytes(v, n), g);
      p := LowBytes(v, n);
    }
  }

  lemma Fewer(n: nat, p: seq<byte>, g: seq<byte> -> seq<byte>)
    requires HasShort(p, g) && |p| == n
    ensures n > 2 && Pow2(8 * n - 3) < Pow2(8 * n)
  {
    hide Yields;
    YieldsOnce(Short(p, g), g, p, p);
    assert Pow2(8 * n) == 2 * Pow2(8 * n - 1) == 4 * Pow2(8 * n - 2) == 8 * Pow2(8 * n - 3);
  }
}
