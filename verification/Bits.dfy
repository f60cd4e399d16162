/** Bit streams as natural numbers.  DEFLATE packs bits from the low end of each byte, so the bits
    still to be read are the number whose least significant bit comes next.  Reading past the end
    yields zero bits, which is what the number says too. */
module Bits {

  type byte = x: int | 0 <= x < 256

  function Pow2(n: nat): (p: nat)
    ensures p >= 1
  {
    if n == 0 then 1 else 2 * Pow2(n - 1)
  }

  /** `v << n` */
  function Shl(n: nat, v: nat): nat {
    if n == 0 then v else 2 * Shl(n - 1, v)
  }

  /** `v >> n`: what follows the next `n` bits. */
  function Drop(v: nat, n: nat): nat {
    if n == 0 then v else Drop(v / 2, n - 1)
  }

  /** `v & ((1 << n) - 1)`: the next `n` bits. */
  function Take(v: nat, n: nat): nat {
    if n == 0 then 0 else v % 2 + 2 * Take(v / 2, n - 1)
  }

  /** `n` bits holding `code`, and then the bits of `rest`. */
  function Put(code: nat, n: nat, rest: nat): nat {
    code + Shl(n, rest)
  }

  lemma Pow2Values()
    ensures Pow2(0) == 1 && Pow2(1) == 2 && Pow2(2) == 4 && Pow2(3) == 8 && Pow2(4) == 16
    ensures Pow2(5) == 32 && Pow2(6) == 64 && Pow2(7) == 128 && Pow2(8) == 256 && Pow2(9) == 512
    ensures Pow2(10) == 1024 && Pow2(11) == 2048 && Pow2(12) == 4096 && Pow2(13) == 8192
    ensures Pow2(14) == 16384 && Pow2(15) == 32768 && Pow2(16) == 65536
  {
    assert Pow2(4) == 16;
    assert Pow2(8) == 256;
    assert Pow2(12) == 4096;
  }

  // ---------------------------------------------------------------- shifting left

  lemma {:induction false} ShlPow2(n: nat, m: nat)
    ensures Shl(n, Pow2(m)) == Pow2(m + n)
  {
    if n > 0 { ShlPow2(n - 1, m); }
  }

  lemma {:induction false} ShlAdd(m: nat, n: nat, v: nat)
    ensures Shl(m, Shl(n, v)) == Shl(m + n, v)
  {
    if m > 0 { ShlAdd(m - 1, n, v); }
  }

  lemma {:induction false} ShlSum(n: nat, a: nat, b: nat)
    ensures Shl(n, a + b) == Shl(n, a) + Shl(n, b)
  {
    if n > 0 { ShlSum(n - 1, a, b); }
  }

  lemma ShlEight(v: nat)
    ensures Shl(8, v) == 256 * v
  {
    assert Shl(1, v) == 2 * v;
    assert Shl(2, v) == 4 * v;
    assert Shl(3, v) == 8 * v;
    assert Shl(4, v) == 16 * v;
    assert Shl(5, v) == 32 * v;
    assert Shl(6, v) == 64 * v;
    assert Shl(7, v) == 128 * v;
  }

  lemma {:induction false} ShlMono(n: nat, a: nat, b: nat)
    ensures a <= b <==> Shl(n, a) <= Shl(n, b)
  {
    if n > 0 { ShlMono(n - 1, a, b); }
  }

  lemma {:induction false} ShlGrows(n: nat, v: nat)
    ensures v <= Shl(n, v)
  {
    if n > 0 { ShlGrows(n - 1, v); }
  }

  lemma {:induction false} Pow2Mono(a: nat, b: nat)
    requires a <= b
    ensures Pow2(a) <= Pow2(b)
    decreases b
  {
    if a < b { Pow2Mono(a, b - 1); }
  }

  // ---------------------------------------------------------------- putting and taking bits

  lemma {:induction false} TakeBound(v: nat, n: nat)
    ensures Take(v, n) < Pow2(n)
  {
    if n > 0 { TakeBound(v / 2, n - 1); }
  }

  lemma {:induction false} TakePut(code: nat, n: nat, rest: nat)
    requires code < Pow2(n)
    ensures Take(Put(code, n, rest), n) == code
    ensures Drop(Put(code, n, rest), n) == rest
  {
    if n > 0 {
      TakePut(code / 2, n - 1, rest);
      assert Put(code, n, rest) / 2 == Put(code / 2, n - 1, rest);
    }
  }

  lemma PutUnique(a: nat, b: nat, n: nat, rest: nat, rest': nat)
    requires a < Pow2(n) && b < Pow2(n) && Put(a, n, rest) == Put(b, n, rest')
    ensures a == b && rest == rest'
  {
    TakePut(a, n, rest);
    TakePut(b, n, rest');
  }

  lemma {:induction false} PutTake(v: nat, n: nat)
    ensures Put(Take(v, n), n, Drop(v, n)) == v
  {
    if n > 0 { PutTake(v / 2, n - 1); }
  }

  lemma TakeSmall(v: nat, n: nat)
    requires v < Pow2(n)
    ensures Take(v, n) == v && Drop(v, n) == 0
  {
    ShlZero(n);
    TakePut(v, n, 0);
  }

  lemma {:induction false} ShlZero(n: nat)
    ensures Shl(n, 0) == 0
  {
    if n > 0 { ShlZero(n - 1); }
  }

  /** Two fields one after the other are one field. */
  lemma PutPut(a: nat, m: nat, b: nat, n: nat, rest: nat)
    ensures Put(a, m, Put(b, n, rest)) == Put(Put(a, m, b), m + n, rest)
  {
    ShlSum(m, b, Shl(n, rest));
    ShlAdd(m, n, rest);
  }

  /** What is appended to `n` bits goes in front of what follows them. */
  lemma PutAppended(v: nat, n: nat, code: nat, bits: nat)
    ensures forall rest: nat :: Put(Put(v, n, code), n + bits, rest) == Put(v, n, Put(code, bits, rest))
  {
    forall rest: nat ensures Put(Put(v, n, code), n + bits, rest) == Put(v, n, Put(code, bits, rest)) {
      PutPut(v, n, code, bits, rest);
    }
  }

  /** A field made of two fields is in range. */
  lemma JoinBound(a: nat, m: nat, b: nat, n: nat)
    requires a < Pow2(m) && b < Pow2(n)
    ensures Put(a, m, b) < Pow2(m + n)
  {
    ShlPow2(m, n);
    ShlMono(m, b + 1, Pow2(n));
    ShlSum(m, b, 1);
    ShlPow2(m, 0);
  }

  /** The low `m` of `m + n` bits, and the others. */
  lemma {:induction false} Split(v: nat, m: nat, n: nat)
    ensures Take(v, m + n) == Put(Take(v, m), m, Take(Drop(v, m), n))
    ensures Drop(v, m + n) == Drop(Drop(v, m), n)
  {
    if m > 0 {
      Split(v / 2, m - 1, n);
    }
  }

  lemma TakeTake(v: nat, m: nat, n: nat)
    ensures Take(Take(v, m + n), m) == Take(v, m)
    ensures Drop(Take(v, m + n), m) == Take(Drop(v, m), n)
  {
    Split(v, m, n);
    TakeBound(v, m);
    TakePut(Take(v, m), m, Take(Drop(v, m), n));
  }

  /** A field of a stream whose first `m` bits are known. */
  lemma TakeInside(code: nat, m: nat, rest: nat, n: nat)
    requires n <= m && code < Pow2(m)
    ensures Take(Put(code, m, rest), n) == Take(code, n)
    ensures Drop(Put(code, m, rest), n) == Put(Drop(code, n), m - n, rest)
    ensures Drop(code, n) < Pow2(m - n)
  {
    var v := Put(code, m, rest);
    TakePut(code, m, rest);
    TakeTake(v, n, m - n);
    Split(v, n, m - n);
    PutTake(Drop(v, n), m - n);
    TakeBound(Drop(v, n), m - n);
  }

  lemma {:induction false} DropBetween(v: nat, n: nat, a: nat, b: nat)
    ensures Shl(n, a) <= v < Shl(n, b) <==> a <= Drop(v, n) < b
  {
    if n > 0 { DropBetween(v / 2, n - 1, a, b); }
  }

  // ---------------------------------------------------------------- bytes as a number

  /** The bits of `bytes`, first byte first, each byte from its low end. */
  function LE(bytes: seq<byte>): nat {
    if bytes == [] then 0 else Put(bytes[0], 8, LE(bytes[1..]))
  }

  lemma {:induction false} LEAppend(a: seq<byte>, b: seq<byte>)
    ensures LE(a + b) == Put(LE(a), 8 * |a|, LE(b))
  {
    if a == [] {
      assert a + b == b;
    } else {
      assert (a + b)[1..] == a[1..] + b;
      LEAppend(a[1..], b);
      PutPut(a[0], 8, LE(a[1..]), 8 * |a[1..]|, LE(b));
    }
  }

  lemma {:induction false} LEBound(a: seq<byte>)
    ensures LE(a) < Pow2(8 * |a|)
  {
    if a != [] {
      LEBound(a[1..]);
      Pow2Values();
      JoinBound(a[0], 8, LE(a[1..]), 8 * |a[1..]|);
    }
  }

  lemma AppendByte(a: seq<byte>, b: byte, rest: nat)
    ensures Put(LE(a), 8 * |a|, Put(b, 8, rest)) == Put(LE(a + [b]), 8 * |a + [b]|, rest)
  {
    LEAppend(a, [b]);
    ShlZero(8);
    assert LE([b]) == Put(b, 8, LE([b][1..]));
    PutPut(LE(a), 8 * |a|, b, 8, rest);
  }

  lemma FourBytes(a: byte, b: byte, c: byte, d: byte, rest: nat)
    ensures Put(LE([a, b, c, d]), 32, rest) == Put(b * 256 + a, 16, Put(d * 256 + c, 16, rest))
  {
    TwoBytes(a, b);
    TwoBytes(c, d);
    assert [a, b, c, d] == [a, b] + [c, d];
    LEAppend([a, b], [c, d]);
    PutPut(b * 256 + a, 16, d * 256 + c, 16, rest);
  }

  lemma TwoBytes(a: byte, b: byte)
    ensures LE([a, b]) == b * 256 + a
  {
    assert [a, b][1..] == [b] && [b][1..] == [];
    ShlZero(8);
    Pow2Values();
    assert LE([b]) == b;
    ShlEight(b);
  }

  /** Equal numbers of equally many bytes are equal bytes. */
  lemma {:induction false} LEInjective(a: seq<byte>, b: seq<byte>)
    requires |a| == |b| && LE(a) == LE(b)
    ensures a == b
  {
    if a != [] {
      Pow2Values();
      TakePut(a[0], 8, LE(a[1..]));
      TakePut(b[0], 8, LE(b[1..]));
      LEInjective(a[1..], b[1..]);
      assert a == [a[0]] + a[1..] && b == [b[0]] + b[1..];
    }
  }

  // ---------------------------------------------------------------- reversing a code

  /** The low `n` bits of `v` in the opposite order. */
  function Rev(v: nat, n: nat): nat {
    if n == 0 then 0 else (if v % 2 == 1 then Pow2(n - 1) else 0) + Rev(v / 2, n - 1)
  }

  lemma {:induction false} RevBound(v: nat, n: nat)
    ensures Rev(v, n) < Pow2(n)
  {
    if n > 0 { RevBound(v / 2, n - 1); }
  }

  lemma {:induction false} RevLast(v: nat, n: nat)
    ensures Rev(v, n + 1) == 2 * Rev(v, n) + Drop(v, n) % 2
  {
    if n > 0 { RevLast(v / 2, n - 1); }
  }

  lemma {:induction false} TakeLast(v: nat, n: nat)
    ensures Take(v, n + 1) == Take(v, n) + if Drop(v, n) % 2 == 1 then Pow2(n) else 0
  {
    if n > 0 { TakeLast(v / 2, n - 1); }
  }

  /** Reversing twice gives the low bits back. */
  lemma {:induction false} RevRev(v: nat, n: nat)
    ensures Rev(Rev(v, n), n) == Take(v, n)
  {
    if n > 0 {
      RevLast(v, n - 1);
      RevRev(v, n - 1);
      TakeLast(v, n - 1);
    }
  }

  /** Only the low `n` bits matter. */
  lemma {:induction false} RevTake(v: nat, n: nat)
    ensures Rev(Take(v, n), n) == Rev(v, n)
  {
    if n > 0 { RevTake(v / 2, n - 1); }
  }

  lemma {:induction false} RevTwo(v: nat, m: nat, n: nat)
    ensures Rev(v, m + n) == Put(Rev(Drop(v, m), n), n, Rev(v, m))
  {
    if m == 0 {
      ShlZero(n);
    } else {
      RevTwo(v / 2, m - 1, n);
      ShlPow2(n, m - 1);
      ShlSum(n, Pow2(m - 1), Rev(v / 2, m - 1));
    }
  }

  /** The first `n` of `n + m` bits are the top `n` bits of the reversal. */
  lemma RevPrefix(v: nat, n: nat, m: nat)
    ensures Drop(Rev(v, n + m), m) == Rev(v, n)
  {
    RevTwo(v, n, m);
    RevBound(Drop(v, n), m);
    TakePut(Rev(Drop(v, n), m), m, Rev(v, n));
  }

  lemma {:induction false} RevZero(n: nat)
    ensures Rev(0, n) == 0
  {
    if n > 0 { RevZero(n - 1); }
  }

  // ---------------------------------------------------------------- words that show a stream from the high end

  /** Shifting a word of `n` bits to the left drops the first bits of the stream it shows. */
  lemma ShiftOut(x: nat, n: nat, s: nat)
    requires s <= n
    ensures Rev(Take(Shl(s, x), n), n) == Drop(Rev(x, n), s)
  {
    var v := Shl(s, x);
    RevTake(v, n);
    RevTwo(v, s, n - s);
    assert v == Put(0, s, x);
    TakePut(0, s, x);
    RevTake(v, s);
    RevZero(s);
    ShlZero(n - s);
    RevPrefix(x, n - s, s);
  }

  /** The top `m` of `n` bits are the first `m` bits of the stream they show. */
  lemma TopBits(x: nat, n: nat, m: nat)
    requires x < Pow2(n) && m <= n
    ensures Drop(x, n - m) == Rev(Rev(x, n), m)
  {
    RevRev(x, n);
    TakeSmall(x, n);
    RevPrefix(Rev(x, n), m, n - m);
  }

  /** `n` more bits, put below the first `k` of a word of `w` bits. */
  lemma OrBits(w: nat, k: nat, n: nat, x: nat, code: nat)
    requires x < Pow2(w) && Rev(x, w) < Pow2(k) && code < Pow2(n) && k + n <= w
    ensures x + Shl(w - k - n, code) < Pow2(w)
    ensures Rev(x + Shl(w - k - n, code), w) == Put(Rev(x, w), k, Rev(code, n))
    ensures Put(Rev(x, w), k, Rev(code, n)) < Pow2(k + n)
  {
    hide Rev, Take, Drop, Pow2;
    var r, c := Rev(x, w), Rev(code, n);
    var v := Put(r, k, c);
    RevBound(code, n);
    TakePut(r, k, c);
    RevTwo(v, k, w - k);
    RevTake(v, k);
    WordOf(code, n, w - k);
    WordTop(x, w, k);
    RevBound(v, w);
    JoinBound(r, k, c, n);
    Pow2Mono(k + n, w);
    RevRev(v, w);
    TakeSmall(v, w);
  }

  /** A code of `n` bits at the top of a word of `m` bits. */
  lemma WordOf(code: nat, n: nat, m: nat)
    requires code < Pow2(n) && n <= m
    ensures Rev(Rev(code, n), m) == Shl(m - n, code)
  {
    hide Rev;
    var c := Rev(code, n);
    RevBound(code, n);
    RevTwo(c, n, m - n);
    RevRev(code, n);
    TakeSmall(code, n);
    TakeSmall(c, n);
    RevZero(m - n);
  }

  /** A word that shows only `k` bits. */
  lemma WordTop(x: nat, w: nat, k: nat)
    requires x < Pow2(w) && Rev(x, w) < Pow2(k) && k <= w
    ensures x == Shl(w - k, Rev(Rev(x, w), k))
  {
    hide Rev;
    var r := Rev(x, w);
    TakeSmall(r, k);
    RevTwo(r, k, w - k);
    RevZero(w - k);
    RevRev(x, w);
    TakeSmall(x, w);
  }
}
