/** Entropy-coded JPEG data (section F.1.2.3 of ITU-T T.81): bits go out from the high end of each byte,
    and a zero byte is stuffed behind each byte 255. */
module JpegBits {
  import opened Bits
  import opened Streams
  import opened JpegHuffman

  // ---------------------------------------------------------------- bytes from the high end

  ghost function Mirror(bytes: seq<byte>): (r: seq<byte>)
    ensures |r| == |bytes|
  {
    seq(|bytes|, i requires 0 <= i < |bytes| => Mirror1(bytes[i]))
  }

  ghost function Mirror1(b: byte): (r: byte) {
    RevBound(b, 8);
    Pow2Values();
    Rev(b, 8)
  }

  /** The bits of `bytes` as a stream, the high end of each byte first. */
  ghost function High(bytes: seq<byte>): nat {
    LE(Mirror(bytes))
  }

  lemma HighAppend(a: seq<byte>, b: byte, rest: nat)
    ensures Put(High(a), 8 * |a|, Put(Rev(b, 8), 8, rest)) == Put(High(a + [b]), 8 * |a + [b]|, rest)
  {
    assert Mirror(a + [b]) == Mirror(a) + [Mirror1(b)];
    AppendByte(Mirror(a), Mirror1(b), rest);
  }

  lemma HighFirst(b: byte, rest: seq<byte>)
    ensures High([b] + rest) == Put(Rev(b, 8), 8, High(rest))
  {
    var m := Mirror([b] + rest);
    assert m[1..] == Mirror(rest) && m[0] == Mirror1(b);
  }

  lemma HighEmpty()
    ensures High([]) == 0
  {
  }

  // ---------------------------------------------------------------- stuffing

  ghost function Stuffed(bytes: seq<byte>): seq<byte> {
    if bytes == [] then [] else Stuffed(bytes[..|bytes| - 1]) + Stuff1(bytes[|bytes| - 1])
  }

  ghost function Stuff1(b: byte): seq<byte> {
    if b == 255 then [b, 0] else [b]
  }

  /** What follows a run of bytes 255. */
  ghost function SkipFill(s: seq<byte>): (r: seq<byte>)
    ensures |r| <= |s|
  {
    if s != [] && s[0] == 255 then SkipFill(s[1..]) else s
  }

  /** The data bytes up to the first marker. */
  ghost function Unstuffed(s: seq<byte>): seq<byte>
    decreases |s|
  {
    if s == [] then []
    else if s[0] != 255 then [s[0]] + Unstuffed(s[1..])
    else
      var t := SkipFill(s[1..]);
      if t == [] then [255] else if t[0] == 0 then [255] + Unstuffed(t[1..]) else []
  }

  lemma UnstuffFirst(b: byte, rest: seq<byte>)
    ensures Unstuffed(Stuff1(b) + rest) == [b] + Unstuffed(rest)
  {
    var s := Stuff1(b) + rest;
    if b == 255 {
      assert s[1..] == [0] + rest && SkipFill(s[1..]) == s[1..] && s[1..][1..] == rest;
    } else {
      assert s[1..] == rest;
    }
  }

  /** Stuffing is undone, whatever follows. */
  lemma {:induction false} UnstuffStuffed(bytes: seq<byte>, rest: seq<byte>)
    ensures Unstuffed(Stuffed(bytes) + rest) == bytes + Unstuffed(rest)
    decreases |bytes|
  {
    hide Unstuffed;
    if bytes == [] {
      assert Stuffed(bytes) + rest == rest;
    } else {
      hide Stuff1;
      var k := |bytes| - 1;
      var a, b, c := Stuffed(bytes[..k]), Stuff1(bytes[k]), Unstuffed(rest);
      UnstuffStuffed(bytes[..k], b + rest);
      UnstuffFirst(bytes[k], rest);
      assert Stuffed(bytes) + rest == a + (b + rest);
      assert bytes + c == bytes[..k] + ([bytes[k]] + c);
    }
  }

  // ---------------------------------------------------------------- writing

  class Writer {
    var out: seq<byte>
    var bitBuf: nat
    var bitCnt: nat
    /** The bytes before stuffing. */
    ghost var raw: seq<byte>
    ghost const start: nat

    ghost predicate Valid()
      reads this
    {
      && start <= |out| && out[start..] == Stuffed(raw)
      && bitCnt < 8 && bitBuf < Pow2(24) && Rev(bitBuf, 24) < Pow2(bitCnt)
    }

    /** The bits written so far and how many they are. */
    ghost function Value(): nat
      requires Valid()
      reads this
    {
      Put(High(raw), 8 * |raw|, Rev(bitBuf, 24))
    }

    ghost function Size(): nat
      requires Valid()
      reads this
    {
      8 * |raw| + bitCnt
    }

    constructor (header: seq<byte>)
      ensures Valid() && out == header && start == |header| && Value() == 0 && Size() == 0 && bitCnt == 0 && raw == []
    {
      out, bitBuf, bitCnt, raw := header, 0, 0, [];
      start := |header|;
      new;
      RevZero(24);
      HighEmpty();
    }

    /** `stbiw__jpg_writeBits`.  The bits of `bitBuf` above the 24 in use are never looked at. */
    method WriteBits(code: nat, n: nat)
      requires Valid() && n <= 16 && code < Pow2(n)
      modifies this
      ensures Valid() && old(out) <= out && Size() == old(Size()) + n
      ensures Value() == Put(old(Value()), old(Size()), Rev(code, n))
    {
      hide Put, Rev, Pow2, High, Stuffed, Take, Drop;
      PutPut(High(raw), 8 * |raw|, Rev(bitBuf, 24), bitCnt, Rev(code, n));
      OrBits(24, bitCnt, n, bitBuf, code);
      bitBuf := bitBuf + Shl(24 - bitCnt - n, code);
      bitCnt := bitCnt + n;
      ghost var v, size := Put(High(raw), 8 * |raw|, Rev(bitBuf, 24)), 8 * |raw| + bitCnt;
      while bitCnt >= 8
        invariant bitCnt <= 24 && bitBuf < Pow2(24) && Rev(bitBuf, 24) < Pow2(bitCnt)
        invariant start <= |out| && out[start..] == Stuffed(raw) && old(out) <= out
        invariant v == Put(High(raw), 8 * |raw|, Rev(bitBuf, 24)) && size == 8 * |raw| + bitCnt
      {
        FlushByte();
      }
    }

    method FlushByte()
      requires 8 <= bitCnt <= 24 && bitBuf < Pow2(24) && Rev(bitBuf, 24) < Pow2(bitCnt)
      requires start <= |out| && out[start..] == Stuffed(raw)
      modifies this
      ensures bitCnt == old(bitCnt) - 8 && bitBuf < Pow2(24) && Rev(bitBuf, 24) < Pow2(bitCnt)
      ensures start <= |out| && out[start..] == Stuffed(raw) && old(out) <= out && |raw| == |old(raw)| + 1
      ensures Put(High(raw), 8 * |raw|, Rev(bitBuf, 24)) == old(Put(High(raw), 8 * |raw|, Rev(bitBuf, 24)))
    {
      hide Put, Rev, Pow2, High, Stuffed, Take, Drop;
      ghost var r, was := Rev(bitBuf, 24), raw;
      TopByte(bitBuf, bitCnt);
      var c: byte := Drop(bitBuf, 16);
      HighAppend(raw, c, Drop(r, 8));
      StuffedMore(raw, c);
      ghost var sofar := out[start..];
      out := out + [c];
      if c == 255 {
        out := out + [0];
      }
      assert out[start..] == sofar + Stuff1(c);
      raw := raw + [c];
      bitBuf := Take(Shl(8, bitBuf), 24);
      bitCnt := bitCnt - 8;
    }

    lemma StuffedMore(raw: seq<byte>, c: byte)
      ensures Stuffed(raw + [c]) == Stuffed(raw) + Stuff1(c)
    {
      assert (raw + [c])[..|raw|] == raw;
    }

    /** The top byte of 24 bits, and what is left of them. */
    lemma TopByte(x: nat, n: nat)
      requires 8 <= n <= 24 && x < Pow2(24) && Rev(x, 24) < Pow2(n)
      ensures Drop(x, 16) < 256
      ensures Rev(x, 24) == Put(Rev(Drop(x, 16), 8), 8, Drop(Rev(x, 24), 8))
      ensures Take(Shl(8, x), 24) < Pow2(24) && Rev(Take(Shl(8, x), 24), 24) == Drop(Rev(x, 24), 8) < Pow2(n - 8)
    {
      hide Rev, Shl, Take, Drop;
      var r := Rev(x, 24);
      TopBits(x, 24, 8);
      RevBound(r, 8);
      Pow2Values();
      RevRev(r, 8);
      PutTake(r, 8);
      TakeBound(Shl(8, x), 24);
      ShiftOut(x, 24, 8);
      ShlZero(n);
      TakeInside(r, n, 0, 8);
      NothingMore(r, n);
    }

    lemma NothingMore(r: nat, n: nat)
      ensures Put(r, n, 0) == r
    {
      ShlZero(n);
    }
  }
}
