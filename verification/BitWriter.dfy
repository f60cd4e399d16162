/** The bit packing of `stbi_zlib_compress`: `bitbuf`, `bitcount` and the macros around them. */
module BitWriter {
  import opened Bits
  import opened Canonical
  import opened Deflate
  import opened FixedCodes

  class Packer {
    var out: seq<byte>
    var bitbuf: nat
    var bitcount: nat
    /** The bits start after this many bytes. */
    ghost const start: nat

    ghost predicate Valid()
      reads this
    {
      start <= |out| && bitcount < 8 && bitbuf < Pow2(bitcount)
    }

    /** The bits written so far, as a number, and how many they are. */
    ghost function Value(): nat
      requires Valid()
      reads this
    {
      Put(LE(out[start..]), 8 * (|out| - start), bitbuf)
    }

    ghost function Size(): nat
      requires Valid()
      reads this
    {
      8 * (|out| - start) + bitcount
    }

    constructor (header: seq<byte>)
      ensures Valid() && out == header && start == |header| && Value() == 0 && Size() == 0 && bitcount == 0
    {
      out, bitbuf, bitcount := header, 0, 0;
      start := |header|;
      new;
      assert out[start..] == [];
    }

    /** `stbiw__zlib_flushf`: whole bytes leave the bit buffer. */
    method Flush(ghost v: nat, ghost n: nat)
      requires start <= |out| && bitcount <= 32 && bitbuf < Pow2(bitcount)
      requires v == Put(LE(out[start..]), 8 * (|out| - start), bitbuf) && n == 8 * (|out| - start) + bitcount
      modifies this
      ensures Valid() && Value() == v && Size() == n && old(out) <= out
    {
      while bitcount >= 8
        invariant start <= |out| && bitcount <= 32 && bitbuf < Pow2(bitcount) && old(out) <= out
        invariant v == Put(LE(out[start..]), 8 * (|out| - start), bitbuf) && n == 8 * (|out| - start) + bitcount
      {
        hide Put, LE, Pow2, Take, Drop;
        ghost var sofar := out[start..];
        LowByte(bitbuf, bitcount);
        var b: byte := Take(bitbuf, 8);
        out := out + [b];
        assert out[start..] == sofar + [b];
        AppendByte(sofar, b, Drop(bitbuf, 8));
        bitbuf := Drop(bitbuf, 8);
        bitcount := bitcount - 8;
      }
    }

    /** The low byte of a bit buffer, and what is left of it. */
    static lemma LowByte(v: nat, n: nat)
      requires 8 <= n && v < Pow2(n)
      ensures Take(v, 8) < 256 && Drop(v, 8) < Pow2(n - 8) && v == Put(Take(v, 8), 8, Drop(v, 8))
    {
      TakeBound(v, 8);
      Pow2Values();
      PutTake(v, 8);
      ShlZero(n);
      TakeInside(v, n, 0, 8);
    }

    /** `stbiw__zlib_add` */
    method Add(code: nat, codebits: nat)
      requires Valid() && codebits <= 16 && code < Pow2(codebits)
      modifies this
      ensures Valid() && old(out) <= out
      ensures Size() == old(Size()) + codebits
      ensures Value() == Put(old(Value()), old(Size()), code)
    {
      ghost var a, k := out[start..], 8 * (|out| - start);
      PutPut(LE(a), k, bitbuf, bitcount, code);
      JoinBound(bitbuf, bitcount, code, codebits);
      bitbuf := Put(bitbuf, bitcount, code);
      bitcount := bitcount + codebits;
      Flush(Put(LE(a), k, bitbuf), k + bitcount);
    }

    /** `stbiw__zlib_bitrev` */
    static method BitRev(code: nat, codebits: nat) returns (res: nat)
      ensures res == Rev(code, codebits)
    {
      res := 0;
      var c := code;
      for k := 0 to codebits
        invariant res == Rev(code, k) && c == Drop(code, k)
      {
        RevLast(code, k);
        Split(code, k, 1);
        res := 2 * res + c % 2;
        c := c / 2;
      }
    }

    /** `stbiw__zlib_huff`: a literal/length symbol in the fixed code. */
    method Huff(n: nat)
      requires Valid() && n < 288
      modifies this
      ensures Valid() && old(out) <= out
      ensures Size() == old(Size()) + FixedLength(n)
      ensures forall rest: nat :: Put(Value(), Size(), rest) == old(Put(Value(), Size(), PutSymbol(FixedLiterals(), n, rest)))
    {
      hide Put, Rev, Code, LE;
      LiteralCode(n);
      var code, bits := 0x30 + n, 8;
      if n > 279 {
        code, bits := 0xc0 + (n - 280), 8;
      } else if n > 255 {
        code, bits := n - 256, 7;
      } else if n > 143 {
        code, bits := 0x190 + (n - 144), 9;
      }
      var r := BitRev(code, bits);
      RevBound(code, bits);
      Add(r, bits);
      PutAppended(old(Value()), old(Size()), r, bits);
    }

    /** A distance symbol in the fixed code. */
    method HuffDist(n: nat)
      requires Valid() && n < 30
      modifies this
      ensures Valid() && old(out) <= out
      ensures Size() == old(Size()) + 5
      ensures forall rest: nat :: Put(Value(), Size(), rest) == old(Put(Value(), Size(), PutSymbol(FixedDistances(), n, rest)))
    {
      hide Put, Rev, Code, LE;
      DistanceCode(n);
      var r := BitRev(n, 5);
      RevBound(n, 5);
      Add(r, 5);
      PutAppended(old(Value()), old(Size()), r, 5);
    }

    /** Extra bits, if there are any. */
    method AddExtra(code: nat, codebits: nat)
      requires Valid() && codebits <= 16 && code < Pow2(codebits)
      modifies this
      ensures Valid() && old(out) <= out
      ensures Size() == old(Size()) + codebits
      ensures forall rest: nat :: Put(Value(), Size(), rest) == old(Put(Value(), Size(), Put(code, codebits, rest)))
    {
      if codebits != 0 {
        Add(code, codebits);
        PutAppended(old(Value()), old(Size()), code, codebits);
      }
    }
  }
}
