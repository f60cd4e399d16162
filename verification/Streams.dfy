/** Reading a file in memory byte by byte: `stbi__context` without callbacks. */
module Streams {
  import opened Bits

  const TWO32: nat := 0x1_0000_0000

  type word = v: int | 0 <= v < TWO32

  /** Four bytes, the most significant first. */
  function BE32(v: nat): (b: seq<byte>)
    requires v < TWO32
    ensures |b| == 4
  {
    [v / 256 / 256 / 256, v / 256 / 256 % 256, v / 256 % 256, v % 256]
  }

  function FromBE(b: seq<byte>): (v: nat)
    requires |b| == 4
    ensures v < TWO32
  {
    b[0] as int * 0x100_0000 + b[1] as int * 0x1_0000 + b[2] as int * 256 + b[3]
  }

  lemma FromBE32(v: nat)
    requires v < TWO32
    ensures FromBE(BE32(v)) == v
  {
  }

  /** Bytes read one after the other; past the end they are zero. */
  class ByteStream {
    const s: seq<byte>
    var pos: nat

    ghost predicate Valid()
      reads this
    {
      pos <= |s|
    }

    ghost function Rest(): seq<byte>
      requires Valid()
      reads this
    {
      s[pos..]
    }

    constructor (input: seq<byte>)
      ensures Valid() && Rest() == input && s == input
    {
      s, pos := input, 0;
    }

    /** `stbi__get8` */
    method Get8() returns (b: byte)
      requires Valid()
      modifies this
      ensures Valid() && |Rest()| <= |old(Rest())|
      ensures old(Rest()) == [] ==> b == 0 && Rest() == []
      ensures old(Rest()) != [] ==> b == old(Rest())[0] && Rest() == old(Rest())[1..]
      ensures old(pos) < |s| ==> b == s[old(pos)] && pos == old(pos) + 1
    {
      b := 0;
      if pos < |s| {
        b := s[pos];
        pos := pos + 1;
      }
    }

    /** `stbi__get32be` */
    method Get32be() returns (v: nat)
      requires Valid()
      modifies this
      ensures Valid() && v < TWO32
      ensures |old(Rest())| >= 4 ==> v == FromBE(old(Rest())[..4]) && Rest() == old(Rest())[4..]
      ensures |old(Rest())| < 4 ==> Rest() == []
      ensures old(Rest()) == [] ==> v == 0
    {
      ghost var r := Rest();
      var a := Get8();
      var b := Get8();
      var c := Get8();
      var d := Get8();
      v := (a as int * 256 + b) * 0x1_0000 + (c as int * 256 + d);
    }

    /** `stbi__get16le` */
    method Get16le() returns (v: nat)
      requires Valid()
      modifies this
      ensures Valid() && v < 65536 && |Rest()| <= |old(Rest())|
      ensures |old(Rest())| >= 2 ==> v == old(Rest())[0] + 256 * old(Rest())[1] as int && Rest() == old(Rest())[2..]
    {
      var a := Get8();
      var b := Get8();
      v := a + 256 * b as int;
    }

    /** `stbi__getn`: all `n` bytes or none. */
    method Getn(n: nat) returns (ok: bool, b: seq<byte>)
      requires Valid()
      modifies this
      ensures Valid() && |Rest()| <= |old(Rest())|
      ensures ok <==> n <= |old(Rest())|
      ensures ok ==> b == old(Rest())[..n] && Rest() == old(Rest())[n..]
    {
      if pos + n <= |s| {
        ok, b := true, s[pos..pos + n];
        pos := pos + n;
      } else {
        ok, b := false, [];
      }
    }

    /** `stbi__skip` with a 32-bit length taken as a signed number: a negative one skips everything. */
    method Skip(n: nat)
      requires Valid()
      modifies this
      ensures Valid()
      ensures Rest() == if n < 0x8000_0000 && n <= |old(Rest())| then old(Rest())[n..] else []
    {
      if n >= 0x8000_0000 || pos + n > |s| {
        pos := |s|;
      } else {
        pos := pos + n;
      }
    }
  }
}
