/** `stbi__write_context`: a 64-byte buffer in front of the function that takes the bytes. */
module WriteContext {
  import opened Bits

  const BUFFER_SIZE: nat := 64

  class Context {
    const buffer: array<byte>
    var buf_used: nat
    /** What the function has been given so far. */
    var given: seq<byte>

    ghost predicate Valid()
      reads this
    {
      buffer.Length == BUFFER_SIZE && buf_used <= BUFFER_SIZE
    }

    /** All bytes written, passed on or not. */
    ghost function Contents(): seq<byte>
      requires Valid()
      reads this, buffer
    {
      given + buffer[..buf_used]
    }

    constructor ()
      ensures Valid() && Contents() == [] && buf_used == 0 && fresh(buffer)
    {
      buffer := new byte[BUFFER_SIZE];
      buf_used, given := 0, [];
    }

    /** `stbiw__write_flush` */
    method Flush()
      requires Valid()
      modifies this`buf_used, this`given
      ensures Valid() && Contents() == old(Contents()) && buf_used == 0 && given == Contents()
    {
      if buf_used != 0 {
        given := given + buffer[..buf_used];
        buf_used := 0;
      }
    }

    /** `stbiw__write1` */
    method Write1(a: byte)
      requires Valid()
      modifies this`buf_used, this`given, buffer
      ensures Valid() && Contents() == old(Contents()) + [a]
    {
      if buf_used + 1 > BUFFER_SIZE { Flush(); }
      ghost var sofar := buffer[..buf_used];
      buffer[buf_used] := a;
      buf_used := buf_used + 1;
      assert buffer[..buf_used] == sofar + [a];
    }

    /** `stbiw__write3` */
    method Write3(a: byte, b: byte, c: byte)
      requires Valid()
      modifies this`buf_used, this`given, buffer
      ensures Valid() && Contents() == old(Contents()) + [a, b, c]
    {
      if buf_used + 3 > BUFFER_SIZE { Flush(); }
      ghost var sofar := buffer[..buf_used];
      var n := buf_used;
      buf_used := n + 3;
      buffer[n], buffer[n + 1], buffer[n + 2] := a, b, c;
      assert buffer[..buf_used] == sofar + [a, b, c];
    }

    /** Bytes given to the function directly, which is done only with an empty buffer. */
    method Pass(b: seq<byte>)
      requires Valid() && buf_used == 0
      modifies this`given
      ensures Valid() && buf_used == 0 && Contents() == old(Contents()) + b
    {
      given := given + b;
    }
  }
}
