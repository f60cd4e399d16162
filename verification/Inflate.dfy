/** The zlib decoder: `stbi__parse_huffman_block`, `stbi__parse_uncompressed_block`, `stbi__parse_zlib` and
    the growing output buffer.
    Each parser is tied to the format in both directions.  What it accepts is the encoding of what it
    produced, and the buffer was fed all the way; and when its ghost goal says that the stream encodes
    certain tokens for which the buffer is fed, it accepts and produces those. */
module Inflate {
  import opened Basics
  import opened Bits
  import opened Canonical
  import opened ZHuffman
  import opened BitReader
  import opened Deflate
  import opened Feeding
  import opened DynamicCodes
  import opened FixedCodes

  const UINT_MAX: nat := 0xFFFF_FFFF
  /** Output up to this size can always be made room for. */
  const ROOM: nat := 0x8000_0000

  /** The largest size that a buffer of `size` bytes reaches by doubling. */
  function Capacity(size: nat): (c: nat)
    requires 1 <= size <= UINT_MAX
    ensures size <= c <= UINT_MAX && c >= ROOM
    decreases UINT_MAX - size
  {
    if size > UINT_MAX / 2 then size else Capacity(2 * size)
  }

  /** One round of the block loop ends in one of three ways. */
  datatype Round = Failed | Ended | More

  class Inflater {
    const z: ZBuf
    var out: array<byte>
    var zout: nat
    const z_expandable: bool
    /** The caller's buffer, and how many bytes of output there can ever be room for. */
    ghost const buffer: array<byte>
    ghost const room: nat
    const z_length: HuffTable
    const z_distance: HuffTable

    ghost predicate Valid()
      reads this, z
    {
      && z.Ready()
      && zout <= out.Length <= UINT_MAX
      && (if z_expandable then 1 <= out.Length && room == Capacity(out.Length) else out == buffer && room == out.Length)
      && z_length.Shape() && z_distance.Shape()
      && z_length.Repr() !! z_distance.Repr()
      && {out as object, z, this} !! (z_length.Repr() + z_distance.Repr())
    }

    ghost function Contents(): seq<byte>
      requires zout <= out.Length
      reads this, out
    {
      out[..zout]
    }

    constructor (input: seq<byte>, obuf: array<byte>, exp: bool)
      requires obuf.Length <= UINT_MAX && (exp ==> 1 <= obuf.Length)
      ensures Valid() && fresh(z) && out == buffer == obuf && fresh(z_length.Repr()) && fresh(z_distance.Repr())
      ensures z.zbuffer == input && z.pos == 0 && z.num_bits == 0 && z.code_buffer == 0 && z.used == 0
      ensures z.Fed() == Feed(|input|, 0, 0)
      ensures zout == 0 && z_expandable == exp && room == if exp then Capacity(obuf.Length) else obuf.Length
    {
      z := new ZBuf(input);
      out, buffer := obuf, obuf;
      zout := 0;
      z_expandable := exp;
      room := if exp then Capacity(obuf.Length) else obuf.Length;
      z_length := new HuffTable();
      z_distance := new HuffTable();
    }

    /** `stbi__zexpand`: make room for `n` more bytes by doubling.  It fails for a fixed buffer, and when
        the size does not fit 32 bits. */
    method ZExpand(n: nat) returns (ok: bool)
      requires Valid() && zout + n > out.Length
      modifies this`out
      ensures Valid() && zout <= out.Length && Contents() == old(Contents())
      ensures out == old(out) || fresh(out)
      ensures ok ==> zout + n <= out.Length
      ensures ok <==> zout + n <= room
    {
      if !z_expandable {
        return false;
      }
      var limit := out.Length;
      if UINT_MAX - zout < n {
        return false;
      }
      while zout + n > limit
        invariant out.Length <= limit <= UINT_MAX && Capacity(limit) == room
        decreases UINT_MAX - limit
      {
        if limit > UINT_MAX / 2 {
          return false;
        }
        limit := limit * 2;
      }
      var q := new byte[limit];
      forall i | 0 <= i < zout {
        q[i] := out[i];
      }
      assert q[..zout] == out[..zout];
      out := q;
      return true;
    }

    /** Append one literal. */
    method PutByte(b: byte) returns (ok: bool)
      requires Valid()
      modifies this`out, this`zout, out
      ensures Valid() && (out == old(out) || fresh(out))
      ensures ok ==> Contents() == old(Contents()) + [b]
      ensures ok <==> old(zout) + 1 <= room
      ensures !ok ==> zout == old(zout)
    {
      if zout >= out.Length {
        ok := ZExpand(1);
        if !ok { return; }
      }
      Append(b);
      ok := true;
    }

    /** Append `len` bytes copied from `dist` back; the source may run into the copy itself. */
    method CopyMatch(len: nat, dist: nat) returns (ok: bool)
      requires Valid() && 1 <= dist <= zout && len <= 258
      modifies this`out, this`zout, out
      ensures Valid() && (out == old(out) || fresh(out))
      ensures ok ==> Contents() == CopyRun(old(Contents()), len, dist)
      ensures ok <==> old(zout) + len <= room
      ensures !ok ==> zout == old(zout)
    {
      if zout + len > out.Length {
        ok := ZExpand(len);
        if !ok { return; }
      }
      if dist == 1 {
        RepeatByte(len);
      } else {
        CopyBytes(len, dist);
      }
      ok := true;
    }

    /** A run of one byte. */
    method RepeatByte(len: nat)
      requires Valid() && 1 <= zout && zout + len <= out.Length
      modifies this`zout, out
      ensures Valid() && Contents() == CopyRun(old(Contents()), len, 1)
    {
      ghost var start := Contents();
      var v := out[zout - 1];
      var n := len;
      while n > 0
        invariant 0 <= n <= len && zout == |start| + (len - n)
        invariant v == out[zout - 1]
        invariant Contents() == CopyRun(start, len - n, 1)
      {
        Append(v);
        n := n - 1;
      }
    }

    /** Byte by byte from `dist` back. */
    method CopyBytes(len: nat, dist: nat)
      requires Valid() && 1 <= dist <= zout && zout + len <= out.Length
      modifies this`zout, out
      ensures Valid() && Contents() == CopyRun(old(Contents()), len, dist)
    {
      ghost var start := Contents();
      var p := zout - dist;
      var n := len;
      while n > 0
        invariant 0 <= n <= len && zout == |start| + (len - n) && p == zout - dist
        invariant Contents() == CopyRun(start, len - n, dist)
      {
        Append(out[p]);
        p := p + 1;
        n := n - 1;
      }
    }

    /** `*zout++ = b` */
    method Append(b: byte)
      requires Valid() && zout < out.Length
      modifies this`zout, out
      ensures Valid() && zout == old(zout) + 1 && Contents() == old(Contents()) + [b]
      ensures out[zout - 1] == b
    {
      out[zout] := b;
      zout := zout + 1;
    }

    // -------------------------------------------------------------- compressed blocks

    /** The extra bits of a length or distance symbol, if it has any. */
    method ReceiveExtra(n: nat) returns (k: nat)
      requires z.Ready() && n <= 16
      modifies z
      ensures z.Ready() && k == Take(old(z.Stream()), n) && k < Pow2(n)
      ensures z.Stream() == Drop(old(z.Stream()), n) && z.Fed() == old(z.Fed()).Field(n)
    {
      k := 0;
      if n != 0 {
        k := z.Receive(n);
      }
    }

    /** A distance: its symbol and extra bits. */
    method ReadDist(ghost dl: seq<nat>, ghost want: Goal<(nat, nat)>)
      returns (ok: bool, ds: nat, de: nat)
      requires Valid() && z_distance.Holds(dl)
      requires want.Want? ==> want.items != [] && DistAhead(want.items[0], dl, z.Stream(), want.rest)
      requires want.Want? ==> !z.Fed().Dry()
      modifies z
      ensures Valid()
      ensures ok ==> DistAhead((ds, de), dl, old(z.Stream()), z.Stream())
      ensures ok ==> z.Fed() == FeedDist(old(z.Fed()), ds, dl)
      ensures want.Want? ==> ok && (ds, de) == want.items[0] && z.Stream() == want.rest
    {
      ghost var v := z.Stream();
      var r := z.HuffmanDecode(z_distance, dl);
      if want.Want? {
        SymbolWanted(dl, want.items[0].0, Put(want.items[0].1, DistExtra(want.items[0].0), want.rest), r);
      }
      if r < 0 || r >= 30 {
        return false, 0, 0;
      }
      SymbolPut(dl, r, v);
      ghost var w := z.Stream();
      ds := r;
      de := ReceiveExtra(DistExtra(ds));
      FieldRead(w, de, DistExtra(ds), want, ds);
      ok := true;
    }

    /** One round of `stbi__parse_huffman_block`: a literal, a match or the end of the block. */
    method ParseToken(ghost ll: seq<nat>, ghost dl: seq<nat>, ghost want: Goal<Token>)
      returns (r: Round, ghost t: Token)
      requires Valid() && z_length.Holds(ll) && z_distance.Holds(dl)
      requires want.Want? ==> TokenAhead(ll, dl, want, z.Stream(), Contents(), z.Fed(), room)
      modifies z, this`out, this`zout, out
      ensures Valid() && (out == old(out) || fresh(out))
      ensures r == More ==>
        && TokenRead(ll, dl, t, old(z.Stream()), z.Stream(), old(Contents()), Contents())
        && z.Fed() == FeedToken(old(z.Fed()), t, ll, dl)
      ensures r == Ended ==>
        && Has(ll, END_OF_BLOCK) && old(z.Stream()) == PutSymbol(ll, END_OF_BLOCK, z.Stream())
        && z.Fed() == old(z.Fed()).Symbol(ll[END_OF_BLOCK]) && Contents() == old(Contents())
      ensures want.Want? ==> z.Stream() == want.rest
      ensures want.Want? ==> if want.items == [] then r == Ended else r == More && t == want.items[0]
    {
      hide HuffTable.Holds, CopyRun, Put, Take, Drop, Code, FeedToken, FeedDist, Feed.Symbol, Feed.Field;
      hide TokenRead, MatchAhead, PutToken, PutSymbol, ZBuf.Stream, StartsWith;
      t := Lit(0);
      ghost var v, f := z.Stream(), z.Fed();
      var s := z.HuffmanDecode(z_length, ll);
      if want.Want? {
        FirstSymbol(ll, dl, want, v, s);
        if want.items != [] { FeedParts(f, want.items[0], ll, dl); }
      }
      if s >= 0 {
        HasSymbol(ll, s, v);
      }
      if s < 0 {
        return Failed, t;
      }
      SymbolPut(ll, s, v);
      if s < 256 {
        t := Lit(s);
        LitRead(ll, dl, s, v, z.Stream(), Contents(), f);
        var ok := PutByte(s);
        return if ok then More else Failed, t;
      }
      if s == END_OF_BLOCK {
        return Ended, t;
      }
      if s >= 286 {
        return Failed, t;
      }
      ghost var w, o := z.Stream(), Contents();
      r, t := ParseMatch(s - 257, dl,
        if want.Want? then Want([want.items[0]], want.rest) else Unknown);
      if r == More { MatchRead(ll, dl, s, t, v, w, z.Stream(), o, f); }
    }

    /** The rest of a match whose length symbol has just been read. */
    method ReadMatch(ls: nat, ghost dl: seq<nat>, ghost want: Goal<Token>)
      returns (ok: bool, t: Token)
      requires Valid() && z_distance.Holds(dl) && ls < 29
      requires want.Want? ==> want.items != [] && MatchAhead(ls, want.items[0], dl, z.Stream(), want.rest)
      requires want.Want? ==> !z.Fed().Field(LengthExtra(ls)).Dry()
      modifies z
      ensures Valid()
      ensures ok ==> MatchAhead(ls, t, dl, old(z.Stream()), z.Stream())
      ensures ok ==> z.Fed() == FeedDist(old(z.Fed()).Field(LengthExtra(ls)), t.ds, dl)
      ensures want.Want? ==> ok && t == want.items[0] && z.Stream() == want.rest
    {
      hide HuffTable.Holds, Take, Drop, Shl, Code;
      ghost var v := z.Stream();
      var le := ReceiveExtra(LengthExtra(ls));
      PutTake(v, LengthExtra(ls));
      ghost var d: Goal<(nat, nat)> := Unknown;
      if want.Want? {
        ghost var w := want.items[0];
        TakePut(w.le, LengthExtra(ls), PutDist(w.ds, w.de, dl, want.rest));
        d := Want([(w.ds, w.de)], want.rest);
      }
      var ds, de;
      ok, ds, de := ReadDist(dl, d);
      t := Copy(ls, le, ds, de);
    }

    /** Carry out a match. */
    method ParseMatch(ls: nat, ghost dl: seq<nat>, ghost want: Goal<Token>)
      returns (r: Round, ghost t: Token)
      requires Valid() && z_distance.Holds(dl) && ls < 29
      requires want.Want? ==> want.items != [] && want.items[0].InRange() && want.items[0].Copy?
      requires want.Want? ==> MatchAhead(ls, want.items[0], dl, z.Stream(), want.rest)
      requires want.Want? ==> !z.Fed().Field(LengthExtra(ls)).Dry()
      requires want.Want? ==> want.items[0].Dist() <= zout && zout + want.items[0].Len() <= room
      modifies z, this`out, this`zout, out
      ensures Valid() && (out == old(out) || fresh(out))
      ensures r == More || r == Failed
      ensures r == More ==> MatchAhead(ls, t, dl, old(z.Stream()), z.Stream())
      ensures r == More ==> z.Fed() == FeedDist(old(z.Fed()).Field(LengthExtra(ls)), t.ds, dl)
      ensures r == More ==> Legal1(old(Contents()), t) && Contents() == Expand1(old(Contents()), t)
      ensures want.Want? ==> r == More && t == want.items[0] && z.Stream() == want.rest
    {
      hide HuffTable.Holds, CopyRun, Put, PutDist;
      var ok, m := ReadMatch(ls, dl, want);
      t := m;
      if !ok {
        return Failed, t;
      }
      if zout < m.Dist() {
        return Failed, t;
      }
      LengthBound(ls, m.le);
      ok := CopyMatch(m.Len(), m.Dist());
      r := if ok then More else Failed;
    }

    /** `stbi__parse_huffman_block`: tokens up to the end-of-block symbol.  Every round but the last makes
        the output longer, and the output has at most UINT_MAX bytes, so it ends. */
    method ParseHuffmanBlock(ghost ll: seq<nat>, ghost dl: seq<nat>, ghost goal: Goal<Token>)
      returns (ok: bool, ghost toks: seq<Token>)
      requires Valid() && z_length.Holds(ll) && z_distance.Holds(dl)
      requires goal.Want? ==> TokensAhead(ll, dl, goal, z.Stream(), Contents(), z.Fed(), room)
      modifies z, this`out, this`zout, out
      ensures Valid() && (out == old(out) || fresh(out))
      ensures ok ==> BlockRead(ll, dl, toks, old(z.Stream()), z.Stream(), old(Contents()), Contents())
      ensures ok ==> z.Fed() == FeedBody(old(z.Fed()), toks, ll, dl)
      ensures goal.Want? ==> ok && toks == goal.items && z.Stream() == goal.rest
    {
      hide PutTokens, Legal, Expand, FeedTokens, HuffTable.Holds, TokensAhead, PutSymbol, Feed.Symbol;
      hide ZBuf.Stream, ZBuf.Fed, ZBuf.Ready, Contents;
      toks := [];
      ghost var todo := goal;
      ghost var v0, o0, f0, v := z.Stream(), Contents(), z.Fed(), z.Stream();
      NoTokens(ll, dl, v0, o0, f0);
      var r := More;
      while r == More
        invariant Valid() && (out == old(out) || fresh(out))
        invariant r != Failed ==> TokensRead(ll, dl, toks, v0, v, o0, Contents())
        invariant r == More ==> v == z.Stream() && z.Fed() == FeedTokens(f0, toks, ll, dl)
        invariant r == Ended ==>
          && Has(ll, END_OF_BLOCK) && v == PutSymbol(ll, END_OF_BLOCK, z.Stream())
          && z.Fed() == FeedBody(f0, toks, ll, dl)
        invariant todo.Want? == goal.Want?
        invariant goal.Want? ==> r != Failed && goal.items == toks + todo.items && todo.rest == goal.rest
        invariant goal.Want? && r == More ==> TokensAhead(ll, dl, todo, v, Contents(), z.Fed(), room)
        invariant goal.Want? && r == Ended ==> todo.items == [] && z.Stream() == todo.rest
        decreases r == More, UINT_MAX - zout
      {
        ghost var t;
        r, t, todo := ParseRound(ll, dl, toks, v0, o0, f0, todo);
        if r == More {
          if todo.Want? {
            assert (toks + [t]) + todo.items == toks + ([t] + todo.items);
          }
          toks, v := toks + [t], z.Stream();
        } else if r == Ended {
          v := PutSymbol(ll, END_OF_BLOCK, z.Stream());
        }
      }
      ok := r == Ended;
    }

    /** One round, seen as a step of the block. */
    method ParseRound(ghost ll: seq<nat>, ghost dl: seq<nat>, ghost toks: seq<Token>,
                      ghost v0: nat, ghost o0: seq<byte>, ghost f0: Feed, ghost todo: Goal<Token>)
      returns (r: Round, ghost t: Token, ghost todo': Goal<Token>)
      requires Valid() && z_length.Holds(ll) && z_distance.Holds(dl)
      requires TokensRead(ll, dl, toks, v0, z.Stream(), o0, Contents()) && z.Fed() == FeedTokens(f0, toks, ll, dl)
      requires todo.Want? ==> TokensAhead(ll, dl, todo, z.Stream(), Contents(), z.Fed(), room)
      modifies z, this`out, this`zout, out
      ensures Valid() && (out == old(out) || fresh(out))
      ensures r == More ==>
        && TokensRead(ll, dl, toks + [t], v0, z.Stream(), o0, Contents())
        && z.Fed() == FeedTokens(f0, toks + [t], ll, dl)
        && zout > old(zout)
      ensures r == Ended ==>
        && Has(ll, END_OF_BLOCK) && TokensRead(ll, dl, toks, v0, PutSymbol(ll, END_OF_BLOCK, z.Stream()), o0, Contents())
        && z.Fed() == FeedBody(f0, toks, ll, dl)
      ensures todo.Unknown? ==> todo'.Unknown?
      ensures r != More ==> todo' == todo
      ensures todo.Want? ==> todo'.Want? && todo'.rest == todo.rest && r != Failed
      ensures todo.Want? && r == More ==>
        todo.items == [t] + todo'.items && TokensAhead(ll, dl, todo', z.Stream(), Contents(), z.Fed(), room)
      ensures todo.Want? && r == Ended ==> todo.items == [] && z.Stream() == todo.rest
    {
      hide ZBuf.Stream, ZBuf.Ready, HuffTable.Holds, Legal, Expand, PutSymbol, FeedTokens, FeedToken, Feed.Symbol;
      ghost var v, o, f := z.Stream(), Contents(), z.Fed();
      todo' := todo;
      ghost var want := Unknown;
      if todo.Want? {
        want := NextWant(ll, dl, todo, v, o, f, room);
      }
      r, t := ParseToken(ll, dl, want);
      if r == More {
        ReadMore(ll, dl, toks, t, v0, v, z.Stream(), o0, o, Contents(), f0);
        if todo.Want? {
          todo' := AfterToken(ll, dl, todo, v, o, f, room);
        }
      }
    }

    // -------------------------------------------------------------- stored blocks

    /** Skip to a byte boundary. */
    method Align() returns (ghost pad: nat)
      requires Valid()
      modifies z
      ensures Valid() && z.num_bits % 8 == 0
      ensures pad < Pow2(Padding(old(z.used)))
      ensures old(z.Stream()) == Put(pad, Padding(old(z.used)), z.Stream())
      ensures z.used == old(z.used) + Padding(old(z.used)) && z.loaded == old(z.loaded)
    {
      hide Padding;
      var n := z.num_bits % 8;
      PaddingIs(z.used, z.num_bits, z.loaded);
      pad := Take(z.Stream(), n);
      PutTake(z.Stream(), n);
      TakeBound(z.Stream(), n);
      if n != 0 {
        var _ := z.Receive(n);
      }
    }

    /** The four bytes of a stored block's header: what is left in the code buffer, and then the input. */
    method ReadStoredHeader() returns (len: nat, nlen: nat)
      requires Valid() && z.num_bits % 8 == 0
      modifies z
      ensures Valid() && z.num_bits == 0 && z.used == old(z.used) + 32
      ensures len < 65536 && nlen < 65536
      ensures old(z.Stream()) == Put(len, 16, Put(nlen, 16, z.Stream()))
    {
      hide Put, LE, Padding, ZBuf.Stream, ZBuf.Ready;
      var header := new byte[4];
      ghost var v := z.Stream();
      assert v == Put(LE(header[..0]), 0, v) by { EmptyHeader(v); assert header[..0] == []; }
      var k := 0;
      Pow2Values();
      BufferWidth();
      while z.num_bits > 0
        invariant 0 <= k && Valid() && z.num_bits % 8 == 0 && 8 * k + z.num_bits <= 32
        invariant v == Put(LE(header[..k]), 8 * k, z.Stream()) && z.used == old(z.used) + 8 * k
        decreases z.num_bits
      {
        DrainByte(header, k, v);
        k := k + 1;
      }
      while k < 4
        invariant 0 <= k <= 4 && Valid() && z.num_bits == 0
        invariant v == Put(LE(header[..k]), 8 * k, z.Stream()) && z.used == old(z.used) + 8 * k
      {
        FetchByte(header, k, v);
        k := k + 1;
      }
      assert header[..4] == [header[0], header[1], header[2], header[3]];
      FourBytes(header[0], header[1], header[2], header[3], z.Stream());
      len := header[1] as int * 256 + header[0];
      nlen := header[3] as int * 256 + header[2];
    }

    lemma BufferWidth()
      requires Valid()
      ensures z.num_bits <= 32
    {
    }

    /** One header byte out of the input. */
    method FetchByte(header: array<byte>, k: nat, ghost v: nat)
      requires Valid() && header.Length == 4 && k < 4 && z.num_bits == 0
      requires v == Put(LE(header[..k]), 8 * k, z.Stream())
      modifies z, header
      ensures Valid() && z.num_bits == 0 && z.used == old(z.used) + 8
      ensures v == Put(LE(header[..k + 1]), 8 * (k + 1), z.Stream())
    {
      ghost var sofar := header[..k];
      header[k] := z.TakeByte();
      assert header[..k + 1] == sofar + [header[k]];
      AppendByte(sofar, header[k], z.Stream());
    }

    /** One header byte out of the code buffer. */
    method DrainByte(header: array<byte>, k: nat, ghost v: nat)
      requires Valid() && header.Length == 4 && k < 4 && z.num_bits >= 8
      requires v == Put(LE(header[..k]), 8 * k, z.Stream())
      modifies z, header
      ensures Valid() && z.num_bits == old(z.num_bits) - 8 && z.used == old(z.used) + 8
      ensures v == Put(LE(header[..k + 1]), 8 * (k + 1), z.Stream())
    {
      ghost var sofar := header[..k];
      ghost var s := z.Stream();
      Pow2Values();
      TakeInside(z.code_buffer, z.num_bits, z.BufferTail(), 8);
      TakeBound(z.code_buffer, 8);
      PutTake(s, 8);
      header[k] := Take(z.code_buffer, 8);
      z.Consume(8);
      assert header[..k + 1] == sofar + [header[k]];
      AppendByte(sofar, header[k], z.Stream());
    }

    /** `stbi__parse_uncompressed_block` */
    method ParseUncompressedBlock(ghost want: Goal<Block>) returns (ok: bool, ghost b: Block)
      requires Valid()
      requires want.Want? ==> want.items != [] && StoredAhead(want.items[0], z.used, z.Stream(), want.rest)
      requires want.Want? ==> FeedStored(z.Fed(), |want.items[0].bytes|).Feed?
      requires want.Want? ==> zout + |want.items[0].bytes| <= room
      modifies z, this`out, this`zout, out
      ensures Valid() && (out == old(out) || fresh(out))
      ensures ok ==> StoredAhead(b, old(z.used), old(z.Stream()), z.Stream())
      ensures ok ==> Contents() == old(Contents()) + b.bytes
      ensures ok ==> z.Fed() == FeedStored(old(z.Fed()), |b.bytes|)
      ensures want.Want? ==> ok && b == want.items[0] && z.Stream() == want.rest
    {
      hide Padding, Put, LE, Pow2;
      ghost var v, at := z.Stream(), z.used;
      ghost var pad := Align();
      var len, nlen := ReadStoredHeader();
      if want.Want? {
        StoredHeaderWanted(want.items[0], at, v, want.rest, pad, len, nlen, z.Stream());
      }
      b := Stored(0, []);
      if nlen != 65535 - len {
        return false, b;
      }
      if z.pos + len > |z.zbuffer| {
        return false, b;
      }
      ok := CopyStored(len);
      if ok {
        b := Stored(pad, z.zbuffer[z.pos - len..z.pos]);
        if want.Want? {
          StoredBytesWanted(want.items[0].bytes, b.bytes, want.rest, z.Stream());
        }
      }
    }

    /** `memcpy` behind the bytes that are out. */
    method MoveIn(bytes: seq<byte>)
      requires zout + |bytes| <= out.Length
      modifies out
      ensures out[..zout + |bytes|] == old(Contents()) + bytes
    {
      ghost var c := Contents();
      forall i | 0 <= i < |bytes| {
        out[zout + i] := bytes[i];
      }
      assert out[..zout] == c && out[zout..zout + |bytes|] == bytes;
      assert out[..zout + |bytes|] == out[..zout] + out[zout..zout + |bytes|];
    }

    /** The stored bytes themselves. */
    method CopyStored(len: nat) returns (ok: bool)
      requires Valid() && z.num_bits == 0 && z.pos + len <= |z.zbuffer| && len < 65536
      modifies z, this`out, this`zout, out
      ensures Valid() && (out == old(out) || fresh(out))
      ensures ok ==> z.pos == old(z.pos) + len && z.used == old(z.used) + 8 * len && z.loaded == old(z.loaded) + len
      ensures ok ==> old(z.Stream()) == Put(LE(z.zbuffer[old(z.pos)..z.pos]), 8 * len, z.Stream())
      ensures ok ==> Contents() == old(Contents()) + z.zbuffer[old(z.pos)..z.pos]
      ensures ok <==> old(zout) + len <= room
    {
      hide LE, Put, ZBuf.Stream;
      if zout + len > out.Length {
        ok := ZExpand(len);
        if !ok { return; }
      }
      MoveIn(z.zbuffer[z.pos..z.pos + len]);
      z.Skip(len);
      zout := zout + len;
      ok := true;
    }

    // -------------------------------------------------------------- blocks

    /** A compressed block, its three header bits already read; `fixed` tells which codes it uses. */
    method ParseCompressed(fixed: bool, ghost want: Goal<Block>) returns (ok: bool, ghost b: Block)
      requires Valid()
      requires want.Want? ==>
        want.items != [] && CompressedAhead(fixed, want.items[0], z.used, z.Stream(), want.rest, Contents())
      requires want.Want? ==>
        && FeedPayload(z.Fed(), Contents(), want.items[0], z.used).Feed?
        && |BlockBytes(Contents(), want.items[0], z.used)| <= room
      modifies z, this`out, this`zout, out, z_length.Repr(), z_distance.Repr()
      ensures Valid() && (out == old(out) || fresh(out))
      ensures ok ==> CompressedAhead(fixed, b, old(z.used), old(z.Stream()), z.Stream(), old(Contents()))
      ensures ok ==> Contents() == BlockBytes(old(Contents()), b, old(z.used))
      ensures ok ==> z.Fed() == FeedPayload(old(z.Fed()), old(Contents()), b, old(z.used))
      ensures want.Want? ==> ok && b == want.items[0] && z.Stream() == want.rest
    {
      hide HuffTable.Holds, PutTokens, PutDynamic, TokensBits, Expand, Legal, Put, DynamicLegal, DynamicBits;
      hide FeedTokens, FeedDynamic, FeedOps, Feed.Symbol;
      hide PutBody, TokensAhead, LitLens, DistLens, ZBuf.Stream, ZBuf.Ready, Contents;
      b := Compressed(Fixed, []);
      ghost var w := Unknown;
      if want.Want? {
        ghost var t := want.items[0];
        w := Want([t.codes], PutBody(t.codes, t.toks, want.rest));
      }
      ghost var codes, toks;
      ok, codes := PrepareCodes(fixed, w);
      if !ok {
        return;
      }
      ghost var goal := Unknown;
      if want.Want? {
        goal := Want(want.items[0].toks, want.rest);
        BodyGoal(want.items[0], want.rest, Contents(), z.Fed(), room);
      }
      ghost var v := z.Stream();
      ok, toks := ParseHuffmanBlock(Literals(codes), Distances(codes), goal);
      b := Compressed(codes, toks);
      if ok {
        BodyRead(codes, toks, v, z.Stream(), old(Contents()), Contents());
      }
    }

    /** The tables for a compressed block: the fixed ones, or those its header describes. */
    method PrepareCodes(fixed: bool, ghost want: Goal<Codes>) returns (ok: bool, ghost codes: Codes)
      requires Valid()
      requires want.Want? ==>
        want.items != [] && CodesAhead(fixed, want.items[0], z.Stream(), want.rest)
      requires want.Want? ==> FeedCodes(z.Fed(), want.items[0]).Feed?
      modifies z, z_length.Repr(), z_distance.Repr()
      ensures Valid()
      ensures ok ==> CodesAhead(fixed, codes, old(z.Stream()), z.Stream())
      ensures ok ==> z.Fed() == FeedCodes(old(z.Fed()), codes)
      ensures ok ==> z_length.Holds(Literals(codes)) && z_distance.Holds(Distances(codes))
      ensures want.Want? ==> ok && codes == want.items[0] && z.Stream() == want.rest
    {
      hide HuffTable.Holds, PutDynamic, DynamicLegal, DynamicBits, LitLens, DistLens, ZBuf.Stream;
      codes := Fixed;
      if fixed {
        ok := BuildFixed();
      } else {
        ghost var d;
        ghost var w := Unknown;
        if want.Want? {
          w := Want([want.items[0].d], want.rest);
        }
        ok, d := ComputeHuffmanCodes(z, z_length, z_distance, w);
        codes := Own(d);
      }
    }

    /** `stbi__zdefault_length` and `stbi__zdefault_distance`, made into tables. */
    method BuildFixed() returns (ok: bool)
      requires z_length.Shape() && z_distance.Shape() && z_length.Repr() !! z_distance.Repr()
      modifies z_length.Repr(), z_distance.Repr()
      ensures ok && z_length.Holds(FixedLiterals()) && z_distance.Holds(FixedDistances())
    {
      hide HuffTable.Holds, FixedLiterals, FixedDistances, Fits, Lengths;
      FixedFits();
      ok := z_length.Build(FixedLiterals());
      if ok {
        ok := z_distance.Build(FixedDistances());
      }
    }

    /** One block, its three header bits already read. */
    method ParsePayload(kind: nat, ghost want: Goal<Block>) returns (ok: bool, ghost b: Block)
      requires Valid() && kind < 4
      requires want.Want? ==>
        want.items != [] && PayloadAhead(kind, want.items[0], z.used, z.Stream(), want.rest, Contents())
      requires want.Want? ==>
        && FeedPayload(z.Fed(), Contents(), want.items[0], z.used).Feed?
        && |BlockBytes(Contents(), want.items[0], z.used)| <= room
      modifies z, this`out, this`zout, out, z_length.Repr(), z_distance.Repr()
      ensures Valid() && (out == old(out) || fresh(out))
      ensures ok ==> PayloadAhead(kind, b, old(z.used), old(z.Stream()), z.Stream(), old(Contents()))
      ensures ok ==> Contents() == BlockBytes(old(Contents()), b, old(z.used))
      ensures ok ==> z.Fed() == FeedPayload(old(z.Fed()), old(Contents()), b, old(z.used))
      ensures want.Want? ==> ok && b == want.items[0] && z.Stream() == want.rest
    {
      hide PutStored, PutBody, PutDynamic, CodesLegal, DynamicBits, BodyBits, Expand, Legal, Padding, HuffTable.Holds;
      b := Stored(0, []);
      if kind == 0 {
        ok, b := ParseUncompressedBlock(want);
      } else if kind == 3 {
        ok := false;
      } else {
        ok, b := ParseCompressed(kind == 1, want);
      }
    }

    /** One block with its header. */
    method ParseBlock(ghost want: Goal<Block>, ghost last: bool) returns (ok: bool, final: bool, ghost b: Block)
      requires Valid()
      requires want.Want? ==> BlockComes(want, last, z.used, z.Stream(), Contents(), z.Fed(), room)
      modifies z, this`out, this`zout, out, z_length.Repr(), z_distance.Repr()
      ensures Valid() && (out == old(out) || fresh(out))
      ensures ok ==>
        BlockDone(b, final, old(z.used), z.used, old(z.Stream()), z.Stream(), old(Contents()), Contents())
      ensures ok ==> z.Fed() == FeedBlock(old(z.Fed()), old(Contents()), b, old(z.used))
      ensures want.Want? ==> ok && want.items != [] && b == want.items[0] && final == last && z.Stream() == want.rest
    {
      hide PutPayload, FeedPayload, PayloadBits, BlockBytes, BlockLegal, Put, ZBuf.Stream, ZBuf.Ready, Contents;
      ghost var v := z.Stream();
      var f, kind := BlockHeader();
      final := f == 1;
      if want.Want? {
        HeaderWanted(want.items[0], last, old(z.used), v, f, kind, z.Stream(), want.rest, Contents());
      }
      ok, b := ParsePayload(kind, want);
    }

    /** The bit that marks the last block, and the two bits of its type. */
    method BlockHeader() returns (f: nat, kind: nat)
      requires Valid()
      modifies z
      ensures Valid() && f < 2 && kind < 4 && z.Fed() == old(z.Fed()).Field(1).Field(2)
      ensures old(z.Stream()) == Put(f, 1, Put(kind, 2, z.Stream()))
    {
      hide Put, Take, Drop, ZBuf.Stream, ZBuf.Ready;
      ghost var v := z.Stream();
      f := z.Receive(1);
      ghost var v1 := z.Stream();
      kind := z.Receive(2);
      HeaderBits(v, f, v1, kind);
    }

    // -------------------------------------------------------------- streams

    /** `stbi__parse_zlib_header` */
    method ParseZlibHeader() returns (ok: bool)
      requires Valid() && z.pos == 0 && z.num_bits == 0 && z.used == 0 && z.loaded == 0
      modifies z
      ensures Valid() && zout == old(zout)
      ensures ok <==> |z.zbuffer| > 2 && HeaderOk(z.zbuffer[0], z.zbuffer[1])
      ensures ok ==> z.used == 16 && z.loaded == 2 && z.num_bits == 0 && z.pos == 2 && z.code_buffer == 0
    {
      var cmf := z.TakeByte();
      var flg := z.TakeByte();
      ok := !z.Zeof() && HeaderOk(cmf, flg);
      assert z.code_buffer == 0 by { assert Pow2(0) == 1; }
    }

    /** The block loop of `stbi__parse_zlib`.  Each block makes the number that the stream is smaller, so
        it ends; at zero no block is accepted any more. */
    method ParseBlocks(ghost goal: Goal<Block>) returns (ok: bool, ghost bs: seq<Block>)
      requires Valid()
      requires goal.Want? ==> goal.items != []
      requires BlocksAhead(goal, z.used, z.Stream(), Contents(), z.Fed(), room)
      modifies z, this`out, this`zout, out, z_length.Repr(), z_distance.Repr()
      ensures Valid() && (out == old(out) || fresh(out))
      ensures ok ==> bs != []
      ensures ok ==>
        BlocksRead(bs, true, old(z.used), old(z.Stream()), z.Stream(), old(Contents()), Contents(), z.used,
                   old(z.Fed()), z.Fed())
      ensures goal.Want? ==> ok && bs == goal.items
    {
      hide BlocksRead, BlocksAhead, FeedBlocks, ZBuf.Stream, ZBuf.Ready, Contents, Split2;
      bs := [];
      ghost var todo := goal;
      ghost var v0, o0, at0, f0 := z.Stream(), Contents(), z.used, z.Fed();
      NoBlocks(at0, v0, o0, f0);
      if goal.Want? { SplitStart(goal.items); }
      ok := true;
      var final := false;
      while !final && ok
        invariant Valid() && (out == old(out) || fresh(out))
        invariant ok ==> BlocksRead(bs, final, at0, v0, z.Stream(), o0, Contents(), z.used, f0, z.Fed())
        invariant ok && final ==> bs != []
        invariant todo.Want? == goal.Want?
        invariant goal.Want? ==> ok && Split2(goal.items, bs, todo.items)
        invariant goal.Want? ==> (final <==> todo.items == [])
        invariant ok && !final ==> BlocksAhead(todo, z.used, z.Stream(), Contents(), z.Fed(), room)
        decreases ok && !final, z.Stream()
      {
        ghost var b;
        ok, final, b, todo := ParseNext(bs, at0, v0, o0, f0, todo);
        if ok {
          if todo.Want? { SplitNext(goal.items, bs, b, todo.items); }
          bs := bs + [b];
        }
      }
      if goal.Want? { SplitEnd(goal.items, bs); }
    }

    /** One round of the block loop, seen as a step of the stream. */
    method ParseNext(ghost bs: seq<Block>, ghost at0: nat, ghost v0: nat, ghost o0: seq<byte>, ghost f0: Feed,
                     ghost todo: Goal<Block>)
      returns (ok: bool, final: bool, ghost b: Block, ghost todo': Goal<Block>)
      requires Valid()
      requires BlocksRead(bs, false, at0, v0, z.Stream(), o0, Contents(), z.used, f0, z.Fed())
      requires todo.Want? ==> todo.items != []
      requires BlocksAhead(todo, z.used, z.Stream(), Contents(), z.Fed(), room)
      modifies z, this`out, this`zout, out, z_length.Repr(), z_distance.Repr()
      ensures Valid() && (out == old(out) || fresh(out))
      ensures ok ==> BlocksRead(bs + [b], final, at0, v0, z.Stream(), o0, Contents(), z.used, f0, z.Fed())
      ensures ok ==> z.Stream() < old(z.Stream())
      ensures todo'.Want? == todo.Want?
      ensures todo.Want? ==> ok && todo.items == [b] + todo'.items && (final <==> todo'.items == [])
      ensures ok && !final ==> BlocksAhead(todo', z.used, z.Stream(), Contents(), z.Fed(), room)
    {
      hide BlockLegal, BlockBytes, BlocksLegal, BlocksBytes, BlocksEnd, PutBlocks, PutBlock, After, PayloadBits;
      hide FeedBlocks, FeedBlock;
      ghost var v, o, at, f := z.Stream(), Contents(), z.used, z.Fed();
      ghost var want := Unknown;
      if todo.Want? {
        want := FirstBlock(todo, at, v, o, f, room);
      }
      todo' := todo;
      ok, final, b := ParseBlock(want, todo.Want? && |todo.items| == 1);
      if ok {
        MoreBlocks(bs, b, final, at0, v0, v, z.Stream(), o0, o, at, f0, f);
        if todo.Want? {
          todo' := OtherBlocks(todo, at, v, o, f, room);
        }
      }
    }

    /** `stbi__parse_zlib` */
    method ParseZlib(parse_header: bool, ghost data: seq<byte>) returns (ok: bool)
      requires Valid() && z.pos == 0 && z.num_bits == 0 && z.Fed() == Feed(|z.zbuffer|, 0, 0) && zout == 0
      modifies z, this`out, this`zout, out, z_length.Repr(), z_distance.Repr()
      ensures Valid()
      ensures ok ==> Accepted(z.zbuffer, parse_header, Contents())
      ensures ok && Contents() == data <==> Accepted(z.zbuffer, parse_header, data) && |data| <= room
    {
      hide BlocksLegal, BlocksBytes, BlocksEnd, PutBlocks, HeaderOk, LE, FeedBlocks;
      if parse_header {
        ok := ParseZlibHeader();
        if !ok {
          return;
        }
      }
      ghost var skip := if parse_header then 16 else 0;
      EmptyBuffer(z.zbuffer[z.pos..]);
      assert z.Stream() == LE(z.zbuffer[if parse_header then 2 else 0..]) && Contents() == [];
      assert z.Fed() == Start(|z.zbuffer|, parse_header);
      ghost var goal := Unknown;
      if Accepted(z.zbuffer, parse_header, data) && |data| <= room {
        ghost var bs, rest :| Encodes(z.zbuffer, parse_header, bs, rest) && BlocksBytes([], bs, skip) == data &&
                              FeedBlocks(Start(|z.zbuffer|, parse_header), [], bs, skip).Feed?;
        goal := Want(bs, rest);
      }
      ghost var bs;
      ok, bs := ParseBlocks(goal);
      if ok {
        assert Encodes(z.zbuffer, parse_header, bs, z.Stream());
      }
    }
  }

  /** A list cut in two. */
  ghost predicate Split2<T>(all: seq<T>, done: seq<T>, todo: seq<T>) {
    all == done + todo
  }

  lemma SplitStart<T>(all: seq<T>)
    ensures Split2(all, [], all)
  {
  }

  lemma SplitNext<T>(all: seq<T>, done: seq<T>, x: T, todo: seq<T>)
    requires Split2(all, done, [x] + todo)
    ensures Split2(all, done + [x], todo)
  {
    assert done + ([x] + todo) == (done + [x]) + todo;
  }

  lemma SplitEnd<T>(all: seq<T>, done: seq<T>)
    requires Split2(all, done, [])
    ensures all == done
  {
  }

  /** A whole block body: the tokens and the end-of-block symbol. */
  ghost predicate BlockRead(ll: seq<nat>, dl: seq<nat>, toks: seq<Token>, v: nat, v': nat, o: seq<byte>, o': seq<byte>) {
    Has(ll, END_OF_BLOCK) && TokensRead(ll, dl, toks, v, PutSymbol(ll, END_OF_BLOCK, v'), o, o')
  }

  /** A compressed block comes next, its three header bits already read. */
  ghost predicate CompressedAhead(fixed: bool, b: Block, at: nat, v: nat, rest: nat, o: seq<byte>) {
    && b.Compressed? && b.codes.Fixed? == fixed && BlockLegal(o, b, at)
    && v == PutPayload(o, b, at, rest)
  }

  /** The description of a compressed block's codes comes next; the fixed ones need none. */
  ghost predicate CodesAhead(fixed: bool, c: Codes, v: nat, rest: nat) {
    c.Fixed? == fixed && CodesLegal(c) && v == if fixed then rest else PutDynamic(c.d, rest)
  }

  lemma BodyGoal(b: Block, rest: nat, o: seq<byte>, f: Feed, room: nat)
    requires b.Compressed? && CodesLegal(b.codes) && AllCoded(b.toks, Literals(b.codes), Distances(b.codes))
    requires Has(Literals(b.codes), END_OF_BLOCK) && Legal(o, b.toks)
    requires |Expand(o, b.toks)| <= room && FeedBody(f, b.toks, Literals(b.codes), Distances(b.codes)).Feed?
    ensures TokensAhead(Literals(b.codes), Distances(b.codes), Want(b.toks, rest),
                        PutBody(b.codes, b.toks, rest), o, f, room)
  {
  }

  lemma BodyRead(c: Codes, toks: seq<Token>, v: nat, v': nat, o: seq<byte>, o': seq<byte>)
    requires CodesLegal(c) && BlockRead(Literals(c), Distances(c), toks, v, v', o, o')
    ensures AllCoded(toks, Literals(c), Distances(c)) && Has(Literals(c), END_OF_BLOCK)
    ensures Legal(o, toks) && o' == Expand(o, toks) && v == PutBody(c, toks, v')
  {
  }

  ghost predicate PayloadAhead(kind: nat, b: Block, at: nat, v: nat, rest: nat, o: seq<byte>) {
    kind == Type(b) && BlockLegal(o, b, at) && v == PutPayload(o, b, at, rest)
  }

  /** A goal whose first block comes next, with room for it. */
  ghost predicate BlockComes(want: Goal<Block>, last: bool, at: nat, v: nat, o: seq<byte>, f: Feed, room: nat) {
    want.Want? ==>
      && want.items != [] && BlockAhead(want.items[0], last, at, v, want.rest, o)
      && f.Feed? && f.used == at && FeedBlock(f, o, want.items[0], at).Feed?
      && |BlockBytes(o, want.items[0], at + 3)| <= room
  }

  /** A block has been read. */
  ghost predicate BlockDone(b: Block, last: bool, at: nat, at': nat, v: nat, v': nat, o: seq<byte>, o': seq<byte>) {
    BlockAhead(b, last, at, v, v', o) && o' == BlockBytes(o, b, at + 3) && at' == After(o, b, at)
  }

  ghost predicate BlockAhead(b: Block, last: bool, at: nat, v: nat, rest: nat, o: seq<byte>) {
    BlockLegal(o, b, at + 3) && v == PutBlock(o, b, last, at, rest)
  }

  lemma HeaderBits(v: nat, f: nat, v1: nat, kind: nat)
    requires f == Take(v, 1) && v1 == Drop(v, 1) && kind == Take(v1, 2)
    ensures f < 2 && kind < 4 && v == Put(f, 1, Put(kind, 2, Drop(v1, 2)))
  {
    PutTake(v, 1);
    PutTake(v1, 2);
    TakeBound(v, 1);
    TakeBound(v1, 2);
    Pow2Values();
  }

  lemma HeaderWanted(b: Block, last: bool, at: nat, v: nat, f: nat, kind: nat, v2: nat, rest: nat, o: seq<byte>)
    requires BlockAhead(b, last, at, v, rest, o)
    requires f < 2 && kind < 4 && v == Put(f, 1, Put(kind, 2, v2))
    ensures last == (f == 1) && kind == Type(b) && v2 == PutPayload(o, b, at + 3, rest)
  {
    hide PutPayload, Put, BlockLegal;
    Pow2Values();
    var p := PutPayload(o, b, at + 3, rest);
    PutUnique(f, if last then 1 else 0, 1, Put(kind, 2, v2), Put(Type(b), 2, p));
    PutUnique(kind, Type(b), 2, v2, p);
  }

  /** What a goal for a stream asks of it. */
  ghost predicate BlocksAhead(goal: Goal<Block>, at: nat, v: nat, o: seq<byte>, f: Feed, room: nat) {
    goal.Want? ==>
      && BlocksLegal(o, goal.items, at) && v == PutBlocks(o, goal.items, at, true, goal.rest)
      && f.Feed? && f.used == at && FeedBlocks(f, o, goal.items, at).Feed?
      && |BlocksBytes(o, goal.items, at)| <= room
  }

  /** Blocks read from the stream, and what became of them. */
  ghost predicate BlocksRead(bs: seq<Block>, closed: bool, at: nat, v: nat, v': nat, o: seq<byte>, o': seq<byte>,
                             at': nat, f: Feed, f': Feed) {
    && BlocksLegal(o, bs, at) && v == PutBlocks(o, bs, at, closed, v')
    && o' == BlocksBytes(o, bs, at) && at' == BlocksEnd(o, bs, at)
    && f.Feed? && f.used == at && f' == FeedBlocks(f, o, bs, at)
  }

  lemma NoBlocks(at: nat, v: nat, o: seq<byte>, f: Feed)
    requires f.Feed? && f.used == at
    ensures BlocksRead([], false, at, v, v, o, o, at, f, f)
  {
  }

  lemma FeedGoesOn(bs: seq<Block>, b: Block, at0: nat, o0: seq<byte>, o: seq<byte>, at: nat, f0: Feed)
    requires BlocksLegal(o0, bs, at0) && o == BlocksBytes(o0, bs, at0) && at == BlocksEnd(o0, bs, at0)
    requires BlockLegal(o, b, at + 3) && f0.Feed? && f0.used == at0
    ensures BlocksLegal(o0, bs + [b], at0)
    ensures FeedBlocks(f0, o0, bs + [b], at0) == FeedBlock(FeedBlocks(f0, o0, bs, at0), o, b, at)
  {
    hide BlockLegal, BlockBytes, After, FeedBlock;
    BlocksAppend(o0, bs, at0, b, o, at);
    FeedBlocksAppend(f0, o0, bs, at0, b, o, at);
  }

  lemma MoreBlocks(bs: seq<Block>, b: Block, final: bool, at0: nat, v0: nat, v: nat, v': nat,
                   o0: seq<byte>, o: seq<byte>, at: nat, f0: Feed, f: Feed)
    requires BlocksRead(bs, false, at0, v0, v, o0, o, at, f0, f) && BlockAhead(b, final, at, v, v', o)
    requires f.Feed? && f.used == at
    ensures BlocksRead(bs + [b], final, at0, v0, v', o0, BlockBytes(o, b, at + 3), After(o, b, at),
                       f0, FeedBlock(f, o, b, at))
    ensures v' < v
  {
    hide BlockLegal, BlockBytes, PutBlock, After, FeedBlock;
    FeedGoesOn(bs, b, at0, o0, o, at, f0);
    BlocksAppend(o0, bs, at0, b, o, at);
    PutBlocksAppend(o0, bs, at0, b, final, v', o, at);
    BlockGrows(o, b, final, at, v');
  }

  lemma FirstBlock(todo: Goal<Block>, at: nat, v: nat, o: seq<byte>, f: Feed, room: nat) returns (want: Goal<Block>)
    requires todo.Want? && todo.items != [] && BlocksAhead(todo, at, v, o, f, room)
    ensures want.Want? && want.items == [todo.items[0]]
    ensures BlockAhead(todo.items[0], |todo.items| == 1, at, v, want.rest, o)
    ensures f.Feed? && f.used == at && FeedBlock(f, o, todo.items[0], at).Feed?
    ensures |BlockBytes(o, todo.items[0], at + 3)| <= room
    ensures BlocksLegal(BlockBytes(o, todo.items[0], at + 3), todo.items[1..], After(o, todo.items[0], at))
    ensures want.rest == PutBlocks(BlockBytes(o, todo.items[0], at + 3), todo.items[1..],
                                   After(o, todo.items[0], at), true, todo.rest)
  {
    hide BlockLegal, BlockBytes, PutBlock, PayloadBits, FeedBlock;
    var b := todo.items[0];
    want := Want([b], PutBlocks(BlockBytes(o, b, at + 3), todo.items[1..], After(o, b, at), true, todo.rest));
  }

  lemma OtherBlocks(todo: Goal<Block>, at: nat, v: nat, o: seq<byte>, f: Feed, room: nat) returns (todo': Goal<Block>)
    requires todo.Want? && todo.items != [] && BlocksAhead(todo, at, v, o, f, room)
    ensures todo' == Want(todo.items[1..], todo.rest) && todo.items == [todo.items[0]] + todo'.items
    ensures var b := todo.items[0];
      && BlockLegal(o, b, at + 3) && f.Feed? && f.used == at
      && var o', at' := BlockBytes(o, b, at + 3), After(o, b, at);
      && BlocksLegal(o', todo'.items, at')
      && BlocksAhead(todo', at', PutBlocks(o', todo'.items, at', true, todo.rest), o', FeedBlock(f, o, b, at), room)
  {
    hide BlockLegal, BlockBytes, PutBlock, PayloadBits, FeedBlock;
    todo' := Want(todo.items[1..], todo.rest);
  }

  /** A stored block comes next, its three header bits already read. */
  ghost predicate StoredAhead(b: Block, at: nat, v: nat, rest: nat) {
    && b.Stored? && |b.bytes| < 65536 && b.pad < Pow2(Padding(at))
    && v == PutStored(b.pad, b.bytes, at, rest)
  }

  /** A known stored block determines the four header bytes that are read. */
  lemma StoredHeaderWanted(b: Block, at: nat, v: nat, rest: nat, pad: nat, len: nat, nlen: nat, w: nat)
    requires StoredAhead(b, at, v, rest) && pad < Pow2(Padding(at)) && len < 65536 && nlen < 65536
    requires v == Put(pad, Padding(at), Put(len, 16, Put(nlen, 16, w)))
    ensures pad == b.pad && len == |b.bytes| && nlen == 65535 - len
    ensures w == Put(LE(b.bytes), 8 * |b.bytes|, rest)
  {
    hide Padding, Put, LE, Pow2;
    var n := |b.bytes|;
    var w' := Put(LE(b.bytes), 8 * n, rest);
    PutUnique(pad, b.pad, Padding(at), Put(len, 16, Put(nlen, 16, w)), Put(n, 16, Put(65535 - n, 16, w')));
    Pow2Values();
    PutUnique(len, n, 16, Put(nlen, 16, w), Put(65535 - n, 16, w'));
    PutUnique(nlen, 65535 - n, 16, w, w');
  }

  lemma StoredBytesWanted(a: seq<byte>, b: seq<byte>, rest: nat, rest': nat)
    requires |a| == |b| && Put(LE(a), 8 * |a|, rest) == Put(LE(b), 8 * |b|, rest')
    ensures a == b && rest == rest'
  {
    LEBound(a);
    LEBound(b);
    PutUnique(LE(a), LE(b), 8 * |a|, rest, rest');
    LEInjective(a, b);
  }

  lemma PaddingIs(used: nat, num_bits: nat, loaded: nat)
    requires used + num_bits == 8 * loaded
    ensures num_bits % 8 == Padding(used) <= num_bits && (num_bits - num_bits % 8) % 8 == 0
  {
  }

  lemma EmptyHeader(v: nat)
    ensures Put(LE([]), 0, v) == v
  {
  }

  lemma NoTokens(ll: seq<nat>, dl: seq<nat>, v: nat, o: seq<byte>, f: Feed)
    ensures TokensRead(ll, dl, [], v, v, o, o) && FeedTokens(f, [], ll, dl) == f
  {
  }

  /** What a goal for one round asks of the stream: the token, or the end of the block. */
  ghost predicate TokenAhead(ll: seq<nat>, dl: seq<nat>, want: Goal<Token>, v: nat, o: seq<byte>, f: Feed, room: nat)
    requires want.Want?
  {
    !f.Dry() &&
    if want.items == [] then
      Has(ll, END_OF_BLOCK) && v == PutSymbol(ll, END_OF_BLOCK, want.rest)
    else
      var t := want.items[0];
      && Coded(t, ll, dl) && v == PutToken(t, ll, dl, want.rest) && FeedToken(f, t, ll, dl).Feed?
      && Legal1(o, t) && |Expand1(o, t)| <= room
  }

  /** What a goal for a whole block asks of the stream. */
  ghost predicate TokensAhead(ll: seq<nat>, dl: seq<nat>, goal: Goal<Token>, v: nat, o: seq<byte>, f: Feed, room: nat)
    requires goal.Want?
  {
    && Has(ll, END_OF_BLOCK) && AllCoded(goal.items, ll, dl)
    && v == PutTokens(goal.items, ll, dl, PutSymbol(ll, END_OF_BLOCK, goal.rest))
    && FeedBody(f, goal.items, ll, dl).Feed?
    && Legal(o, goal.items) && |Expand(o, goal.items)| <= room
  }

  /** The tokens were read from the stream, and carried out. */
  ghost predicate TokensRead(ll: seq<nat>, dl: seq<nat>, toks: seq<Token>, v: nat, v': nat, o: seq<byte>, o': seq<byte>) {
    AllCoded(toks, ll, dl) && v == PutTokens(toks, ll, dl, v') && Legal(o, toks) && o' == Expand(o, toks)
  }

  lemma ReadMore(ll: seq<nat>, dl: seq<nat>, toks: seq<Token>, t: Token,
                 v0: nat, v: nat, v': nat, o0: seq<byte>, o: seq<byte>, o': seq<byte>, f: Feed)
    requires TokensRead(ll, dl, toks, v0, v, o0, o) && TokenRead(ll, dl, t, v, v', o, o')
    ensures TokensRead(ll, dl, toks + [t], v0, v', o0, o')
    ensures FeedTokens(f, toks + [t], ll, dl) == FeedToken(FeedTokens(f, toks, ll, dl), t, ll, dl)
  {
    hide FeedTokens, FeedToken, PutToken;
    PutTokensAppend(toks, t, ll, dl, v');
    FeedTokensAppend(f, toks, t, ll, dl);
    ExpandAppend(o0, toks, t);
  }

  /** From a goal for the block to one for its first round. */
  lemma NextWant(ll: seq<nat>, dl: seq<nat>, goal: Goal<Token>, v: nat, o: seq<byte>, f: Feed, room: nat)
    returns (want: Goal<Token>)
    requires goal.Want? && TokensAhead(ll, dl, goal, v, o, f, room)
    ensures want.Want? && TokenAhead(ll, dl, want, v, o, f, room)
    ensures goal.items == [] ==> want == goal
    ensures goal.items != [] ==>
      && want.items == [goal.items[0]] && AllCoded(goal.items[1..], ll, dl) && Has(ll, END_OF_BLOCK)
      && want.rest == PutTokens(goal.items[1..], ll, dl, PutSymbol(ll, END_OF_BLOCK, goal.rest))
  {
    if goal.items == [] {
      want := goal;
    } else {
      want := Want([goal.items[0]], PutTokens(goal.items[1..], ll, dl, PutSymbol(ll, END_OF_BLOCK, goal.rest)));
    }
  }

  /** The goal left when its first token has been read. */
  lemma AfterToken(ll: seq<nat>, dl: seq<nat>, goal: Goal<Token>, v: nat, o: seq<byte>, f: Feed, room: nat)
    returns (todo: Goal<Token>)
    requires goal.Want? && goal.items != [] && TokensAhead(ll, dl, goal, v, o, f, room)
    ensures todo == Want(goal.items[1..], goal.rest)
    ensures var t := goal.items[0];
      && Coded(t, ll, dl) && Legal1(o, t) && AllCoded(todo.items, ll, dl) && Has(ll, END_OF_BLOCK)
      && var w := PutTokens(todo.items, ll, dl, PutSymbol(ll, END_OF_BLOCK, todo.rest));
         TokensAhead(ll, dl, todo, w, Expand1(o, t), FeedToken(f, t, ll, dl), room)
  {
    todo := Want(goal.items[1..], goal.rest);
  }

  /** The match `t` with length symbol `ls` comes next, its length symbol already read. */
  ghost predicate MatchAhead(ls: nat, t: Token, dl: seq<nat>, v: nat, rest: nat) {
    && t.Copy? && t.ls == ls && t.InRange() && Has(dl, t.ds)
    && v == Put(t.le, LengthExtra(ls), PutDist(t.ds, t.de, dl, rest))
  }

  /** Token `t` was read from the stream and carried out. */
  ghost predicate TokenRead(ll: seq<nat>, dl: seq<nat>, t: Token, v: nat, v': nat, o: seq<byte>, o': seq<byte>) {
    Coded(t, ll, dl) && v == PutToken(t, ll, dl, v') && Legal1(o, t) && o' == Expand1(o, t)
  }

  lemma HasSymbol(ll: seq<nat>, s: nat, v: nat)
    requires StartsWith(ll, s, v)
    ensures Has(ll, s)
  {
  }

  lemma LitRead(ll: seq<nat>, dl: seq<nat>, s: nat, v: nat, w: nat, o: seq<byte>, f: Feed)
    requires s < 256 && Has(ll, s) && v == PutSymbol(ll, s, w)
    ensures TokenRead(ll, dl, Lit(s), v, w, o, o + [s as byte])
    ensures FeedToken(f, Lit(s), ll, dl) == f.Symbol(ll[s])
  {
    hide PutSymbol, Feed.Symbol;
  }

  lemma MatchRead(ll: seq<nat>, dl: seq<nat>, s: nat, t: Token, v: nat, w: nat, w': nat, o: seq<byte>, f: Feed)
    requires 257 <= s < 286 && Has(ll, s) && v == PutSymbol(ll, s, w) && MatchAhead(s - 257, t, dl, w, w') && Legal1(o, t)
    ensures TokenRead(ll, dl, t, v, w', o, Expand1(o, t))
    ensures FeedToken(f, t, ll, dl) == FeedDist(f.Symbol(ll[s]).Field(LengthExtra(s - 257)), t.ds, dl)
  {
    hide PutSymbol, Put, PutDist, FeedDist, Feed.Symbol, Feed.Field;
  }

  lemma LengthBound(ls: nat, le: nat)
    requires ls < 29 && le < Pow2(LengthExtra(ls))
    ensures LengthBase(ls) + le <= 258
  {
    var n := LengthExtra(ls);
    if 8 <= ls < 28 {
      ShlPow2(n, 0);
      ShlMono(n, 4 + ls % 4 + 1, 8);
      ShlSum(n, 4 + ls % 4, 1);
      ShlPow2(n, 3);
      Pow2Values();
      Pow2Mono(n + 3, 8);
    } else {
      assert Pow2(0) == 1;
    }
  }

  /** A goal tells which symbol comes first and what follows it. */
  lemma FirstSymbol(ll: seq<nat>, dl: seq<nat>, want: Goal<Token>, v: nat, s: int)
    requires Fits(ll) && want.Want? && (s >= 0 ==> StartsWith(ll, s, v))
    requires if want.items == [] then Has(ll, END_OF_BLOCK) && v == PutSymbol(ll, END_OF_BLOCK, want.rest)
             else Coded(want.items[0], ll, dl) && v == PutToken(want.items[0], ll, dl, want.rest)
    ensures exists i: nat :: StartsWith(ll, i, v)
    ensures s >= 0 ==>
      if want.items == [] then s == END_OF_BLOCK && Drop(v, ll[s]) == want.rest
      else if want.items[0].Lit? then s == want.items[0].b && Drop(v, ll[s]) == want.rest
      else s == 257 + want.items[0].ls &&
           MatchAhead(s - 257, want.items[0], dl, Drop(v, ll[s]), want.rest)
  {
    if want.items == [] {
      SymbolWanted(ll, END_OF_BLOCK, want.rest, s);
    } else if want.items[0].Lit? {
      SymbolWanted(ll, want.items[0].b, want.rest, s);
    } else {
      var t := want.items[0];
      SymbolWanted(ll, 257 + t.ls, Put(t.le, LengthExtra(t.ls), PutDist(t.ds, t.de, dl, want.rest)), s);
    }
  }

  ghost predicate DistAhead(d: (nat, nat), dl: seq<nat>, v: nat, rest: nat) {
    && d.0 < 30 && d.1 < Pow2(DistExtra(d.0)) && Has(dl, d.0)
    && v == PutDist(d.0, d.1, dl, rest)
  }

  /** Reading `n` bits off a stream, and what they are when the stream is known. */
  lemma FieldRead(v: nat, k: nat, n: nat, want: Goal<(nat, nat)>, ds: nat)
    requires k == Take(v, n)
    requires want.Want? ==> want.items != [] && want.items[0].0 == ds &&
                            want.items[0].1 < Pow2(n) && v == Put(want.items[0].1, n, want.rest)
    ensures v == Put(k, n, Drop(v, n))
    ensures want.Want? ==> k == want.items[0].1 && Drop(v, n) == want.rest
  {
    PutTake(v, n);
    if want.Want? {
      TakePut(want.items[0].1, n, want.rest);
    }
  }

  // ---------------------------------------------------------------- decoding a buffer

  /** `stbi_zlib_decode_malloc_guesssize_headerflag`: it returns `data` exactly when the bytes encode `data` in blocks
      for which the buffer is fed, and the output can grow that large.  With two bytes behind the blocks the buffer
      is always fed. */
  method DecodeMalloc(bytes: seq<byte>, initial_size: nat, parse_header: bool, ghost data: seq<byte>)
    returns (r: Option<seq<byte>>)
    requires 1 <= initial_size <= UINT_MAX
    ensures r.Some? ==> Accepted(bytes, parse_header, r.value)
    ensures r == Some(data) <==> Accepted(bytes, parse_header, data) && |data| <= Capacity(initial_size)
    ensures r.Some? ==> InflatesNear(bytes, parse_header, r.value) && InflatesTo(bytes, parse_header, r.value)
    ensures InflatesWithRoom(bytes, parse_header, data) && |data| <= ROOM ==> r == Some(data)
  {
    hide Accepted, InflatesNear, InflatesTo, InflatesWithRoom;
    if InflatesWithRoom(bytes, parse_header, data) {
      RoomIsAccepted(bytes, parse_header, data);
    }
    var p := new byte[initial_size];
    var a := new Inflater(bytes, p, true);
    var ok := a.ParseZlib(parse_header, data);
    if !ok {
      return None;
    }
    r := Some(a.out[..a.zout]);
    AcceptedIsNear(bytes, parse_header, r.value);
  }

  /** `stbi_zlib_decode_buffer` and `stbi_zlib_decode_noheader_buffer`: the same into a buffer of fixed size, of which
      it returns how much is used, or -1. */
  method DecodeBuffer(obuffer: array<byte>, ibuffer: seq<byte>, parse_header: bool, ghost data: seq<byte>)
    returns (r: int)
    requires obuffer.Length <= UINT_MAX
    modifies obuffer
    ensures -1 <= r <= obuffer.Length
    ensures r >= 0 ==> Accepted(ibuffer, parse_header, obuffer[..r])
    ensures r >= 0 && obuffer[..r] == data <==> Accepted(ibuffer, parse_header, data) && |data| <= obuffer.Length
  {
    hide Accepted;
    var a := new Inflater(ibuffer, obuffer, false);
    var ok := a.ParseZlib(parse_header, data);
    return if ok then a.zout else -1;
  }

  lemma EmptyBuffer(tail: seq<byte>)
    ensures Put(0, 0, LE(tail)) == LE(tail)
  {
  }
}
