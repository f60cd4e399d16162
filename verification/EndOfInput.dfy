/** Streams at the end of their input: one that goes past it and is accepted, and one that is complete and is not.
    The buffer of a fixed block is worked out bit by bit. */
module EndOfInput {
  import opened Basics
  import opened Bits
  import opened Canonical
  import opened BitReader
  import opened Deflate
  import opened Feeding
  import opened FixedCodes
  import opened OneReading

  // ---------------------------------------------------------------- a few zeros in a fixed block

  ghost function Zeros(n: nat): seq<Token> {
    seq(n, _ => Lit(0))
  }

  /** A final fixed block of `n` literals 0. */
  ghost function ZerosBlock(n: nat): Block {
    Compressed(Fixed, Zeros(n))
  }

  lemma {:induction false} ZerosLegal(out: seq<byte>, n: nat)
    ensures Legal(out, Zeros(n)) && Expand(out, Zeros(n)) == out + Repeat(0, n)
    decreases n
  {
    if n == 0 {
      assert out + Repeat(0, 0) == out;
    } else {
      assert Zeros(n)[1..] == Zeros(n - 1);
      ZerosLegal(out + [0], n - 1);
      assert out + [0] + Repeat(0, n - 1) == out + Repeat(0, n);
    }
  }

  /** The number whose bits are those of the tokens and the end-of-block symbol, with nothing behind. */
  ghost function ZerosValue(n: nat): nat {
    if n == 0 then 0 else 12 + 256 * ZerosValue(n - 1)
  }

  lemma {:induction false} ZerosBits(n: nat)
    ensures var ll := FixedLiterals();
      PutTokens(Zeros(n), ll, FixedDistances(), PutSymbol(ll, END_OF_BLOCK, 0)) == ZerosValue(n)
    ensures TokensBits(Zeros(n), FixedLiterals(), FixedDistances()) == 8 * n
  {
    hide PutSymbol, FixedDistances;
    var ll := FixedLiterals();
    if n == 0 {
      EndBits();
    } else {
      assert Zeros(n)[1..] == Zeros(n - 1);
      ZerosBits(n - 1);
      ZeroBits(ZerosValue(n - 1));
    }
  }

  lemma EndBits()
    ensures PutSymbol(FixedLiterals(), END_OF_BLOCK, 0) == 0
  {
    LiteralCode(256);
    RevZero(7);
    ShlZero(7);
  }

  lemma ZeroBits(rest: nat)
    ensures PutSymbol(FixedLiterals(), 0, rest) == 12 + 256 * rest
  {
    hide Code;
    LiteralCode(0);
    assert Rev(48, 8) == 12;
    ShlEight(rest);
  }

  /** A stream of that one block. */
  lemma ZerosStream(n: nat, at: nat)
    ensures var bs := [ZerosBlock(n)];
      && BlocksLegal([], bs, at) && PutBlocks([], bs, at, true, 0) == 3 + 8 * ZerosValue(n)
      && BlocksBytes([], bs, at) == Repeat(0, n) && BlocksEnd([], bs, at) == at + 10 + 8 * n
  {
    hide Legal, Expand, PutSymbol, PutTokens, TokensBits, FixedDistances;
    var b := ZerosBlock(n);
    assert [b][1..] == [];
    ZerosLegal([], n);
    assert [] + Repeat(0, n) == Repeat(0, n);
    ZerosBits(n);
    assert BlockLegal([], b, at + 3);
    var v := PutBody(Fixed, b.toks, 0);
    assert Shl(1, v) == 2 * v && Shl(2, v) == 4 * v && Shl(1, 1 + 4 * v) == 2 * (1 + 4 * v);
    assert PutBlock([], b, true, at, 0) == 3 + 8 * v;
  }

  lemma ZerosFeed(f: Feed, n: nat, at: nat)
    requires f.Feed? && f.used == at
    ensures BlocksLegal([], [ZerosBlock(n)], at) && AllCoded(Zeros(n), FixedLiterals(), FixedDistances())
    ensures FeedBlocks(f, [], [ZerosBlock(n)], at) ==
      FeedTokens(f.Field(1).Field(2), Zeros(n), FixedLiterals(), FixedDistances()).Symbol(7)
  {
    hide Legal, FeedTokens, Feed.Field, Feed.Symbol, FixedDistances, BlockBytes, After;
    ZerosStream(n, at);
    var b := ZerosBlock(n);
    assert [b][1..] == [];
    assert FeedBlocks(f, [], [b], at) == FeedBlock(f, [], b, at);
  }

  // ---------------------------------------------------------------- the two streams

  /** Three bytes in which only the first eight of a block's ten bits are present: the other two are zeros past the
      end, and these are in the buffer when the one symbol is looked up. */
  lemma TruncatedIsAccepted()
    ensures var bytes, bs := [0x78, 0x5e, 0x03], [ZerosBlock(0)];
      && Encodes(bytes, true, bs, 0) && BlocksEnd([], bs, 16) == 26 > 8 * |bytes|
      && Accepted(bytes, true, [])
  {
    hide BlocksLegal, BlocksEnd, BlocksBytes, PutBlocks, FeedBlocks, LE, ZerosBlock, Feed.Symbol, Feed.Field;
    var bytes: seq<byte>, bs := [0x78, 0x5e, 0x03], [ZerosBlock(0)];
    ZerosStream(0, 16);
    assert Repeat(0 as byte, 0) == [];
    assert bytes[2..] == [0x03];
    OneByte(3);
    ZerosFeed(Start(3, true), 0, 16);
    AfterHeader();
    assert Encodes(bytes, true, bs, 0);
  }

  lemma OneByte(b: byte)
    ensures LE([b]) == b
  {
    assert [b][1..] == [];
    ShlZero(8);
  }

  lemma AfterHeader()
    ensures FeedTokens(Start(3, true).Field(1).Field(2), Zeros(0), FixedLiterals(), FixedDistances()) == Feed(3, 19, 6)
    ensures Feed(3, 19, 6).Symbol(7) == Feed(3, 26, 6)
  {
  }

  /** A whole block of 26 bits in four bytes.  The buffer is dry at its last symbol: it holds the 13 bits that are
      left, where the code has seven. */
  lemma CompleteIsRejected(data: seq<byte>)
    ensures var bytes, bs := [0x63, 0x60, 0x00, 0x00], [ZerosBlock(2)];
      && Encodes(bytes, false, bs, 0) && BlocksBytes([], bs, 0) == [0, 0] && BlocksEnd([], bs, 0) == 26 <= 8 * |bytes|
      && InflatesTo(bytes, false, [0, 0]) && !Accepted(bytes, false, data)
  {
    hide BlocksLegal, BlocksEnd, BlocksBytes, PutBlocks, FeedBlocks, FeedTokens, LE, ZerosBlock, Feed.Field, Accepted;
    var bytes: seq<byte>, bs := [0x63, 0x60, 0x00, 0x00], [ZerosBlock(2)];
    ZerosStream(2, 0);
    assert Repeat(0 as byte, 2) == [0, 0];
    assert bytes[0..] == bytes;
    FourValue();
    assert ZerosValue(1) == 12 && ZerosValue(2) == 12 + 256 * 12;
    assert Encodes(bytes, false, bs, 0);
    assert Zeros(2) == [Lit(0), Lit(0)];
    TwoTokens();
    ZerosFeed(Start(4, false), 2, 0);
    AcceptedExactly(bytes, false, bs, 0, data);
  }

  lemma FourValue()
    ensures LE([0x63, 0x60, 0x00, 0x00]) == 0x6063
  {
    var a: seq<byte> := [0x63, 0x60, 0x00, 0x00];
    var b := a[1..][1..];
    assert a[1..] == [0x60, 0x00, 0x00] && b == [0x00, 0x00] && b[1..] == [0x00] && b[1..][1..] == [];
    ShlEight(0);
    ShlEight(0x60);
  }

  /** At the end-of-block symbol 19 of the 32 bits are used. */
  lemma TwoTokens()
    ensures AllCoded([Lit(0), Lit(0)], FixedLiterals(), FixedDistances())
    ensures var f := Start(4, false).Field(1).Field(2);
      FeedTokens(f, [Lit(0), Lit(0)], FixedLiterals(), FixedDistances()) == Feed(4, 19, 4)
  {
    var ll, dl := FixedLiterals(), FixedDistances();
    var t := [Lit(0), Lit(0)];
    assert t[1..] == [Lit(0)] && t[1..][1..] == [];
    assert ll[0] == 8;
    assert FeedToken(Feed(4, 3, 4), Lit(0), ll, dl) == Feed(4, 11, 4);
    assert FeedToken(Feed(4, 11, 4), Lit(0), ll, dl) == Feed(4, 19, 4);
  }
}
