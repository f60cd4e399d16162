/** How far a reader is after the parts of a stream, and whether it gets there: the guard of `stbi__zhuffman_decode`
    wants 16 bits in the buffer or more input at every symbol, whatever the length of its code. */
module Feeding {
  import opened Bits
  import opened BitReader
  import opened Deflate
  import opened StreamEnd

  // ---------------------------------------------------------------- compressed blocks

  ghost function FeedDist(f: Feed, ds: nat, dl: seq<nat>): Feed
    requires ds < 30 && Has(dl, ds)
  {
    f.Symbol(dl[ds]).Field(DistExtra(ds))
  }

  ghost function FeedToken(f: Feed, t: Token, ll: seq<nat>, dl: seq<nat>): (r: Feed)
    requires Coded(t, ll, dl)
    ensures r.Feed? ==> !f.Dry() && r.size == f.size && r.used == f.used + TokenBits(t, ll, dl)
  {
    if t.Lit? then f.Symbol(ll[t.b])
    else FeedDist(f.Symbol(ll[257 + t.ls]).Field(LengthExtra(t.ls)), t.ds, dl)
  }

  lemma FeedParts(f: Feed, t: Token, ll: seq<nat>, dl: seq<nat>)
    requires Coded(t, ll, dl)
    ensures t.Lit? ==> FeedToken(f, t, ll, dl) == f.Symbol(ll[t.b])
    ensures t.Copy? ==>
      var g := f.Symbol(ll[257 + t.ls]).Field(LengthExtra(t.ls));
      FeedToken(f, t, ll, dl) == FeedDist(g, t.ds, dl) && (FeedToken(f, t, ll, dl).Feed? ==> !g.Dry())
  {
  }

  ghost function FeedTokens(f: Feed, toks: seq<Token>, ll: seq<nat>, dl: seq<nat>): (r: Feed)
    requires AllCoded(toks, ll, dl)
    ensures r.Feed? ==> f.Feed? && r.size == f.size && r.used == f.used + TokensBits(toks, ll, dl)
    decreases |toks|
  {
    if toks == [] then f else FeedTokens(FeedToken(f, toks[0], ll, dl), toks[1..], ll, dl)
  }

  lemma {:induction false} FeedTokensAppend(f: Feed, toks: seq<Token>, t: Token, ll: seq<nat>, dl: seq<nat>)
    requires AllCoded(toks, ll, dl) && Coded(t, ll, dl)
    ensures AllCoded(toks + [t], ll, dl)
    ensures FeedTokens(f, toks + [t], ll, dl) == FeedToken(FeedTokens(f, toks, ll, dl), t, ll, dl)
    decreases |toks|
  {
    if toks == [] {
      assert toks + [t] == [t];
      assert FeedTokens(FeedToken(f, t, ll, dl), [t][1..], ll, dl) == FeedToken(f, t, ll, dl);
    } else {
      assert (toks + [t])[1..] == toks[1..] + [t];
      FeedTokensAppend(FeedToken(f, toks[0], ll, dl), toks[1..], t, ll, dl);
    }
  }

  /** The tokens of a block and the end-of-block symbol. */
  ghost function FeedBody(f: Feed, toks: seq<Token>, ll: seq<nat>, dl: seq<nat>): (r: Feed)
    requires AllCoded(toks, ll, dl) && Has(ll, END_OF_BLOCK)
    ensures r.Feed? ==> f.Feed? && r.size == f.size && r.used == f.used + TokensBits(toks, ll, dl) + ll[END_OF_BLOCK]
  {
    FeedTokens(f, toks, ll, dl).Symbol(ll[END_OF_BLOCK])
  }

  // ---------------------------------------------------------------- headers

  ghost function FeedOp(f: Feed, op: LenOp, cl: seq<nat>): (r: Feed)
    requires OpCoded(op, cl)
    ensures r.Feed? ==> !f.Dry() && r.size == f.size && r.used == f.used + cl[op.Symbol()] + op.Size()
  {
    f.Symbol(cl[op.Symbol()]).Field(op.Size())
  }

  ghost function FeedOps(f: Feed, ops: seq<LenOp>, cl: seq<nat>): (r: Feed)
    requires OpsCoded(ops, cl)
    ensures r.Feed? ==> f.Feed? && r.size == f.size && r.used == f.used + OpsBits(ops, cl)
    decreases |ops|
  {
    if ops == [] then f else FeedOps(FeedOp(f, ops[0], cl), ops[1..], cl)
  }

  lemma {:induction false} FeedOpsAppend(f: Feed, ops: seq<LenOp>, op: LenOp, cl: seq<nat>)
    requires OpsCoded(ops, cl) && OpCoded(op, cl)
    ensures OpsCoded(ops + [op], cl) && FeedOps(f, ops + [op], cl) == FeedOp(FeedOps(f, ops, cl), op, cl)
    decreases |ops|
  {
    if ops == [] {
      assert ops + [op] == [op];
      assert FeedOps(FeedOp(f, op, cl), [op][1..], cl) == FeedOp(f, op, cl);
    } else {
      assert (ops + [op])[1..] == ops[1..] + [op];
      FeedOpsAppend(FeedOp(f, ops[0], cl), ops[1..], op, cl);
    }
  }

  /** `n` sizes of three bits. */
  ghost function FeedSizes(f: Feed, n: nat): (r: Feed)
    ensures r.Feed? <==> f.Feed?
    ensures r.Feed? ==> r.size == f.size && r.used == f.used + 3 * n
  {
    if n == 0 then f else FeedSizes(f, n - 1).Field(3)
  }

  /** The three counts and the sizes that start a header. */
  ghost function FeedCounts(f: Feed, n: nat): (r: Feed)
    ensures r.Feed? <==> f.Feed?
    ensures r.Feed? ==> r.size == f.size && r.used == f.used + 14 + 3 * n
  {
    FeedSizes(f.Field(5).Field(5).Field(4), n)
  }

  ghost function FeedDynamic(f: Feed, d: Dynamic): (r: Feed)
    requires DynamicLegal(d)
    ensures r.Feed? ==> f.Feed? && r.size == f.size && r.used == f.used + DynamicBits(d)
  {
    FeedOps(FeedCounts(f, |d.sizes|), d.ops, ClLens(d.sizes))
  }

  ghost function FeedCodes(f: Feed, c: Codes): (r: Feed)
    requires CodesLegal(c)
    ensures r.Feed? ==> f.Feed? && r.size == f.size
  {
    if c.Own? then FeedDynamic(f, c.d) else f
  }

  // ---------------------------------------------------------------- blocks

  /** A stored block's header empties the code buffer, and its bytes come straight from the input, which must hold
      them all. */
  ghost function FeedStored(f: Feed, len: nat): (r: Feed)
    ensures r.Feed? ==> f.Feed? && r.size == f.size && r.used == f.used + Padding(f.used) + 32 + 8 * len
    ensures r.Feed? && len > 0 ==> r.used <= 8 * r.size
  {
    if f.Starved? then Starved
    else
      var at := (f.used + Padding(f.used) + 32) / 8;
      if len > 0 && at + len > f.size then Starved else Feed(f.size, 8 * (at + len), at + len)
  }

  ghost function FeedPayload(f: Feed, out: seq<byte>, b: Block, at: nat): (r: Feed)
    requires BlockLegal(out, b, at) && (f.Feed? ==> f.used == at)
    ensures r.Feed? ==> f.Feed? && r.size == f.size && r.used == at + PayloadBits(out, b, at)
    ensures r.Feed? && b.Stored? && b.bytes != [] ==> r.used <= 8 * r.size
  {
    match b
    case Stored(_, bytes) => FeedStored(f, |bytes|)
    case Compressed(codes, toks) => FeedBody(FeedCodes(f, codes), toks, Literals(codes), Distances(codes))
  }

  ghost function FeedBlock(f: Feed, out: seq<byte>, b: Block, at: nat): (r: Feed)
    requires BlockLegal(out, b, at + 3) && (f.Feed? ==> f.used == at)
    ensures r.Feed? ==> f.Feed? && r.size == f.size && r.used == After(out, b, at)
    ensures r.Feed? && b.Stored? && b.bytes != [] ==> r.used <= 8 * r.size
  {
    FeedPayload(f.Field(1).Field(2), out, b, at + 3)
  }

  ghost function FeedBlocks(f: Feed, out: seq<byte>, bs: seq<Block>, at: nat): (r: Feed)
    requires BlocksLegal(out, bs, at) && (f.Feed? ==> f.used == at)
    ensures r.Feed? ==> f.Feed? && r.size == f.size && r.used == BlocksEnd(out, bs, at)
    decreases |bs|
  {
    if bs == [] then f
    else FeedBlocks(FeedBlock(f, out, bs[0], at), BlockBytes(out, bs[0], at + 3), bs[1..], After(out, bs[0], at))
  }

  lemma {:induction false} FeedBlocksAppend(f: Feed, out: seq<byte>, bs: seq<Block>, at: nat, b: Block, o: seq<byte>, e: nat)
    requires BlocksLegal(out, bs, at) && o == BlocksBytes(out, bs, at) && e == BlocksEnd(out, bs, at)
    requires BlockLegal(o, b, e + 3) && BlocksLegal(out, bs + [b], at) && (f.Feed? ==> f.used == at)
    ensures FeedBlocks(f, out, bs + [b], at) == FeedBlock(FeedBlocks(f, out, bs, at), o, b, e)
    decreases |bs|
  {
    hide BlockLegal, BlockBytes, After, FeedBlock;
    if bs == [] {
      assert bs + [b] == [b] && [b][1..] == [];
      var g := FeedBlock(f, out, b, at);
      assert FeedBlocks(g, BlockBytes(out, b, at + 3), [b][1..], After(out, b, at)) == g;
    } else {
      assert (bs + [b])[1..] == bs[1..] + [b];
      var g := FeedBlock(f, out, bs[0], at);
      FeedBlocksAppend(g, BlockBytes(out, bs[0], at + 3), bs[1..], After(out, bs[0], at), b, o, e);
    }
  }

  // ---------------------------------------------------------------- streams

  /** At the first block: behind the two header bytes, if there are any. */
  function Start(size: nat, header: bool): Feed {
    if header then Feed(size, 16, 2) else Feed(size, 0, 0)
  }

  /** `bytes` encode `data` in blocks for which the buffer is fed. */
  ghost predicate Accepted(bytes: seq<byte>, header: bool, data: seq<byte>) {
    exists bs, rest ::
      && Encodes(bytes, header, bs, rest) && BlocksBytes([], bs, if header then 16 else 0) == data
      && FeedBlocks(Start(|bytes|, header), [], bs, if header then 16 else 0).Feed?
  }

  /** A last block of stored bytes ends inside the input. */
  lemma {:induction false} StoredInside(f: Feed, out: seq<byte>, bs: seq<Block>, at: nat)
    requires BlocksLegal(out, bs, at) && (f.Feed? ==> f.used == at) && FeedBlocks(f, out, bs, at).Feed?
    requires bs != [] && bs[|bs| - 1].Stored? && bs[|bs| - 1].bytes != []
    ensures BlocksEnd(out, bs, at) <= 8 * f.size
    decreases |bs|
  {
    hide BlockLegal, BlockBytes, After, FeedBlock;
    var g := FeedBlock(f, out, bs[0], at);
    if |bs| > 1 {
      StoredInside(g, BlockBytes(out, bs[0], at + 3), bs[1..], After(out, bs[0], at));
    }
  }

  /** What is accepted ends near the end of its bytes if it goes past it. */
  lemma AcceptedIsNear(bytes: seq<byte>, header: bool, data: seq<byte>)
    requires Accepted(bytes, header, data)
    ensures InflatesNear(bytes, header, data) && InflatesTo(bytes, header, data)
  {
    hide LE, HeaderOk, PutBlocks, BlocksLegal, BlocksBytes, BlocksEnd, FeedBlocks;
    var at := if header then 16 else 0;
    var bs: seq<Block>, rest :| Encodes(bytes, header, bs, rest) && BlocksBytes([], bs, at) == data
                    && FeedBlocks(Start(|bytes|, header), [], bs, at).Feed?;
    if bs[|bs| - 1].Stored? && bs[|bs| - 1].bytes != [] {
      StoredInside(Start(|bytes|, header), [], bs, at);
    } else {
      StreamEndsNear(bytes, header, bs, rest);
    }
  }

  // ---------------------------------------------------------------- room behind the blocks

  /** Sixteen bits of input that are not handed out keep the buffer from being dry. */
  lemma NotDry(f: Feed)
    requires f.Feed? && f.used + 16 <= 8 * f.size
    ensures !f.Dry()
  {
  }

  lemma RoomForToken(f: Feed, t: Token, ll: seq<nat>, dl: seq<nat>)
    requires Coded(t, ll, dl) && f.Feed? && f.used + TokenBits(t, ll, dl) + 16 <= 8 * f.size
    ensures FeedToken(f, t, ll, dl).Feed?
  {
  }

  lemma {:induction false} RoomForTokens(f: Feed, toks: seq<Token>, ll: seq<nat>, dl: seq<nat>)
    requires AllCoded(toks, ll, dl) && f.Feed? && f.used + TokensBits(toks, ll, dl) + 16 <= 8 * f.size
    ensures FeedTokens(f, toks, ll, dl).Feed?
    decreases |toks|
  {
    hide FeedToken, TokenBits, Coded;
    if toks != [] {
      RoomForToken(f, toks[0], ll, dl);
      RoomForTokens(FeedToken(f, toks[0], ll, dl), toks[1..], ll, dl);
    }
  }

  lemma {:induction false} RoomForOps(f: Feed, ops: seq<LenOp>, cl: seq<nat>)
    requires OpsCoded(ops, cl) && f.Feed? && f.used + OpsBits(ops, cl) + 16 <= 8 * f.size
    ensures FeedOps(f, ops, cl).Feed?
    decreases |ops|
  {
    if ops != [] { RoomForOps(FeedOp(f, ops[0], cl), ops[1..], cl); }
  }

  lemma RoomForBlock(f: Feed, out: seq<byte>, b: Block, at: nat)
    requires BlockLegal(out, b, at + 3) && f.Feed? && f.used == at && After(out, b, at) + 16 <= 8 * f.size
    ensures FeedBlock(f, out, b, at).Feed?
  {
    hide FeedTokens, TokensBits, FeedOps, OpsBits, FeedSizes, DynamicLegal, Legal, Padding;
    var g := f.Field(1).Field(2);
    if b.Compressed? {
      var ll, dl := Literals(b.codes), Distances(b.codes);
      if b.codes.Own? { RoomForHeader(g, b.codes.d); }
      RoomForTokens(FeedCodes(g, b.codes), b.toks, ll, dl);
    }
  }

  lemma RoomForHeader(f: Feed, d: Dynamic)
    requires DynamicLegal(d) && f.Feed? && f.used + DynamicBits(d) + 16 <= 8 * f.size
    ensures FeedDynamic(f, d).Feed?
  {
    hide FeedOps, OpsBits, FeedCounts;
    RoomForOps(FeedCounts(f, |d.sizes|), d.ops, ClLens(d.sizes));
  }

  lemma {:induction false} RoomForBlocks(f: Feed, out: seq<byte>, bs: seq<Block>, at: nat)
    requires BlocksLegal(out, bs, at) && f.Feed? && f.used == at && BlocksEnd(out, bs, at) + 16 <= 8 * f.size
    ensures FeedBlocks(f, out, bs, at).Feed?
    decreases |bs|
  {
    hide BlockLegal, BlockBytes, After, FeedBlock;
    if bs != [] {
      var o, e := BlockBytes(out, bs[0], at + 3), After(out, bs[0], at);
      assert BlocksEnd(o, bs[1..], e) >= e;
      RoomForBlock(f, out, bs[0], at);
      RoomForBlocks(FeedBlock(f, out, bs[0], at), o, bs[1..], e);
    }
  }

  /** Two bytes behind the blocks are enough. */
  lemma RoomIsAccepted(bytes: seq<byte>, header: bool, data: seq<byte>)
    requires InflatesWithRoom(bytes, header, data)
    ensures Accepted(bytes, header, data)
  {
    hide LE, HeaderOk, PutBlocks, BlocksLegal, BlocksBytes, BlocksEnd, FeedBlocks;
    var at := if header then 16 else 0;
    var bs: seq<Block>, rest :| Encodes(bytes, header, bs, rest) && BlocksBytes([], bs, at) == data
                    && BlocksEnd([], bs, at) + 16 <= 8 * |bytes|;
    RoomForBlocks(Start(|bytes|, header), [], bs, at);
  }
}
