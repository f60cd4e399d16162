/** Where a stream of blocks ends: the bits that a decoder takes past the end of its input are zeros, and there
    are few blocks made of zeros. */
module StreamEnd {
  import opened Bits
  import opened Canonical
  import opened Deflate
  import opened FixedCodes

  // ---------------------------------------------------------------- the size of a header

  lemma {:induction false} OpsCount(acc: seq<nat>, ops: seq<LenOp>)
    requires LenOpsLegal(acc, ops)
    ensures |LenOps(acc, ops)| >= |acc| + |ops|
    decreases |ops|
  {
    if ops != [] { OpsCount(LenOp1(acc, ops[0]), ops[1..]); }
  }

  lemma {:induction false} OpsSize(ops: seq<LenOp>, cl: seq<nat>)
    requires OpsCoded(ops, cl) && forall s :: 0 <= s < |cl| ==> cl[s] < 8
    ensures OpsBits(ops, cl) <= 14 * |ops|
  {
    if ops != [] { OpsSize(ops[1..], cl); }
  }

  lemma HeaderSize(d: Dynamic)
    requires DynamicLegal(d)
    ensures DynamicBits(d) <= 4551
  {
    OpsCount([], d.ops);
    OpsSize(d.ops, ClLens(d.sizes));
  }

  // ---------------------------------------------------------------- the end of a compressed block

  /** Only one symbol can have a code of zeros. */
  lemma ZeroCode(lens: seq<nat>, i: nat, j: nat)
    requires Fits(lens) && Has(lens, i) && Has(lens, j) && i != j
    ensures Rev(Code(lens, i), lens[i]) > 0 || Rev(Code(lens, j), lens[j]) > 0
  {
    hide Code, Rev, Fits;
    TakeZero(lens[i]);
    TakeZero(lens[j]);
    if Rev(Code(lens, i), lens[i]) == 0 && Rev(Code(lens, j), lens[j]) == 0 {
      StartsUnique(lens, i, j, 0);
    }
  }

  lemma {:induction false} TakeZero(n: nat)
    ensures Take(0, n) == 0
  {
    if n > 0 { TakeZero(n - 1); }
  }

  lemma TokenSize(t: Token, ll: seq<nat>, dl: seq<nat>)
    requires Coded(t, ll, dl) && Lengths(ll, 16) && Lengths(dl, 16)
    ensures TokenBits(t, ll, dl) <= 50
  {
  }

  lemma CodesFit(c: Codes)
    requires CodesLegal(c)
    ensures Fits(Literals(c)) && Lengths(Literals(c), 16) && Lengths(Distances(c), 16)
  {
    hide KraftTo, FixedLiterals, FixedDistances;
    FixedFits();
  }

  /** Some bit of a block's body is a one, and at most 66 bits behind it the body ends; but a body can be one
      code of zeros. */
  lemma LastOne(c: Codes, toks: seq<Token>, rest: nat) returns (m: nat, y: nat)
    requires CodesLegal(c) && AllCoded(toks, Literals(c), Distances(c)) && Has(Literals(c), END_OF_BLOCK)
    ensures PutBody(c, toks, rest) >= Shl(m, y) && BodyBits(c, toks) <= m + 66
    ensures y > 0 || BodyBits(c, toks) <= 16
  {
    hide Code, Rev, Put, Shl, PutTokens, TokensBits, Literals, Distances, CodesLegal, Fits, TokenBits, PutToken, Coded;
    var ll, dl := Literals(c), Distances(c);
    CodesFit(c);
    var x := PutSymbol(ll, END_OF_BLOCK, rest);
    if Rev(Code(ll, END_OF_BLOCK), ll[END_OF_BLOCK]) > 0 || toks == [] {
      m, y := TokensBits(toks, ll, dl), x;
      PutGrows(Rev(Code(ll, END_OF_BLOCK), ll[END_OF_BLOCK]), ll[END_OF_BLOCK], rest);
      NoShift(x);
      TokensOver(toks, ll, dl, x, 0, x);
      if toks == [] { NoTokenBits(ll, dl); }
    } else {
      var front, t := toks[..|toks| - 1], toks[|toks| - 1];
      assert toks == front + [t];
      assert AllCoded(front, ll, dl) && Coded(t, ll, dl);
      PutTokensAppend(front, t, ll, dl, x);
      m, y := TokensBits(front, ll, dl), PutToken(t, ll, dl, x);
      NoShift(y);
      TokensOver(front, ll, dl, y, 0, y);
      TokenSize(t, ll, dl);
      TokenPositive(t, ll, dl, x);
    }
  }

  lemma NoTokenBits(ll: seq<nat>, dl: seq<nat>)
    ensures TokensBits([], ll, dl) == 0
  {
  }

  lemma TokenPositive(t: Token, ll: seq<nat>, dl: seq<nat>, x: nat)
    requires Coded(t, ll, dl) && Fits(ll) && Has(ll, END_OF_BLOCK) && Rev(Code(ll, END_OF_BLOCK), ll[END_OF_BLOCK]) == 0
    ensures PutToken(t, ll, dl, x) > 0
  {
    hide Code, Rev, Put, Fits, LengthExtra, PutDist;
    var s := if t.Lit? then t.b as nat else 257 + t.ls;
    ZeroCode(ll, s, END_OF_BLOCK);
    var r := if t.Lit? then x else Put(t.le, LengthExtra(t.ls), PutDist(t.ds, t.de, dl, x));
    PutGrows(Rev(Code(ll, s), ll[s]), ll[s], r);
  }

  /** Somewhere in the last block there is a one, and the block ends not far behind it. */
  lemma BlockPoint(out: seq<byte>, b: Block, at: nat, rest: nat) returns (m: nat, y: nat)
    requires BlockLegal(out, b, at + 3) && (b.Stored? ==> b.bytes == [])
    ensures PutBlock(out, b, true, at, rest) >= Shl(m, y) && y > 0
    ensures After(out, b, at) - at < m + SLACK
  {
    hide BlockLegal, PutBlock, Shl, PutBody, BodyBits, PutDynamic, DynamicBits, Put, After, CodesLegal, AllCoded, Literals,
      Distances;
    m, y := 0, PutBlock(out, b, true, at, rest);
    NoShift(y);
    BlockGrows(out, b, true, at, rest);
    LegalOpen(out, b, at);
    if b.Compressed? {
      var n, z := LastOne(b.codes, b.toks, rest);
      var h := if b.codes.Own? then DynamicBits(b.codes.d) else 0;
      if b.codes.Own? { HeaderSize(b.codes.d); }
      if z > 0 {
        PointIn(out, b, at, rest, n, z);
        m, y := 3 + h + n, z;
      }
    }
  }

  lemma LegalOpen(out: seq<byte>, b: Block, at: nat)
    requires BlockLegal(out, b, at + 3)
    ensures b.Compressed? ==>
      && CodesLegal(b.codes) && AllCoded(b.toks, Literals(b.codes), Distances(b.codes))
      && Has(Literals(b.codes), END_OF_BLOCK) && (b.codes.Own? ==> DynamicLegal(b.codes.d))
      && After(out, b, at) - at == 3 + (if b.codes.Own? then DynamicBits(b.codes.d) else 0) + BodyBits(b.codes, b.toks)
    ensures b.Stored? && b.bytes == [] ==> After(out, b, at) - at <= 42
  {
    hide BodyBits, DynamicBits;
  }

  lemma PointIn(out: seq<byte>, b: Block, at: nat, rest: nat, n: nat, z: nat)
    requires BlockLegal(out, b, at + 3) && b.Compressed? && CodesLegal(b.codes)
    requires AllCoded(b.toks, Literals(b.codes), Distances(b.codes)) && Has(Literals(b.codes), END_OF_BLOCK)
    requires PutBody(b.codes, b.toks, rest) >= Shl(n, z)
    ensures var h := if b.codes.Own? then DynamicBits(b.codes.d) else 0;
      PutBlock(out, b, true, at, rest) >= Shl(3 + h + n, z)
  {
    hide BlockLegal, Shl, PutBody, PutDynamic, DynamicBits, DynamicLegal, Put;
    var h := if b.codes.Own? then DynamicBits(b.codes.d) else 0;
    if b.codes.Own? { DynamicOver(b.codes.d, PutBody(b.codes, b.toks, rest), n, z); }
    var p := PutPayload(out, b, at + 3, rest);
    PutOver(Type(b), 2, p, h + n, z);
    PutOver(1, 1, Put(Type(b), 2, p), 2 + (h + n), z);
  }

  // ---------------------------------------------------------------- the end of a stream

  lemma {:induction false} BlocksSplit(out: seq<byte>, bs: seq<Block>, at: nat)
    requires bs != [] && BlocksLegal(out, bs, at)
    ensures var front := bs[..|bs| - 1];
      && BlocksLegal(out, front, at)
      && BlockLegal(BlocksBytes(out, front, at), bs[|bs| - 1], BlocksEnd(out, front, at) + 3)
    decreases |bs|
  {
    hide BlockLegal, BlockBytes, After;
    var front := bs[..|bs| - 1];
    if |bs| == 1 {
      assert front == [];
    } else {
      var o, e := BlockBytes(out, bs[0], at + 3), After(out, bs[0], at);
      BlocksSplit(o, bs[1..], e);
      assert front[0] == bs[0] && front[1..] == bs[1..][..|bs[1..]| - 1];
    }
  }

  lemma {:induction false} BlocksOver(out: seq<byte>, bs: seq<Block>, at: nat, v: nat)
    requires BlocksLegal(out, bs, at)
    ensures PutBlocks(out, bs, at, false, v) >= Shl(BlocksEnd(out, bs, at) - at, v)
    decreases |bs|
  {
    hide BlockLegal, BlockBytes, After, PutBlock, Shl;
    if bs == [] {
      NoShift(v);
    } else {
      var o, e := BlockBytes(out, bs[0], at + 3), After(out, bs[0], at);
      var r := PutBlocks(o, bs[1..], e, false, v);
      BlocksOver(o, bs[1..], e, v);
      BlockGrows(out, bs[0], false, at, r);
      AfterLater(out, bs[0], at);
      ShlMono(e - at, Shl(BlocksEnd(o, bs[1..], e) - e, v), r);
      ShlAdd(e - at, BlocksEnd(o, bs[1..], e) - e, v);
    }
  }

  lemma AfterLater(out: seq<byte>, b: Block, at: nat)
    requires BlockLegal(out, b, at + 3)
    ensures After(out, b, at) >= at
  {
  }

  /** A one at place `k` of a number of `n` bits. */
  lemma OneInside(v: nat, k: nat, y: nat, n: nat)
    requires v < Pow2(n) && v >= Shl(k, y) && y > 0
    ensures k < n
  {
    hide Shl, Pow2;
    ShlMono(k, 1, y);
    ShlPow2(k, 0);
    Pow2Values();
    if k >= n { Pow2Mono(n, k); }
  }

  /** Every stream but one whose last block is a stored one ends near the end of its bytes. */
  lemma StreamEndsNear(bytes: seq<byte>, header: bool, bs: seq<Block>, rest: nat)
    requires Encodes(bytes, header, bs, rest)
    requires bs[|bs| - 1].Stored? ==> bs[|bs| - 1].bytes == []
    ensures BlocksEnd([], bs, if header then 16 else 0) < 8 * |bytes| + SLACK
  {
    hide LE, HeaderOk, BlockLegal, BlocksLegal, BlocksBytes, BlocksEnd, PutBlocks, PutBlock, After, Shl, Pow2;
    var skip := if header then 2 else 0;
    var front, b := bs[..|bs| - 1], bs[|bs| - 1];
    assert bs == front + [b];
    BlocksSplit([], bs, 8 * skip);
    var o, e := BlocksBytes([], front, 8 * skip), BlocksEnd([], front, 8 * skip);
    BlocksAppend([], front, 8 * skip, b, o, e);
    PutBlocksAppend([], front, 8 * skip, b, true, rest, o, e);
    var p := PutBlock(o, b, true, e, rest);
    BlocksOver([], front, 8 * skip, p);
    var m, y := BlockPoint(o, b, e, rest);
    var d := e - 8 * skip;
    ShlMono(d, Shl(m, y), p);
    ShlAdd(d, m, y);
    LEBound(bytes[skip..]);
    OneInside(LE(bytes[skip..]), d + m, y, 8 * |bytes[skip..]|);
  }
}
