/** A stream of bits has at most one reading: no two lists of blocks have the same bits. */
module OneReading {
  import opened Bits
  import opened Canonical
  import opened BitReader
  import opened Deflate
  import opened Feeding
  import opened FixedCodes

  lemma SymbolUnique(lens: seq<nat>, i: nat, j: nat, r: nat, r': nat)
    requires Fits(lens) && Has(lens, i) && Has(lens, j) && PutSymbol(lens, i, r) == PutSymbol(lens, j, r')
    ensures i == j && r == r'
  {
    hide Fits, PutSymbol, StartsWith;
    PutStarts(lens, i, r);
    PutStarts(lens, j, r');
    StartsUnique(lens, i, j, PutSymbol(lens, i, r));
  }

  lemma DistUnique(ds: nat, de: nat, ds': nat, de': nat, dl: seq<nat>, r: nat, r': nat)
    requires ds < 30 && ds' < 30 && Has(dl, ds) && Has(dl, ds') && Fits(dl)
    requires de < Pow2(DistExtra(ds)) && de' < Pow2(DistExtra(ds'))
    requires PutDist(ds, de, dl, r) == PutDist(ds', de', dl, r')
    ensures ds == ds' && de == de' && r == r'
  {
    hide Fits, PutSymbol, Put, Pow2, DistExtra;
    SymbolUnique(dl, ds, ds', Put(de, DistExtra(ds), r), Put(de', DistExtra(ds'), r'));
    PutUnique(de, de', DistExtra(ds), r, r');
  }

  /** The symbol that starts a token, and what follows it. */
  ghost function First(t: Token): nat
    requires t.Copy? ==> t.ls < 29
  {
    if t.Lit? then t.b as nat else 257 + t.ls
  }

  ghost function Behind(t: Token, dl: seq<nat>, r: nat): nat
    requires t.Copy? ==> t.ls < 29 && t.ds < 30 && Has(dl, t.ds)
  {
    if t.Lit? then r else Put(t.le, LengthExtra(t.ls), PutDist(t.ds, t.de, dl, r))
  }

  lemma TokenParts(t: Token, ll: seq<nat>, dl: seq<nat>, r: nat)
    requires Coded(t, ll, dl)
    ensures Has(ll, First(t)) && First(t) != END_OF_BLOCK
    ensures PutToken(t, ll, dl, r) == PutSymbol(ll, First(t), Behind(t, dl, r))
  {
    hide PutSymbol, Put, PutDist;
  }

  lemma TokenUnique(t: Token, t': Token, ll: seq<nat>, dl: seq<nat>, r: nat, r': nat)
    requires Fits(ll) && Fits(dl) && Coded(t, ll, dl) && Coded(t', ll, dl)
    requires PutToken(t, ll, dl, r) == PutToken(t', ll, dl, r')
    ensures t == t' && r == r'
  {
    hide Fits, PutSymbol, PutToken, Put, PutDist, Pow2, LengthExtra, DistExtra;
    TokenParts(t, ll, dl, r);
    TokenParts(t', ll, dl, r');
    SymbolUnique(ll, First(t), First(t'), Behind(t, dl, r), Behind(t', dl, r'));
    if t.Copy? {
      PutUnique(t.le, t'.le, LengthExtra(t.ls), PutDist(t.ds, t.de, dl, r), PutDist(t'.ds, t'.de, dl, r'));
      DistUnique(t.ds, t.de, t'.ds, t'.de, dl, r, r');
    }
  }

  /** Tokens up to the end-of-block symbol. */
  lemma {:induction false} TokensUnique(toks: seq<Token>, toks': seq<Token>, ll: seq<nat>, dl: seq<nat>, r: nat, r': nat)
    requires Fits(ll) && Fits(dl) && AllCoded(toks, ll, dl) && AllCoded(toks', ll, dl) && Has(ll, END_OF_BLOCK)
    requires var e, e' := PutSymbol(ll, END_OF_BLOCK, r), PutSymbol(ll, END_OF_BLOCK, r');
      PutTokens(toks, ll, dl, e) == PutTokens(toks', ll, dl, e')
    ensures toks == toks' && r == r'
  {
    hide Fits, PutSymbol, PutToken, Coded;
    var e, e' := PutSymbol(ll, END_OF_BLOCK, r), PutSymbol(ll, END_OF_BLOCK, r');
    if toks == [] && toks' == [] {
      SymbolUnique(ll, END_OF_BLOCK, END_OF_BLOCK, r, r');
    } else if toks == [] {
      NotTheEnd(toks'[0], ll, dl, PutTokens(toks'[1..], ll, dl, e'), r);
    } else if toks' == [] {
      NotTheEnd(toks[0], ll, dl, PutTokens(toks[1..], ll, dl, e), r');
    } else {
      TokenUnique(toks[0], toks'[0], ll, dl, PutTokens(toks[1..], ll, dl, e), PutTokens(toks'[1..], ll, dl, e'));
      TokensUnique(toks[1..], toks'[1..], ll, dl, r, r');
      assert toks == [toks[0]] + toks[1..] && toks' == [toks'[0]] + toks'[1..];
    }
  }

  lemma NotTheEnd(t: Token, ll: seq<nat>, dl: seq<nat>, r: nat, r': nat)
    requires Fits(ll) && Coded(t, ll, dl) && Has(ll, END_OF_BLOCK)
    ensures PutToken(t, ll, dl, r) != PutSymbol(ll, END_OF_BLOCK, r')
  {
    hide Fits, PutSymbol, PutToken;
    TokenParts(t, ll, dl, r);
    if PutToken(t, ll, dl, r) == PutSymbol(ll, END_OF_BLOCK, r') {
      SymbolUnique(ll, First(t), END_OF_BLOCK, Behind(t, dl, r), r');
    }
  }

  // ---------------------------------------------------------------- headers

  lemma {:induction false} SizesUnique(a: seq<nat>, b: seq<nat>, r: nat, r': nat)
    requires |a| == |b| && (forall i :: 0 <= i < |a| ==> a[i] < 8 && b[i] < 8) && PutSizes(a, r) == PutSizes(b, r')
    ensures a == b && r == r'
  {
    hide Put;
    if a != [] {
      Pow2Values();
      PutUnique(a[0], b[0], 3, PutSizes(a[1..], r), PutSizes(b[1..], r'));
      SizesUnique(a[1..], b[1..], r, r');
      assert a == [a[0]] + a[1..] && b == [b[0]] + b[1..];
    }
  }

  lemma OpUnique(op: LenOp, op': LenOp, cl: seq<nat>, r: nat, r': nat)
    requires Fits(cl) && OpCoded(op, cl) && OpCoded(op', cl) && PutOp(op, cl, r) == PutOp(op', cl, r')
    ensures op == op' && r == r'
  {
    hide Fits, PutSymbol, Put, Pow2;
    SymbolUnique(cl, op.Symbol(), op'.Symbol(), Put(op.Extra(), op.Size(), r), Put(op'.Extra(), op'.Size(), r'));
    ExtraSmall(op);
    ExtraSmall(op');
    PutUnique(op.Extra(), op'.Extra(), op.Size(), r, r');
  }

  lemma ExtraSmall(op: LenOp)
    requires op.InRange()
    ensures op.Extra() < Pow2(op.Size())
  {
    Pow2Values();
    assert Pow2(0) == 1;
  }

  /** Instructions that give the same number of lengths. */
  lemma {:induction false} OpsUnique(acc: seq<nat>, a: seq<LenOp>, b: seq<LenOp>, cl: seq<nat>, r: nat, r': nat)
    requires Fits(cl) && OpsCoded(a, cl) && OpsCoded(b, cl) && LenOpsLegal(acc, a) && LenOpsLegal(acc, b)
    requires |LenOps(acc, a)| == |LenOps(acc, b)| && PutOps(a, cl, r) == PutOps(b, cl, r')
    ensures a == b && r == r'
    decreases |a|
  {
    hide Fits, PutOp, OpCoded, LenOpLegal, LenOp1;
    if a != [] && b != [] {
      OpUnique(a[0], b[0], cl, PutOps(a[1..], cl, r), PutOps(b[1..], cl, r'));
      OpsUnique(LenOp1(acc, a[0]), a[1..], b[1..], cl, r, r');
      assert a == [a[0]] + a[1..] && b == [b[0]] + b[1..];
    }
  }

  lemma DynamicUnique(d: Dynamic, d': Dynamic, r: nat, r': nat)
    requires DynamicLegal(d) && DynamicLegal(d') && PutDynamic(d, r) == PutDynamic(d', r')
    ensures d == d' && r == r'
  {
    hide Fits, Put, PutSizes, PutOps, Pow2, LenOps, LenOpsLegal, OpsCoded, ClLens;
    Pow2Values();
    var x, x' := PutOps(d.ops, ClLens(d.sizes), r), PutOps(d'.ops, ClLens(d'.sizes), r');
    var y, y' := PutSizes(d.sizes, x), PutSizes(d'.sizes, x');
    PutUnique(d.hlit - 257, d'.hlit - 257, 5, Put(d.hdist - 1, 5, Put(|d.sizes| - 4, 4, y)),
              Put(d'.hdist - 1, 5, Put(|d'.sizes| - 4, 4, y')));
    PutUnique(d.hdist - 1, d'.hdist - 1, 5, Put(|d.sizes| - 4, 4, y), Put(|d'.sizes| - 4, 4, y'));
    PutUnique(|d.sizes| - 4, |d'.sizes| - 4, 4, y, y');
    SizesUnique(d.sizes, d'.sizes, x, x');
    OpsUnique([], d.ops, d'.ops, ClLens(d.sizes), r, r');
  }

  // ---------------------------------------------------------------- blocks

  lemma StoredUnique(pad: nat, pad': nat, bytes: seq<byte>, bytes': seq<byte>, at: nat, r: nat, r': nat)
    requires |bytes| < 65536 && |bytes'| < 65536 && pad < Pow2(Padding(at)) && pad' < Pow2(Padding(at))
    requires PutStored(pad, bytes, at, r) == PutStored(pad', bytes', at, r')
    ensures pad == pad' && bytes == bytes' && r == r'
  {
    hide Put, LE, Padding, Pow2;
    Pow2Values();
    var n, n' := |bytes|, |bytes'|;
    var x, x' := Put(LE(bytes), 8 * n, r), Put(LE(bytes'), 8 * n', r');
    PutUnique(pad, pad', Padding(at), Put(n, 16, Put(65535 - n, 16, x)), Put(n', 16, Put(65535 - n', 16, x')));
    PutUnique(n, n', 16, Put(65535 - n, 16, x), Put(65535 - n', 16, x'));
    PutUnique(65535 - n, 65535 - n', 16, x, x');
    LEBound(bytes);
    LEBound(bytes');
    PutUnique(LE(bytes), LE(bytes'), 8 * n, r, r');
    LEInjective(bytes, bytes');
  }

  lemma BodyUnique(c: Codes, toks: seq<Token>, toks': seq<Token>, r: nat, r': nat)
    requires CodesLegal(c) && Has(Literals(c), END_OF_BLOCK)
    requires AllCoded(toks, Literals(c), Distances(c)) && AllCoded(toks', Literals(c), Distances(c))
    requires PutBody(c, toks, r) == PutBody(c, toks', r')
    ensures toks == toks' && r == r'
  {
    hide PutTokens, PutSymbol, Fits, FixedLiterals, FixedDistances;
    FixedFits();
    TokensUnique(toks, toks', Literals(c), Distances(c), r, r');
  }

  lemma PayloadUnique(out: seq<byte>, b: Block, b': Block, at: nat, r: nat, r': nat)
    requires BlockLegal(out, b, at) && BlockLegal(out, b', at) && Type(b) == Type(b')
    requires PutPayload(out, b, at, r) == PutPayload(out, b', at, r')
    ensures b == b' && r == r'
  {
    hide PutStored, PutBody, PutDynamic, DynamicLegal, AllCoded, Legal, Literals, Distances, Padding, Pow2;
    if b.Stored? {
      StoredUnique(b.pad, b'.pad, b.bytes, b'.bytes, at, r, r');
    } else {
      if b.codes.Own? {
        DynamicUnique(b.codes.d, b'.codes.d, PutBody(b.codes, b.toks, r), PutBody(b'.codes, b'.toks, r'));
      }
      BodyUnique(b.codes, b.toks, b'.toks, r, r');
    }
  }

  lemma BlockUnique(out: seq<byte>, b: Block, b': Block, last: bool, last': bool, at: nat, r: nat, r': nat)
    requires BlockLegal(out, b, at + 3) && BlockLegal(out, b', at + 3)
    requires PutBlock(out, b, last, at, r) == PutBlock(out, b', last', at, r')
    ensures b == b' && last == last' && r == r'
  {
    hide BlockLegal, PutPayload, Put;
    Pow2Values();
    var p, p' := PutPayload(out, b, at + 3, r), PutPayload(out, b', at + 3, r');
    PutUnique(if last then 1 else 0, if last' then 1 else 0, 1, Put(Type(b), 2, p), Put(Type(b'), 2, p'));
    PutUnique(Type(b), Type(b'), 2, p, p');
    PayloadUnique(out, b, b', at + 3, r, r');
  }

  lemma {:induction false} BlocksUnique(out: seq<byte>, a: seq<Block>, b: seq<Block>, at: nat, r: nat, r': nat)
    requires a != [] && b != [] && BlocksLegal(out, a, at) && BlocksLegal(out, b, at)
    requires PutBlocks(out, a, at, true, r) == PutBlocks(out, b, at, true, r')
    ensures a == b && r == r'
    decreases |a|
  {
    hide BlockLegal, BlockBytes, PutBlock, After;
    var o, e := BlockBytes(out, a[0], at + 3), After(out, a[0], at);
    var o', e' := BlockBytes(out, b[0], at + 3), After(out, b[0], at);
    var p, p' := PutBlocks(o, a[1..], e, true, r), PutBlocks(o', b[1..], e', true, r');
    BlockUnique(out, a[0], b[0], |a| == 1, |b| == 1, at, p, p');
    if |a| > 1 {
      BlocksUnique(o, a[1..], b[1..], e, r, r');
    }
    assert a == [a[0]] + a[1..] && b == [b[0]] + b[1..];
  }

  // ---------------------------------------------------------------- streams

  lemma EncodesOnce(bytes: seq<byte>, header: bool, a: seq<Block>, b: seq<Block>, r: nat, r': nat)
    requires Encodes(bytes, header, a, r) && Encodes(bytes, header, b, r')
    ensures a == b && r == r'
  {
    hide BlocksLegal, PutBlocks, LE, HeaderOk;
    BlocksUnique([], a, b, if header then 16 else 0, r, r');
  }

  /** Bytes decompress to one thing only. */
  lemma InflatesOnce(bytes: seq<byte>, header: bool, data: seq<byte>, data': seq<byte>)
    requires InflatesTo(bytes, header, data) && InflatesTo(bytes, header, data')
    ensures data == data'
  {
    hide BlocksLegal, BlocksBytes, PutBlocks, LE, HeaderOk;
    var at := if header then 16 else 0;
    var a: seq<Block>, r :| Encodes(bytes, header, a, r) && BlocksBytes([], a, at) == data;
    var b: seq<Block>, r' :| Encodes(bytes, header, b, r') && BlocksBytes([], b, at) == data';
    EncodesOnce(bytes, header, a, b, r, r');
  }

  /** Of bytes that encode certain blocks, what these stand for is accepted if and only if the buffer is fed at each
      of their symbols; nothing else ever is. */
  lemma AcceptedExactly(bytes: seq<byte>, header: bool, bs: seq<Block>, rest: nat, data: seq<byte>)
    requires Encodes(bytes, header, bs, rest)
    ensures var at := if header then 16 else 0;
      Accepted(bytes, header, data) <==>
        FeedBlocks(Start(|bytes|, header), [], bs, at).Feed? && data == BlocksBytes([], bs, at)
  {
    hide BlocksLegal, BlocksBytes, PutBlocks, LE, HeaderOk, FeedBlocks;
    var at := if header then 16 else 0;
    if Accepted(bytes, header, data) {
      var a: seq<Block>, r :| Encodes(bytes, header, a, r) && BlocksBytes([], a, at) == data &&
                              FeedBlocks(Start(|bytes|, header), [], a, at).Feed?;
      EncodesOnce(bytes, header, a, bs, r, rest);
    }
  }
}
