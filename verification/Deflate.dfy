/** The DEFLATE format of RFC 1951: what a stream of bits means, written as the number that encodes it
    (`Put...`) and as the bytes it stands for (`Expand...`). */
module Deflate {
  import opened Basics
  import opened Bits
  import opened Canonical

  // ---------------------------------------------------------------- section 3.2.5: lengths and distances

  // The tables of the source in closed form; module DeflateTables shows that they are the same.

  function LengthExtra(ls: nat): (n: nat)
    requires ls < 29
    ensures n <= 5
  {
    if ls < 8 || ls == 28 then 0 else ls / 4 - 1
  }

  function LengthBase(ls: nat): (n: nat)
    requires ls < 29
    ensures n >= 3
  {
    if ls < 8 then 3 + ls else if ls == 28 then 258 else 3 + Shl(LengthExtra(ls), 4 + ls % 4)
  }

  function DistExtra(ds: nat): (n: nat)
    requires ds < 30
    ensures n <= 13
  {
    if ds < 4 then 0 else ds / 2 - 1
  }

  function DistBase(ds: nat): (n: nat)
    requires ds < 30
    ensures n >= 1
  {
    if ds < 4 then 1 + ds else 1 + Shl(DistExtra(ds), 2 + ds % 2)
  }

  const END_OF_BLOCK: nat := 256

  /** A literal byte, or a copy given by its two symbols and their extra bits. */
  datatype Token = Lit(b: byte) | Copy(ls: nat, le: nat, ds: nat, de: nat) {
    predicate InRange() {
      Copy? ==> ls < 29 && ds < 30 && le < Pow2(LengthExtra(ls)) && de < Pow2(DistExtra(ds))
    }

    function Len(): (n: nat)
      ensures n >= 3
      requires Copy? && ls < 29
    {
      LengthBase(ls) + le
    }

    function Dist(): (n: nat)
      ensures n >= 1
      requires Copy? && ds < 30
    {
      DistBase(ds) + de
    }
  }

  // ---------------------------------------------------------------- what tokens stand for

  /** `len` bytes, each the one `dist` before it; the copy may overlap itself. */
  function CopyRun(out: seq<byte>, len: nat, dist: nat): (r: seq<byte>)
    requires 1 <= dist <= |out|
    ensures |r| == |out| + len && out <= r
  {
    if len == 0 then out
    else var o := CopyRun(out, len - 1, dist); o + [o[|o| - dist]]
  }

  ghost predicate Legal1(out: seq<byte>, t: Token) {
    t.InRange() && (t.Copy? ==> t.Dist() <= |out|)
  }

  function Expand1(out: seq<byte>, t: Token): (r: seq<byte>)
    requires Legal1(out, t)
    ensures out < r
  {
    if t.Lit? then out + [t.b] else CopyRun(out, t.Len(), t.Dist())
  }

  ghost predicate Legal(out: seq<byte>, toks: seq<Token>)
    decreases |toks|
  {
    toks == [] || (Legal1(out, toks[0]) && Legal(Expand1(out, toks[0]), toks[1..]))
  }

  ghost function Expand(out: seq<byte>, toks: seq<Token>): (r: seq<byte>)
    requires Legal(out, toks)
    ensures out <= r
    decreases |toks|
  {
    if toks == [] then out else Expand(Expand1(out, toks[0]), toks[1..])
  }

  lemma {:induction false} ExpandAppend(out: seq<byte>, toks: seq<Token>, t: Token)
    requires Legal(out, toks) && Legal1(Expand(out, toks), t)
    ensures Legal(out, toks + [t]) && Expand(out, toks + [t]) == Expand1(Expand(out, toks), t)
    decreases |toks|
  {
    if toks == [] {
      assert toks + [t] == [t];
      assert Legal(Expand1(out, t), [t][1..]);
    } else {
      assert (toks + [t])[1..] == toks[1..] + [t];
      ExpandAppend(Expand1(out, toks[0]), toks[1..], t);
    }
  }

  // ---------------------------------------------------------------- the bits of tokens

  ghost predicate Has(lens: seq<nat>, s: nat) {
    s < |lens| && lens[s] >= 1
  }

  /** The token's symbols have codes. */
  ghost predicate Coded(t: Token, ll: seq<nat>, dl: seq<nat>) {
    t.InRange() && if t.Lit? then Has(ll, t.b) else Has(ll, 257 + t.ls) && Has(dl, t.ds)
  }

  ghost predicate AllCoded(toks: seq<Token>, ll: seq<nat>, dl: seq<nat>) {
    forall i :: 0 <= i < |toks| ==> Coded(toks[i], ll, dl)
  }

  ghost function PutToken(t: Token, ll: seq<nat>, dl: seq<nat>, rest: nat): nat
    requires Coded(t, ll, dl)
  {
    if t.Lit? then PutSymbol(ll, t.b, rest)
    else PutSymbol(ll, 257 + t.ls, Put(t.le, LengthExtra(t.ls), PutDist(t.ds, t.de, dl, rest)))
  }

  ghost function PutDist(ds: nat, de: nat, dl: seq<nat>, rest: nat): nat
    requires ds < 30 && Has(dl, ds)
  {
    PutSymbol(dl, ds, Put(de, DistExtra(ds), rest))
  }

  ghost function TokenBits(t: Token, ll: seq<nat>, dl: seq<nat>): nat
    requires Coded(t, ll, dl)
  {
    if t.Lit? then ll[t.b] else ll[257 + t.ls] + LengthExtra(t.ls) + dl[t.ds] + DistExtra(t.ds)
  }

  ghost function PutTokens(toks: seq<Token>, ll: seq<nat>, dl: seq<nat>, rest: nat): nat
    requires AllCoded(toks, ll, dl)
  {
    if toks == [] then rest else PutToken(toks[0], ll, dl, PutTokens(toks[1..], ll, dl, rest))
  }

  ghost function TokensBits(toks: seq<Token>, ll: seq<nat>, dl: seq<nat>): nat
    requires AllCoded(toks, ll, dl)
  {
    if toks == [] then 0 else TokenBits(toks[0], ll, dl) + TokensBits(toks[1..], ll, dl)
  }

  lemma {:induction false} PutTokensAppend(toks: seq<Token>, t: Token, ll: seq<nat>, dl: seq<nat>, rest: nat)
    requires AllCoded(toks, ll, dl) && Coded(t, ll, dl)
    ensures AllCoded(toks + [t], ll, dl)
    ensures PutTokens(toks + [t], ll, dl, rest) == PutTokens(toks, ll, dl, PutToken(t, ll, dl, rest))
    ensures TokensBits(toks + [t], ll, dl) == TokensBits(toks, ll, dl) + TokenBits(t, ll, dl)
  {
    if toks == [] {
      assert toks + [t] == [t];
      assert PutTokens([t][1..], ll, dl, rest) == rest;
    } else {
      assert (toks + [t])[1..] == toks[1..] + [t];
      PutTokensAppend(toks[1..], t, ll, dl, rest);
    }
  }

  // ---------------------------------------------------------------- section 3.2.7: dynamic codes

  /** One instruction for code lengths: a length, or a repetition. */
  datatype LenOp = One(len: nat) | Again(n: nat) | FewZeros(n: nat) | ManyZeros(n: nat) {
    predicate InRange() {
      match this
      case One(len) => len < 16
      case Again(n) => 3 <= n < 7
      case FewZeros(n) => 3 <= n < 11
      case ManyZeros(n) => 11 <= n < 139
    }

    function Symbol(): (s: nat)
      requires InRange()
      ensures s < 19
    {
      match this
      case One(len) => len
      case Again(_) => 16
      case FewZeros(_) => 17
      case ManyZeros(_) => 18
    }

    function Size(): nat {
      match this
      case One(_) => 0
      case Again(_) => 2
      case FewZeros(_) => 3
      case ManyZeros(_) => 7
    }

    function Extra(): nat
      requires InRange()
    {
      match this
      case One(_) => 0
      case Again(n) => n - 3
      case FewZeros(n) => n - 3
      case ManyZeros(n) => n - 11
    }
  }

  ghost predicate LenOpLegal(acc: seq<nat>, op: LenOp) {
    op.InRange() && (op.Again? ==> acc != [])
  }

  ghost function LenOp1(acc: seq<nat>, op: LenOp): (r: seq<nat>)
    requires LenOpLegal(acc, op)
    ensures acc < r
  {
    match op
    case One(len) => acc + [len]
    case Again(n) => acc + Repeat(acc[|acc| - 1], n)
    case FewZeros(n) => acc + Repeat(0, n)
    case ManyZeros(n) => acc + Repeat(0, n)
  }

  ghost predicate LenOpsLegal(acc: seq<nat>, ops: seq<LenOp>)
    decreases |ops|
  {
    ops == [] || (LenOpLegal(acc, ops[0]) && LenOpsLegal(LenOp1(acc, ops[0]), ops[1..]))
  }

  ghost function LenOps(acc: seq<nat>, ops: seq<LenOp>): (r: seq<nat>)
    requires LenOpsLegal(acc, ops)
    ensures acc <= r
    decreases |ops|
  {
    if ops == [] then acc else LenOps(LenOp1(acc, ops[0]), ops[1..])
  }

  lemma {:induction false} LenOpsAppend(acc: seq<nat>, ops: seq<LenOp>, op: LenOp)
    requires LenOpsLegal(acc, ops) && LenOpLegal(LenOps(acc, ops), op)
    ensures LenOpsLegal(acc, ops + [op]) && LenOps(acc, ops + [op]) == LenOp1(LenOps(acc, ops), op)
    decreases |ops|
  {
    if ops == [] {
      assert ops + [op] == [op];
      assert LenOpsLegal(LenOp1(acc, op), [op][1..]);
    } else {
      assert (ops + [op])[1..] == ops[1..] + [op];
      LenOpsAppend(LenOp1(acc, ops[0]), ops[1..], op);
    }
  }

  ghost predicate OpCoded(op: LenOp, cl: seq<nat>) {
    op.InRange() && Has(cl, op.Symbol())
  }

  ghost predicate OpsCoded(ops: seq<LenOp>, cl: seq<nat>) {
    forall i :: 0 <= i < |ops| ==> OpCoded(ops[i], cl)
  }

  ghost function PutOp(op: LenOp, cl: seq<nat>, rest: nat): nat
    requires OpCoded(op, cl)
  {
    PutSymbol(cl, op.Symbol(), Put(op.Extra(), op.Size(), rest))
  }

  ghost function PutOps(ops: seq<LenOp>, cl: seq<nat>, rest: nat): nat
    requires OpsCoded(ops, cl)
  {
    if ops == [] then rest else PutOp(ops[0], cl, PutOps(ops[1..], cl, rest))
  }

  ghost function OpsBits(ops: seq<LenOp>, cl: seq<nat>): nat
    requires OpsCoded(ops, cl)
  {
    if ops == [] then 0 else cl[ops[0].Symbol()] + ops[0].Size() + OpsBits(ops[1..], cl)
  }

  lemma {:induction false} PutOpsAppend(ops: seq<LenOp>, op: LenOp, cl: seq<nat>, rest: nat)
    requires OpsCoded(ops, cl) && OpCoded(op, cl)
    ensures OpsCoded(ops + [op], cl)
    ensures PutOps(ops + [op], cl, rest) == PutOps(ops, cl, PutOp(op, cl, rest))
    ensures OpsBits(ops + [op], cl) == OpsBits(ops, cl) + cl[op.Symbol()] + op.Size()
  {
    if ops == [] {
      assert ops + [op] == [op];
      assert PutOps([op][1..], cl, rest) == rest;
    } else {
      assert (ops + [op])[1..] == ops[1..] + [op];
      PutOpsAppend(ops[1..], op, cl, rest);
    }
  }

  /** The code-length symbol whose length comes at place `i` of the header. */
  function ClOrder(i: nat): (s: nat)
    requires i < 19
    ensures s < 19
  {
    if i < 3 then 16 + i else if i == 3 then 0 else if i % 2 == 0 then i / 2 + 6 else (19 - i) / 2
  }

  /** The place of code-length symbol `s`. */
  function ClPlace(s: nat): (i: nat)
    requires s < 19
    ensures i < 19 && ClOrder(i) == s
  {
    if s == 0 then 3 else if s < 8 then 19 - 2 * s else if s < 16 then 2 * s - 12 else s - 16
  }

  /** The code-length code: symbols past the end of the list have no code. */
  function ClLens(sizes: seq<nat>): (cl: seq<nat>)
    ensures |cl| == 19
  {
    seq(19, s requires 0 <= s < 19 => if ClPlace(s) < |sizes| then sizes[ClPlace(s)] else 0)
  }

  ghost function PutSizes(sizes: seq<nat>, rest: nat): nat {
    if sizes == [] then rest else Put(sizes[0], 3, PutSizes(sizes[1..], rest))
  }

  lemma {:induction false} PutSizesAppend(sizes: seq<nat>, s: nat, rest: nat)
    ensures PutSizes(sizes + [s], rest) == PutSizes(sizes, Put(s, 3, rest))
  {
    if sizes == [] {
      assert sizes + [s] == [s];
      assert PutSizes([s][1..], rest) == rest;
    } else {
      assert (sizes + [s])[1..] == sizes[1..] + [s];
      PutSizesAppend(sizes[1..], s, rest);
    }
  }

  /** A dynamic header: how many lengths of each kind, the code-length code, and the lengths. */
  datatype Dynamic = Dynamic(hlit: nat, hdist: nat, sizes: seq<nat>, ops: seq<LenOp>)

  ghost predicate DynamicLegal(d: Dynamic) {
    && 257 <= d.hlit <= 288 && 1 <= d.hdist <= 32 && 4 <= |d.sizes| <= 19
    && (forall i :: 0 <= i < |d.sizes| ==> d.sizes[i] < 8)
    && Fits(ClLens(d.sizes)) && OpsCoded(d.ops, ClLens(d.sizes))
    && LenOpsLegal([], d.ops) && |LenOps([], d.ops)| == d.hlit + d.hdist
    && Fits(LitLens(d)) && Fits(DistLens(d))
  }

  ghost function LitLens(d: Dynamic): seq<nat>
    requires LenOpsLegal([], d.ops) && |LenOps([], d.ops)| == d.hlit + d.hdist
  {
    LenOps([], d.ops)[..d.hlit]
  }

  ghost function DistLens(d: Dynamic): seq<nat>
    requires LenOpsLegal([], d.ops) && |LenOps([], d.ops)| == d.hlit + d.hdist
  {
    LenOps([], d.ops)[d.hlit..]
  }

  ghost function PutDynamic(d: Dynamic, rest: nat): nat
    requires DynamicLegal(d)
  {
    Put(d.hlit - 257, 5, Put(d.hdist - 1, 5, Put(|d.sizes| - 4, 4,
      PutSizes(d.sizes, PutOps(d.ops, ClLens(d.sizes), rest)))))
  }

  ghost function DynamicBits(d: Dynamic): nat
    requires DynamicLegal(d)
  {
    14 + 3 * |d.sizes| + OpsBits(d.ops, ClLens(d.sizes))
  }

  // ---------------------------------------------------------------- section 3.2.6: fixed codes

  function FixedLength(s: nat): nat {
    if s < 144 then 8 else if s < 256 then 9 else if s < 280 then 7 else 8
  }

  function FixedLiterals(): (lens: seq<nat>)
    ensures |lens| == 288 && forall s :: 0 <= s < 288 ==> lens[s] == FixedLength(s)
  {
    seq(288, s requires 0 <= s < 288 => FixedLength(s))
  }

  function FixedDistances(): (lens: seq<nat>)
    ensures |lens| == 32 && forall s :: 0 <= s < 32 ==> lens[s] == 5
  {
    seq(32, _ => 5)
  }

  // ---------------------------------------------------------------- section 3.2.3: blocks

  datatype Codes = Fixed | Own(d: Dynamic)

  ghost predicate CodesLegal(c: Codes) {
    c.Own? ==> DynamicLegal(c.d)
  }

  ghost function Literals(c: Codes): seq<nat>
    requires CodesLegal(c)
  {
    if c.Fixed? then FixedLiterals() else LitLens(c.d)
  }

  ghost function Distances(c: Codes): seq<nat>
    requires CodesLegal(c)
  {
    if c.Fixed? then FixedDistances() else DistLens(c.d)
  }

  /** A stored block has padding up to a byte boundary, whatever it holds. */
  datatype Block = Stored(pad: nat, bytes: seq<byte>) | Compressed(codes: Codes, toks: seq<Token>)

  /** How many bits are missing to a byte boundary, `at` bits into the stream. */
  function Padding(at: nat): (n: nat)
    ensures n < 8 && (at + n) % 8 == 0
  {
    (8 - at % 8) % 8
  }

  /** `at` is where the payload starts. */
  ghost predicate BlockLegal(out: seq<byte>, b: Block, at: nat) {
    match b
    case Stored(pad, bytes) => pad < Pow2(Padding(at)) && |bytes| < 65536
    case Compressed(codes, toks) =>
      && CodesLegal(codes)
      && AllCoded(toks, Literals(codes), Distances(codes))
      && Has(Literals(codes), END_OF_BLOCK)
      && Legal(out, toks)
  }

  ghost function BlockBytes(out: seq<byte>, b: Block, at: nat): (r: seq<byte>)
    requires BlockLegal(out, b, at)
    ensures out <= r
  {
    match b
    case Stored(_, bytes) => out + bytes
    case Compressed(_, toks) => Expand(out, toks)
  }

  ghost function PutStored(pad: nat, bytes: seq<byte>, at: nat, rest: nat): nat
    requires |bytes| < 65536
  {
    Put(pad, Padding(at), Put(|bytes|, 16, Put(65535 - |bytes|, 16, Put(LE(bytes), 8 * |bytes|, rest))))
  }

  /** BTYPE */
  function Type(b: Block): (t: nat)
    ensures t < 3
  {
    if b.Stored? then 0 else if b.codes.Fixed? then 1 else 2
  }

  /** What follows the three header bits; `at` is where it starts. */
  ghost function PutPayload(out: seq<byte>, b: Block, at: nat, rest: nat): nat
    requires BlockLegal(out, b, at)
  {
    if b.Stored? then PutStored(b.pad, b.bytes, at, rest)
    else if b.codes.Fixed? then PutBody(b.codes, b.toks, rest)
    else PutDynamic(b.codes.d, PutBody(b.codes, b.toks, rest))
  }

  ghost function PutBlock(out: seq<byte>, b: Block, last: bool, at: nat, rest: nat): nat
    requires BlockLegal(out, b, at + 3)
  {
    Put(if last then 1 else 0, 1, Put(Type(b), 2, PutPayload(out, b, at + 3, rest)))
  }

  ghost function PutBody(codes: Codes, toks: seq<Token>, rest: nat): nat
    requires CodesLegal(codes) && AllCoded(toks, Literals(codes), Distances(codes))
    requires Has(Literals(codes), END_OF_BLOCK)
  {
    PutTokens(toks, Literals(codes), Distances(codes), PutSymbol(Literals(codes), END_OF_BLOCK, rest))
  }

  ghost function BodyBits(codes: Codes, toks: seq<Token>): nat
    requires CodesLegal(codes) && AllCoded(toks, Literals(codes), Distances(codes))
    requires Has(Literals(codes), END_OF_BLOCK)
  {
    TokensBits(toks, Literals(codes), Distances(codes)) + Literals(codes)[END_OF_BLOCK]
  }

  ghost function PayloadBits(out: seq<byte>, b: Block, at: nat): nat
    requires BlockLegal(out, b, at)
  {
    match b
    case Stored(_, bytes) => Padding(at) + 32 + 8 * |bytes|
    case Compressed(codes, toks) =>
      (if codes.Own? then DynamicBits(codes.d) else 0) + BodyBits(codes, toks)
  }

  // ---------------------------------------------------------------- blocks one after the other

  /** Where block `b` ends. */
  ghost function After(out: seq<byte>, b: Block, at: nat): nat
    requires BlockLegal(out, b, at + 3)
  {
    at + 3 + PayloadBits(out, b, at + 3)
  }

  ghost predicate BlocksLegal(out: seq<byte>, bs: seq<Block>, at: nat)
    decreases |bs|
  {
    bs == [] ||
      (BlockLegal(out, bs[0], at + 3) &&
       BlocksLegal(BlockBytes(out, bs[0], at + 3), bs[1..], After(out, bs[0], at)))
  }

  ghost function BlocksBytes(out: seq<byte>, bs: seq<Block>, at: nat): (r: seq<byte>)
    requires BlocksLegal(out, bs, at)
    ensures out <= r
    decreases |bs|
  {
    if bs == [] then out
    else BlocksBytes(BlockBytes(out, bs[0], at + 3), bs[1..], After(out, bs[0], at))
  }

  /** Where the blocks end. */
  ghost function BlocksEnd(out: seq<byte>, bs: seq<Block>, at: nat): (e: nat)
    requires BlocksLegal(out, bs, at)
    ensures e >= at
    decreases |bs|
  {
    if bs == [] then at
    else BlocksEnd(BlockBytes(out, bs[0], at + 3), bs[1..], After(out, bs[0], at))
  }

  /** The blocks' bits and then `rest`; when `closed`, the last block is marked as the final one. */
  ghost function PutBlocks(out: seq<byte>, bs: seq<Block>, at: nat, closed: bool, rest: nat): nat
    requires BlocksLegal(out, bs, at)
    decreases |bs|
  {
    if bs == [] then rest
    else
      PutBlock(out, bs[0], closed && |bs| == 1, at,
        PutBlocks(BlockBytes(out, bs[0], at + 3), bs[1..], After(out, bs[0], at), closed, rest))
  }

  lemma {:induction false} BlocksAppend(out: seq<byte>, bs: seq<Block>, at: nat, b: Block, o: seq<byte>, e: nat)
    requires BlocksLegal(out, bs, at) && o == BlocksBytes(out, bs, at) && e == BlocksEnd(out, bs, at)
    requires BlockLegal(o, b, e + 3)
    ensures BlocksLegal(out, bs + [b], at)
    ensures BlocksBytes(out, bs + [b], at) == BlockBytes(o, b, e + 3)
    ensures BlocksEnd(out, bs + [b], at) == After(o, b, e)
    decreases |bs|
  {
    hide BlockLegal, BlockBytes, After;
    if bs == [] {
      assert bs + [b] == [b] && [b][1..] == [];
      assert BlocksLegal(BlockBytes(out, b, at + 3), [b][1..], After(out, b, at));
    } else {
      assert (bs + [b])[1..] == bs[1..] + [b];
      BlocksAppend(BlockBytes(out, bs[0], at + 3), bs[1..], After(out, bs[0], at), b, o, e);
    }
  }

  lemma {:induction false} PutBlocksAppend(out: seq<byte>, bs: seq<Block>, at: nat, b: Block, closed: bool, rest: nat,
                                           o: seq<byte>, e: nat)
    requires BlocksLegal(out, bs, at) && o == BlocksBytes(out, bs, at) && e == BlocksEnd(out, bs, at)
    requires BlockLegal(o, b, e + 3) && BlocksLegal(out, bs + [b], at)
    ensures PutBlocks(out, bs + [b], at, closed, rest) == PutBlocks(out, bs, at, false, PutBlock(o, b, closed, e, rest))
    decreases |bs|
  {
    hide BlockLegal, BlockBytes, After, PutBlock;
    if bs == [] {
      assert bs + [b] == [b] && [b][1..] == [];
      assert PutBlocks(BlockBytes(out, b, at + 3), [b][1..], After(out, b, at), closed, rest) == rest;
    } else {
      assert (bs + [b])[1..] == bs[1..] + [b];
      PutBlocksAppend(BlockBytes(out, bs[0], at + 3), bs[1..], After(out, bs[0], at), b, closed, rest, o, e);
    }
  }

  // ---------------------------------------------------------------- zlib (RFC 1950)

  /** CMF and FLG: deflate, no preset dictionary, and the check bits. */
  predicate HeaderOk(cmf: byte, flg: byte) {
    (cmf as int * 256 + flg) % 31 == 0 && flg / 32 % 2 == 0 && cmf % 16 == 8
  }

  /** `bytes` hold a stream whose blocks are `bs`: after the two header bytes, if there are any, the bits
      are those of the blocks, the last one marked.  Bits past the end of `bytes` are zeros. */
  ghost predicate Encodes(bytes: seq<byte>, header: bool, bs: seq<Block>, rest: nat) {
    var skip := if header then 2 else 0;
    && |bytes| >= skip && (header ==> |bytes| > 2 && HeaderOk(bytes[0], bytes[1]))
    && bs != [] && BlocksLegal([], bs, 8 * skip)
    && LE(bytes[skip..]) == PutBlocks([], bs, 8 * skip, true, rest)
  }

  /** `bytes` decompress to `data`. */
  ghost predicate InflatesTo(bytes: seq<byte>, header: bool, data: seq<byte>) {
    exists bs, rest :: Encodes(bytes, header, bs, rest) && BlocksBytes([], bs, if header then 16 else 0) == data
  }

  /** The same, and the blocks end near the end of `bytes` if they go past it: a last block of stored bytes ends
      inside. */
  ghost predicate InflatesNear(bytes: seq<byte>, header: bool, data: seq<byte>) {
    exists bs, rest ::
      && Encodes(bytes, header, bs, rest) && BlocksBytes([], bs, if header then 16 else 0) == data
      && EndsNear(bs[|bs| - 1], BlocksEnd([], bs, if header then 16 else 0), |bytes|)
  }

  /** More bits than the header of a block and the end of one take together. */
  const SLACK: nat := 4571

  ghost predicate EndsNear(last: Block, end: nat, n: nat) {
    if last.Stored? && last.bytes != [] then end <= 8 * n else end < 8 * n + SLACK
  }

  /** The same, and the blocks leave at least two bytes behind them. */
  ghost predicate InflatesWithRoom(bytes: seq<byte>, header: bool, data: seq<byte>) {
    exists bs, rest ::
      && Encodes(bytes, header, bs, rest) && BlocksBytes([], bs, if header then 16 else 0) == data
      && BlocksEnd([], bs, if header then 16 else 0) + 16 <= 8 * |bytes|
  }

  // ---------------------------------------------------------------- blocks take up bits

  lemma PutGrows(code: nat, n: nat, rest: nat)
    ensures Put(code, n, rest) >= Shl(n, rest) >= rest && Put(code, n, rest) >= code
    ensures n > 0 && rest > 0 ==> Put(code, n, rest) > rest
  {
    ShlGrows(n, rest);
    if n > 0 { ShlGrows(n - 1, rest); }
  }

  /** A field in front of something that has `rest` behind `n` bits. */
  lemma PutOver(code: nat, m: nat, v: nat, n: nat, rest: nat)
    requires v >= Shl(n, rest)
    ensures Put(code, m, v) >= Shl(m + n, rest)
  {
    ShlMono(m, Shl(n, rest), v);
    ShlAdd(m, n, rest);
  }

  lemma SymbolOver(lens: seq<nat>, s: nat, v: nat, n: nat, rest: nat)
    requires Has(lens, s) && v >= Shl(n, rest)
    ensures PutSymbol(lens, s, v) >= Shl(lens[s] + n, rest)
  {
    PutOver(Rev(Code(lens, s), lens[s]), lens[s], v, n, rest);
  }

  lemma TokenOver(t: Token, ll: seq<nat>, dl: seq<nat>, v: nat, n: nat, rest: nat)
    requires Coded(t, ll, dl) && v >= Shl(n, rest)
    ensures PutToken(t, ll, dl, v) >= Shl(TokenBits(t, ll, dl) + n, rest)
  {
    hide PutSymbol, Put, Shl, LengthExtra, DistExtra;
    if t.Lit? {
      SymbolOver(ll, t.b, v, n, rest);
    } else {
      var e, l := DistExtra(t.ds), LengthExtra(t.ls);
      PutOver(t.de, e, v, n, rest);
      SymbolOver(dl, t.ds, Put(t.de, e, v), e + n, rest);
      PutOver(t.le, l, PutDist(t.ds, t.de, dl, v), dl[t.ds] + (e + n), rest);
      SymbolOver(ll, 257 + t.ls, Put(t.le, l, PutDist(t.ds, t.de, dl, v)), l + (dl[t.ds] + (e + n)), rest);
    }
  }

  lemma {:induction false} TokensOver(toks: seq<Token>, ll: seq<nat>, dl: seq<nat>, v: nat, n: nat, rest: nat)
    requires AllCoded(toks, ll, dl) && v >= Shl(n, rest)
    ensures PutTokens(toks, ll, dl, v) >= Shl(TokensBits(toks, ll, dl) + n, rest)
  {
    hide PutToken, TokenBits, Coded, Shl;
    if toks != [] {
      TokensOver(toks[1..], ll, dl, v, n, rest);
      TokenOver(toks[0], ll, dl, PutTokens(toks[1..], ll, dl, v), TokensBits(toks[1..], ll, dl) + n, rest);
    }
  }

  lemma {:induction false} SizesOver(sizes: seq<nat>, v: nat, n: nat, rest: nat)
    requires v >= Shl(n, rest)
    ensures PutSizes(sizes, v) >= Shl(3 * |sizes| + n, rest)
  {
    hide Put, Shl;
    if sizes != [] {
      SizesOver(sizes[1..], v, n, rest);
      PutOver(sizes[0], 3, PutSizes(sizes[1..], v), 3 * |sizes[1..]| + n, rest);
    }
  }

  lemma {:induction false} OpsOver(ops: seq<LenOp>, cl: seq<nat>, v: nat, n: nat, rest: nat)
    requires OpsCoded(ops, cl) && v >= Shl(n, rest)
    ensures PutOps(ops, cl, v) >= Shl(OpsBits(ops, cl) + n, rest)
  {
    hide Put, PutSymbol, Shl;
    if ops != [] {
      var op := ops[0];
      var r, m := PutOps(ops[1..], cl, v), OpsBits(ops[1..], cl) + n;
      OpsOver(ops[1..], cl, v, n, rest);
      PutOver(op.Extra(), op.Size(), r, m, rest);
      SymbolOver(cl, op.Symbol(), Put(op.Extra(), op.Size(), r), op.Size() + m, rest);
    }
  }

  lemma DynamicOver(d: Dynamic, v: nat, n: nat, rest: nat)
    requires DynamicLegal(d) && v >= Shl(n, rest)
    ensures PutDynamic(d, v) >= Shl(DynamicBits(d) + n, rest)
  {
    hide Put, PutSizes, PutOps, OpsBits, Shl, ClLens;
    var cl := ClLens(d.sizes);
    var k := OpsBits(d.ops, cl) + n;
    OpsOver(d.ops, cl, v, n, rest);
    SizesOver(d.sizes, PutOps(d.ops, cl, v), k, rest);
    var s := PutSizes(d.sizes, PutOps(d.ops, cl, v));
    var m := 3 * |d.sizes| + k;
    PutOver(|d.sizes| - 4, 4, s, m, rest);
    PutOver(d.hdist - 1, 5, Put(|d.sizes| - 4, 4, s), 4 + m, rest);
    PutOver(d.hlit - 257, 5, Put(d.hdist - 1, 5, Put(|d.sizes| - 4, 4, s)), 9 + m, rest);
  }

  lemma BodyOver(c: Codes, toks: seq<Token>, rest: nat)
    requires CodesLegal(c) && AllCoded(toks, Literals(c), Distances(c)) && Has(Literals(c), END_OF_BLOCK)
    ensures PutBody(c, toks, rest) >= Shl(BodyBits(c, toks), rest)
  {
    hide PutTokens, TokensBits, PutSymbol, Shl;
    var ll := Literals(c);
    NoShift(rest);
    SymbolOver(ll, END_OF_BLOCK, rest, 0, rest);
    TokensOver(toks, ll, Distances(c), PutSymbol(ll, END_OF_BLOCK, rest), ll[END_OF_BLOCK], rest);
  }

  lemma NoShift(v: nat)
    ensures Shl(0, v) == v
  {
  }

  lemma StoredOver(pad: nat, bytes: seq<byte>, at: nat, rest: nat)
    requires |bytes| < 65536
    ensures PutStored(pad, bytes, at, rest) >= Shl(Padding(at) + 32 + 8 * |bytes|, rest)
    ensures PutStored(pad, bytes, at, rest) > 0
  {
    hide Put, Shl, LE, Padding;
    var n := 8 * |bytes|;
    var a := Put(LE(bytes), n, rest);
    var b := Put(65535 - |bytes|, 16, a);
    PutGrows(LE(bytes), n, rest);
    PutOver(65535 - |bytes|, 16, a, n, rest);
    PutOver(|bytes|, 16, b, 16 + n, rest);
    PutOver(pad, Padding(at), Put(|bytes|, 16, b), 32 + n, rest);
    PutGrows(65535 - |bytes|, 16, a);
    PutGrows(|bytes|, 16, b);
    PutGrows(pad, Padding(at), Put(|bytes|, 16, b));
  }

  lemma PayloadOver(out: seq<byte>, b: Block, at: nat, rest: nat)
    requires BlockLegal(out, b, at)
    ensures PutPayload(out, b, at, rest) >= Shl(PayloadBits(out, b, at), rest)
    ensures PutPayload(out, b, at, rest) > 0 || Type(b) > 0
  {
    hide PutStored, PutBody, PutDynamic, BodyBits, DynamicBits, Padding, Shl;
    if b.Stored? {
      StoredOver(b.pad, b.bytes, at, rest);
    } else {
      BodyOver(b.codes, b.toks, rest);
      if b.codes.Own? {
        DynamicOver(b.codes.d, PutBody(b.codes, b.toks, rest), BodyBits(b.codes, b.toks), rest);
      }
    }
  }

  /** A block takes up bits, some of them ones: the stream gets smaller with every block. */
  lemma BlockGrows(out: seq<byte>, b: Block, last: bool, at: nat, rest: nat)
    requires BlockLegal(out, b, at + 3)
    ensures PutBlock(out, b, last, at, rest) > rest
    ensures PutBlock(out, b, last, at, rest) >= Shl(After(out, b, at) - at, rest)
  {
    hide BlockLegal, PutPayload, PayloadBits, Shl, Type, Put;
    var p, n := PutPayload(out, b, at + 3, rest), PayloadBits(out, b, at + 3);
    PayloadOver(out, b, at + 3, rest);
    var q := Put(Type(b), 2, p);
    PutOver(Type(b), 2, p, n, rest);
    PutOver(if last then 1 else 0, 1, q, 2 + n, rest);
    PutGrows(Type(b), 2, p);
    PutGrows(if last then 1 else 0, 1, q);
    ShlGrows(n, rest);
  }
}
