/** `stbi_zlib_compress`: LZ77 over hash chains in one fixed-code block, or stored blocks when that is
    shorter, and the Adler-32 trailer. */
module ZlibCompress {
  import opened Bits
  import opened Canonical
  import opened Deflate
  import opened MatchFinder
  import opened BitWriter
  import opened Adler

  // ---------------------------------------------------------------- one block in the fixed codes

  /** The bits `v`, `n` of them, are a final block's header and the codes of `toks`. */
  ghost predicate Spells(v: nat, n: nat, toks: seq<Token>) {
    && AllCoded(toks, FixedLiterals(), FixedDistances())
    && n == 3 + TokensBits(toks, FixedLiterals(), FixedDistances())
    && forall rest: nat :: Put(v, n, rest) == PutFixed(toks, rest)
  }

  ghost function PutFixed(toks: seq<Token>, rest: nat): nat
    requires AllCoded(toks, FixedLiterals(), FixedDistances())
  {
    Put(1, 1, Put(1, 2, PutTokens(toks, FixedLiterals(), FixedDistances(), rest)))
  }

  lemma SpellsMore(v: nat, n: nat, toks: seq<Token>, t: Token, v': nat, n': nat)
    requires Spells(v, n, toks) && Coded(t, FixedLiterals(), FixedDistances())
    requires n' == n + TokenBits(t, FixedLiterals(), FixedDistances())
    requires forall rest: nat ::
      Put(v', n', rest) == Put(v, n, PutToken(t, FixedLiterals(), FixedDistances(), rest))
    ensures Spells(v', n', toks + [t])
  {
    hide Put, PutToken, PutTokens, TokensBits, TokenBits, FixedLiterals, FixedDistances;
    PutTokensAppend(toks, t, FixedLiterals(), FixedDistances(), 0);
    forall rest: nat ensures Put(v', n', rest) == PutFixed(toks + [t], rest) {
      PutTokensAppend(toks, t, FixedLiterals(), FixedDistances(), rest);
    }
  }

  /** The header bits alone. */
  method EmitHeader(w: Packer)
    requires w.Valid() && w.Size() == 0 && w.Value() == 0
    modifies w
    ensures w.Valid() && old(w.out) <= w.out && Spells(w.Value(), w.Size(), [])
  {
    Pow2Values();
    w.Add(1, 1);
    PutAppended(0, 0, 1, 1);
    ghost var v := w.Value();
    w.Add(1, 2);
    PutAppended(v, 1, 1, 2);
  }

  /** A literal byte. */
  method EmitLiteral(w: Packer, b: byte, ghost toks: seq<Token>)
    requires w.Valid() && Spells(w.Value(), w.Size(), toks)
    modifies w
    ensures w.Valid() && old(w.out) <= w.out && Spells(w.Value(), w.Size(), toks + [Lit(b)])
  {
    hide Put, Spells;
    w.Huff(b);
    SpellsMore(old(w.Value()), old(w.Size()), toks, Lit(b), w.Value(), w.Size());
  }

  /** A length: symbol and extra bits. */
  method EmitLength(w: Packer, best: nat) returns (ghost ls: nat, ghost le: nat)
    requires w.Valid() && 3 <= best <= MAX_MATCH
    modifies w
    ensures w.Valid() && old(w.out) <= w.out
    ensures ls < 29 && le < Pow2(LengthExtra(ls)) && LengthBase(ls) + le == best
    ensures LengthC(ls) <= best < LengthC(ls + 1)
    ensures w.Size() == old(w.Size()) + FixedLength(257 + ls) + LengthExtra(ls)
    ensures forall rest: nat ::
      Put(w.Value(), w.Size(), rest) ==
      old(Put(w.Value(), w.Size(), PutSymbol(FixedLiterals(), 257 + ls, Put(le, LengthExtra(ls), rest))))
  {
    hide Put, LengthBase, LengthExtra, LengthC, FixedLiterals, Packer.Value, Packer.Size, PutSymbol;
    var j := ChooseLength(best);
    ls, le := j, best - LengthBase(j);
    w.Huff(j + 257);
    w.AddExtra(best - LengthBase(j), LengthExtra(j));
  }

  /** A distance: symbol and extra bits. */
  method EmitDist(w: Packer, d: nat) returns (ghost ds: nat, ghost de: nat)
    requires w.Valid() && 1 <= d < WINDOW
    modifies w
    ensures w.Valid() && old(w.out) <= w.out
    ensures ds < 30 && de < Pow2(DistExtra(ds)) && DistBase(ds) + de == d
    ensures w.Size() == old(w.Size()) + 5 + DistExtra(ds)
    ensures forall rest: nat ::
      Put(w.Value(), w.Size(), rest) ==
      old(Put(w.Value(), w.Size(), PutDist(ds, de, FixedDistances(), rest)))
  {
    hide Put, DistBase, DistExtra, FixedDistances, Packer.Value, Packer.Size, PutSymbol;
    var j := ChooseDist(d);
    ds, de := j, d - DistBase(j);
    w.HuffDist(j);
    w.AddExtra(d - DistBase(j), DistExtra(j));
  }

  /** A match of `best` bytes, `d` back. */
  method EmitMatch(w: Packer, best: nat, d: nat, ghost toks: seq<Token>) returns (ghost t: Token)
    requires w.Valid() && Spells(w.Value(), w.Size(), toks)
    requires 3 <= best <= MAX_MATCH && 1 <= d < WINDOW
    modifies w
    ensures w.Valid() && old(w.out) <= w.out && Spells(w.Value(), w.Size(), toks + [t])
    ensures t.Copy? && t.InRange() && t.Len() == best && t.Dist() == d && Takes(t, Move(best, d))
  {
    hide Put, Spells, LengthBase, DistBase, LengthExtra, DistExtra, LengthC, FixedLiterals, FixedDistances, PutDist;
    var ls, le := EmitLength(w, best);
    var ds, de := EmitDist(w, d);
    t := Copy(ls, le, ds, de);
    SpellsMore(old(w.Value()), old(w.Size()), toks, t, w.Value(), w.Size());
  }

  // ---------------------------------------------------------------- the main loop

  /** All chains hold increasing positions below `i`. */
  ghost predicate Chains(hash_table: array<seq<nat>>, i: nat, quality: nat)
    reads hash_table
  {
    AllChains(hash_table[..], i, quality)
  }

  /** The tokens so far give the first `i` bytes. */
  ghost predicate Covers(toks: seq<Token>, data: seq<byte>, i: nat) {
    i <= |data| && Legal([], toks) && Expand([], toks) == data[..i]
  }

  lemma CoversLiteral(toks: seq<Token>, data: seq<byte>, i: nat)
    requires i < |data| && Covers(toks, data, i)
    ensures Covers(toks + [Lit(data[i])], data, i + 1)
  {
    ExpandAppend([], toks, Lit(data[i]));
  }

  lemma CoversMatch(toks: seq<Token>, data: seq<byte>, i: nat, t: Token)
    requires Covers(toks, data, i) && t.Copy? && t.InRange() && t.Dist() <= i && i + t.Len() <= |data|
    requires t.Len() == MatchLen(data, i - t.Dist(), i, 0)
    ensures Covers(toks + [t], data, i + t.Len())
  {
    hide CopyRun, MatchLen, LengthBase, DistBase, LengthExtra, DistExtra, Pow2, Expand;
    MatchLenAgrees(data, i - t.Dist(), i, 0);
    CopyIsData(data, i, t.Dist(), t.Len());
    ExpandAppend([], toks, t);
  }

  /** What to do at position `i`, which joins its chain. */
  method FindMatch(data: seq<byte>, i: nat, quality: nat, hash_table: array<seq<nat>>) returns (best: nat, bestloc: int)
    requires i + 3 < |data| && quality >= 1 && Chains(hash_table, i, quality)
    modifies hash_table
    ensures Chains(hash_table, i + 1, quality)
    ensures hash_table[..] == Entered(data, i, quality, old(hash_table[..]))
    ensures 3 <= best <= MAX_MATCH
    ensures bestloc >= 0 ==> bestloc < i && i - bestloc < WINDOW && best == MatchLen(data, bestloc, i, 0)
    ensures MoveAt(data, i, quality, old(hash_table[..])) == if bestloc >= 0 then Move(best, i - bestloc) else LITERAL
  {
    hide Bucket, Longest, Better, Enter, MatchLen, Chain, AllChains, Best;
    ghost var was := hash_table[..];
    ghost var hlist := ChainAt(data, i, i, quality, was);
    ChainOpen(hlist, i, quality);
    var h := Bucket(data, i);
    best, bestloc := LongestMatch(data, hash_table[h], i);
    BestIsLongest(data, hlist, i);
    LongestIsReal(data, hlist, i, best, bestloc);
    hash_table[h] := Enter(hash_table[h], i, quality);
    assert hash_table[..] == Entered(data, i, quality, was);
    ghost var next := ChainAt(data, i + 1, i + 1, quality, hash_table[..]);
    ChainOpen(next, i + 1, quality);
    if bestloc >= 0 {
      var better := BetterNext(data, hash_table[Bucket(data, i + 1)], i, best);
      if better {
        bestloc := -1;
      }
    }
  }

  lemma ChainOpen(c: seq<nat>, i: nat, quality: nat)
    requires Chain(c, i, quality)
    ensures forall j :: 0 <= j < |c| ==> c[j] < i
    ensures forall j, k :: 0 <= j < k < |c| ==> c[j] < c[k]
  {
  }

  /** The compressed block, padded to a byte boundary. */
  method CompressFixed(w: Packer, data: seq<byte>, quality: nat) returns (ghost toks: seq<Token>)
    requires w.Valid() && w.Size() == 0 && w.Value() == 0 && quality >= 1
    modifies w
    ensures w.Valid() && old(w.out) <= w.out && Spells(w.Value(), w.Size(), toks) && Covers(toks, data, |data|)
    ensures Follows(toks, Parse(data, quality), [])
  {
    hide Spells, Covers, Packer.Value, Packer.Size, Parse, Follows;
    EmitHeader(w);
    CoversNothing(data);
    var i;
    i, toks := CompressMatches(w, data, quality);
    while i < |data|
      invariant w.Valid() && old(w.out) <= w.out && Spells(w.Value(), w.Size(), toks)
      invariant i <= |data| && Covers(toks, data, i)
      invariant Follows(toks, Parse(data, quality), AllLiterals(|data| - i))
    {
      EmitLiteral(w, data[i], toks);
      CoversLiteral(toks, data, i);
      FollowsMore(toks, Parse(data, quality), AllLiterals(|data| - i), Lit(data[i]));
      assert AllLiterals(|data| - i)[1..] == AllLiterals(|data| - (i + 1));
      toks := toks + [Lit(data[i])];
      i := i + 1;
    }
  }

  function NoChains(): (t: seq<seq<nat>>) {
    seq(ZHASH, _ => [])
  }

  /** The whole parse, from empty chains. */
  ghost function Parse(data: seq<byte>, quality: nat): seq<Move>
    requires quality >= 1
  {
    NoChain(quality);
    Moves(data, 0, quality, NoChains())
  }

  /** The loop that looks for matches, which stops three bytes before the end. */
  method CompressMatches(w: Packer, data: seq<byte>, quality: nat) returns (i: nat, ghost toks: seq<Token>)
    requires w.Valid() && Spells(w.Value(), w.Size(), []) && quality >= 1
    modifies w
    ensures w.Valid() && old(w.out) <= w.out && Spells(w.Value(), w.Size(), toks)
    ensures i <= |data| && Covers(toks, data, i)
    ensures Follows(toks, Parse(data, quality), AllLiterals(|data| - i))
  {
    hide Spells, Covers, Packer.Value, Packer.Size, Chain, Follows, MoveAt, Entered, MatchLen, AllLiterals, AllChains;
    var hash_table := new seq<nat>[ZHASH](_ => []);
    assert hash_table[..] == NoChains();
    NoChain(quality);
    CoversNothing(data);
    i, toks := 0, [];
    ghost var all := Parse(data, quality);
    FollowsNothing(all);
    while i < |data| - 3
      invariant w.Valid() && old(w.out) <= w.out && Spells(w.Value(), w.Size(), toks)
      invariant i <= |data| && Covers(toks, data, i) && Chains(hash_table, i, quality)
      invariant Follows(toks, all, Moves(data, i, quality, hash_table[..]))
    {
      ghost var was, now := hash_table[..], i;
      var best, bestloc := FindMatch(data, i, quality, hash_table);
      i, toks := EmitNext(w, data, i, best, bestloc, toks, all, Moves(data, i, quality, was));
      ChainsLater(hash_table[..], now + 1, i, quality);
    }
  }

  /** The match, or the byte at `i`. */
  method EmitNext(w: Packer, data: seq<byte>, i: nat, best: nat, bestloc: int, ghost toks: seq<Token>,
      ghost all: seq<Move>, ghost rest: seq<Move>)
    returns (i': nat, ghost toks': seq<Token>)
    requires w.Valid() && Spells(w.Value(), w.Size(), toks) && i < |data| && Covers(toks, data, i)
    requires 3 <= best <= MAX_MATCH
    requires bestloc >= 0 ==> bestloc < i && i - bestloc < WINDOW && best == MatchLen(data, bestloc, i, 0)
    requires Follows(toks, all, rest) && rest != []
    requires rest[0] == if bestloc >= 0 then Move(best, i - bestloc) else LITERAL
    modifies w
    ensures w.Valid() && old(w.out) <= w.out && Spells(w.Value(), w.Size(), toks')
    ensures i' == i + rest[0].len && i' <= |data| && Covers(toks', data, i') && Follows(toks', all, rest[1..])
  {
    hide Spells, Covers, Packer.Value, Packer.Size, MatchLen, LengthBase, DistBase, LengthExtra, DistExtra, Pow2, Follows,
      LengthC;
    ghost var t;
    if bestloc >= 0 {
      t := EmitMatch(w, best, i - bestloc, toks);
      CoversMatch(toks, data, i, t);
      i' := i + best;
    } else {
      EmitLiteral(w, data[i], toks);
      t := Lit(data[i]);
      CoversLiteral(toks, data, i);
      i' := i + 1;
    }
    FollowsMore(toks, all, rest, t);
    toks' := toks + [t];
  }

  lemma NoChain(quality: nat)
    ensures AllChains(NoChains(), 0, quality)
  {
  }

  lemma FollowsNothing(all: seq<Move>)
    ensures Follows([], all, all)
  {
  }

  lemma CoversNothing(data: seq<byte>)
    ensures Covers([], data, 0)
  {
  }

  /** The whole fixed-code block, padded with `k` zero bits, and then `rest`. */
  ghost function PutFixedBlock(toks: seq<Token>, k: nat, rest: nat): nat
    requires AllCoded(toks, FixedLiterals(), FixedDistances())
  {
    PutFixed(toks, PutSymbol(FixedLiterals(), END_OF_BLOCK, Put(0, k, rest)))
  }

  /** The body bytes are such a block. */
  ghost predicate IsFixedBlock(body: seq<byte>, toks: seq<Token>, k: nat) {
    && AllCoded(toks, FixedLiterals(), FixedDistances())
    && 8 * |body| == 3 + TokensBits(toks, FixedLiterals(), FixedDistances()) + 7 + k
    && forall rest: nat :: Put(LE(body), 8 * |body|, rest) == PutFixedBlock(toks, k, rest)
  }

  /** End of block, and zero bits up to a byte boundary. */
  method FinishBlock(w: Packer, ghost toks: seq<Token>) returns (ghost k: nat)
    requires w.Valid() && Spells(w.Value(), w.Size(), toks)
    modifies w
    ensures w.Valid() && old(w.out) <= w.out && IsFixedBlock(w.out[w.start..], toks, k) && k < 8
  {
    hide Put, PutSymbol, PutFixed, TokensBits, AllCoded, Packer.Value, Packer.Size, FixedLiterals, FixedDistances, Spells,
      PutFixedBlock;
    SpellsOpen(w.Value(), w.Size(), toks);
    NoPadding(toks);
    w.Huff(END_OF_BLOCK);
    k := 0;
    while w.bitcount != 0
      invariant w.Valid() && old(w.out) <= w.out && AllCoded(toks, FixedLiterals(), FixedDistances())
      invariant w.Size() == 3 + TokensBits(toks, FixedLiterals(), FixedDistances()) + 7 + k
      invariant k < 8 && (w.bitcount != 0 ==> k < w.bitcount)
      invariant forall rest: nat :: Put(w.Value(), w.Size(), rest) == PutFixedBlock(toks, k, rest)
      decreases (8 - w.bitcount) % 8
    {
      PadOne(w, toks, k);
      k := k + 1;
    }
    WholeBytes(w);
  }

  lemma SpellsOpen(v: nat, n: nat, toks: seq<Token>)
    requires Spells(v, n, toks)
    ensures AllCoded(toks, FixedLiterals(), FixedDistances()) && n == 3 + TokensBits(toks, FixedLiterals(), FixedDistances())
    ensures END_OF_BLOCK < |FixedLiterals()| && FixedLiterals()[END_OF_BLOCK] >= 1 && FixedLength(END_OF_BLOCK) == 7
    ensures forall rest: nat :: Put(v, n, rest) == PutFixed(toks, rest)
  {
  }

  lemma NoPadding(toks: seq<Token>)
    requires AllCoded(toks, FixedLiterals(), FixedDistances())
    ensures forall rest: nat :: PutFixedBlock(toks, 0, rest) == PutFixed(toks, PutSymbol(FixedLiterals(), END_OF_BLOCK, rest))
  {
    hide PutFixed, PutSymbol;
    forall rest: nat ensures Put(0, 0, rest) == rest {}
  }

  lemma WholeBytes(w: Packer)
    requires w.Valid() && w.bitcount == 0
    ensures w.Size() == 8 * |w.out[w.start..]| && w.Value() == LE(w.out[w.start..])
  {
    ShlZero(8 * (|w.out| - w.start));
  }

  method PadOne(w: Packer, ghost toks: seq<Token>, ghost k: nat)
    requires w.Valid() && AllCoded(toks, FixedLiterals(), FixedDistances()) && w.bitcount > 0
    requires forall rest: nat :: Put(w.Value(), w.Size(), rest) == PutFixedBlock(toks, k, rest)
    modifies w
    ensures w.Valid() && old(w.out) <= w.out && w.Size() == old(w.Size()) + 1
    ensures w.bitcount == (old(w.bitcount) + 1) % 8
    ensures forall rest: nat :: Put(w.Value(), w.Size(), rest) == PutFixedBlock(toks, k + 1, rest)
  {
    hide Put, PutFixedBlock, Packer.Value, AllCoded;
    ghost var v, n := w.Value(), w.Size();
    OneBit();
    w.Add(0, 1);
    PutAppended(v, n, 0, 1);
    forall rest: nat ensures Put(w.Value(), w.Size(), rest) == PutFixedBlock(toks, k + 1, rest) {
      OnePadding(toks, k, rest);
    }
  }

  lemma OneBit()
    ensures 0 < Pow2(1)
  {
  }

  lemma OnePadding(toks: seq<Token>, k: nat, rest: nat)
    requires AllCoded(toks, FixedLiterals(), FixedDistances())
    ensures PutFixedBlock(toks, k, Put(0, 1, rest)) == PutFixedBlock(toks, k + 1, rest)
  {
    hide PutFixed, PutSymbol, AllCoded;
    PutPut(0, k, 0, 1, rest);
    ShlZero(k);
  }

  // ---------------------------------------------------------------- stored blocks

  const STORED_MAX: nat := 32767

  /** Stored blocks with zero padding, of 32767 bytes each; the final one may have fewer, but not none. */
  ghost predicate AllStored(bs: seq<Block>, closed: bool) {
    forall i :: 0 <= i < |bs| ==>
      && bs[i].Stored? && bs[i].pad == 0 && 1 <= |bs[i].bytes| <= STORED_MAX
      && (i < |bs| - 1 || !closed ==> |bs[i].bytes| == STORED_MAX)
  }

  /** The body bytes are such blocks, which give `data`; when `closed`, the last one is marked final. */
  ghost predicate IsStored(body: seq<byte>, bs: seq<Block>, closed: bool, data: seq<byte>) {
    && AllStored(bs, closed) && BlocksLegal([], bs, 16) && BlocksBytes([], bs, 16) == data
    && BlocksEnd([], bs, 16) == 16 + 8 * |body|
    && forall rest: nat :: Put(LE(body), 8 * |body|, rest) == PutBlocks([], bs, 16, closed, rest)
  }

  function StoredHeader(last: bool, len: nat): (h: seq<byte>)
    requires len <= STORED_MAX
    ensures |h| == 5
  {
    [if last then 1 else 0, len % 256, len / 256, (65535 - len) % 256, (65535 - len) / 256]
  }

  lemma StoredHeaderBits(last: bool, chunk: seq<byte>, rest: nat)
    requires |chunk| <= STORED_MAX
    ensures Put(LE(StoredHeader(last, |chunk|)), 40, Put(LE(chunk), 8 * |chunk|, rest)) ==
            Put(if last then 1 else 0, 1, Put(0, 2, Put(0, 5, Put(|chunk|, 16, Put(65535 - |chunk|, 16,
              Put(LE(chunk), 8 * |chunk|, rest))))))
  {
    hide Put, LE;
    var len := |chunk|;
    assert len / 256 * 256 + len % 256 == len && (65535 - len) / 256 * 256 + (65535 - len) % 256 == 65535 - len;
    HeaderBytes(if last then 1 else 0, len % 256, len / 256, (65535 - len) % 256, (65535 - len) / 256,
                Put(LE(chunk), 8 * len, rest));
  }

  /** Five bytes as a stored block's header. */
  lemma HeaderBytes(f: byte, a: byte, b: byte, c: byte, d: byte, r: nat)
    ensures Put(LE([f, a, b, c, d]), 40, r) ==
            Put(f, 1, Put(0, 2, Put(0, 5, Put(b * 256 + a, 16, Put(d * 256 + c, 16, r)))))
  {
    hide Put, LE;
    FourBytes(a, b, c, d, r);
    var h4 := [a, b, c, d];
    assert [f, a, b, c, d] == [f] + h4;
    LEAppend([f], h4);
    OneByteBits(f, Put(b * 256 + a, 16, Put(d * 256 + c, 16, r)));
    PutPut(LE([f]), 8, LE(h4), 32, r);
  }

  lemma OneByteBits(f: byte, x: nat)
    ensures LE([f]) == f && Put(f, 8, x) == Put(f, 1, Put(0, 2, Put(0, 5, x)))
  {
    ShlZero(8);
    ShlZero(1);
    ShlZero(2);
    assert [f][1..] == [];
    PutPut(0, 2, 0, 5, x);
    PutPut(f, 1, 0, 7, x);
  }

  /** One more stored block. */
  lemma StoredMore(body: seq<byte>, bs: seq<Block>, data: seq<byte>, chunk: seq<byte>, last: bool)
    requires IsStored(body, bs, false, data) && 1 <= |chunk| <= STORED_MAX && (!last ==> |chunk| == STORED_MAX)
    ensures IsStored(body + StoredHeader(last, |chunk|) + chunk, bs + [Stored(0, chunk)], last, data + chunk)
  {
    hide LE, Put, PutBlocks, BlocksLegal, BlocksBytes, BlocksEnd, StoredHeader, Pow2;
    var b, e, h := Stored(0, chunk), 16 + 8 * |body|, StoredHeader(last, |chunk|);
    assert Padding(e + 3) == 5;
    BlocksAppend([], bs, 16, b, data, e);
    var body' := body + h + chunk;
    forall rest: nat ensures Put(LE(body'), 8 * |body'|, rest) == PutBlocks([], bs + [b], 16, last, rest) {
      PutBlocksAppend([], bs, 16, b, last, rest, data, e);
      var r := Put(LE(chunk), 8 * |chunk|, rest);
      AppendBytes(body + h, chunk, rest);
      AppendBytes(body, h, r);
      StoredHeaderBits(last, chunk, rest);
    }
  }

  lemma AppendBytes(a: seq<byte>, b: seq<byte>, rest: nat)
    ensures Put(LE(a + b), 8 * |a + b|, rest) == Put(LE(a), 8 * |a|, Put(LE(b), 8 * |b|, rest))
  {
    LEAppend(a, b);
    PutPut(LE(a), 8 * |a|, LE(b), 8 * |b|, rest);
  }

  function Ceil(n: nat): nat {
    (n + 32766) / 32767
  }

  /** The fallback: the data in stored blocks of up to 32767 bytes. */
  method StoreBlocks(header: seq<byte>, data: seq<byte>) returns (out: seq<byte>, ghost bs: seq<Block>)
    ensures header <= out && |out| == |header| + |data| + 5 * Ceil(|data|)
    ensures IsStored(out[|header|..], bs, data != [], data)
    ensures data != [] ==> bs != []
  {
    hide IsStored, Ceil, StoredHeader;
    assert Ceil(0) == 0 by { NothingStored(); }
    out, bs := header, [];
    var j := 0;
    ghost var blocks := 0;
    assert out[|header|..] == [] && data[..0] == [];
    assert IsStored([], [], false, []) by { NothingStored(); }
    while j < |data|
      invariant j <= |data| && header <= out && (j > 0 ==> bs != [])
      invariant |out| == |header| + j + 5 * blocks
      invariant j == |data| || j == 32767 * blocks
      invariant j == |data| ==> blocks == Ceil(|data|)
      invariant IsStored(out[|header|..], bs, j == |data| && data != [], data[..j])
    {
      ghost var body := out[|header|..];
      var blocklen := |data| - j;
      if blocklen > STORED_MAX { blocklen := STORED_MAX; }
      var chunk := data[j..j + blocklen];
      out := out + StoredHeader(|data| - j == blocklen, blocklen);
      out := out + chunk;
      StoredMore(body, bs, data[..j], chunk, |data| - j == blocklen);
      assert out[|header|..] == body + StoredHeader(|data| - j == blocklen, blocklen) + chunk;
      assert data[..j + blocklen] == data[..j] + chunk;
      if j + blocklen == |data| {
        CeilIs(|data|, blocks, blocklen);
      }
      bs := bs + [Stored(0, chunk)];
      j := j + blocklen;
      blocks := blocks + 1;
    }
    assert data[..j] == data;
  }

  lemma NothingStored()
    ensures IsStored([], [], false, []) && Ceil(0) == 0
  {
  }

  lemma CeilIs(n: nat, full: nat, last: nat)
    requires n == 32767 * full + last && 1 <= last <= 32767
    ensures Ceil(n) == full + 1
  {
  }

  // ---------------------------------------------------------------- the whole stream

  const ZLIB_HEADER: seq<byte> := [0x78, 0x5e]

  /** Header, body and trailer decompress to the data, with the trailer to spare. */
  lemma FixedInflates(body: seq<byte>, toks: seq<Token>, k: nat, t: seq<byte>, data: seq<byte>)
    requires IsFixedBlock(body, toks, k) && Covers(toks, data, |data|) && |t| == 4
    ensures InflatesWithRoom(ZLIB_HEADER + body + t, true, data)
  {
    hide LE, Put, PutTokens, TokensBits;
    var bytes := ZLIB_HEADER + body + t;
    var b := Compressed(Fixed, toks);
    assert bytes[2..] == body + t && data[..|data|] == data;
    LEAppend(body, t);
    var rest := Put(0, k, LE(t));
    assert BlockLegal([], b, 19) && BlocksLegal(BlockBytes([], b, 19), [b][1..], After([], b, 16));
    assert [b][1..] == [];
    assert PutBlocks([], [b], 16, true, rest) == PutFixedBlock(toks, k, LE(t)) by {
      assert PutBlocks(BlockBytes([], b, 19), [b][1..], After([], b, 16), true, rest) == rest;
    }
    assert Encodes(bytes, true, [b], rest);
    assert BlocksBytes(BlockBytes([], b, 19), [b][1..], After([], b, 16)) == data;
    assert BlocksEnd(BlockBytes([], b, 19), [b][1..], After([], b, 16)) == After([], b, 16);
    assert BlocksBytes([], [b], 16) == data && BlocksEnd([], [b], 16) + 16 <= 8 * |bytes|;
  }

  lemma StoredInflates(body: seq<byte>, bs: seq<Block>, t: seq<byte>, data: seq<byte>)
    requires IsStored(body, bs, true, data) && bs != [] && |t| == 4
    ensures InflatesWithRoom(ZLIB_HEADER + body + t, true, data)
  {
    hide LE, Put, PutBlocks, BlocksLegal, BlocksBytes, BlocksEnd;
    var bytes := ZLIB_HEADER + body + t;
    assert bytes[2..] == body + t;
    LEAppend(body, t);
    assert Encodes(bytes, true, bs, LE(t));
  }

  /** The compressor's choice: the parse in fixed codes, padded to a byte, unless stored blocks are shorter. */
  ghost predicate Chosen(body: seq<byte>, data: seq<byte>, quality: nat)
    requires quality >= 1
  {
    exists block, toks, k: nat ::
      && Follows(toks, Parse(data, quality), []) && Covers(toks, data, |data|)
      && IsFixedBlock(block, toks, k) && k < 8
      && if |block| <= |data| + 5 * Ceil(|data|) then body == block else StoredWhole(body, data)
  }

  ghost predicate StoredWhole(body: seq<byte>, data: seq<byte>) {
    |body| == |data| + 5 * Ceil(|data|) && exists bs :: GivesWhole(body, bs, data)
  }

  ghost predicate GivesWhole(body: seq<byte>, bs: seq<Block>, data: seq<byte>) {
    IsStored(body, bs, data != [], data)
  }

  lemma ChosenIs(body: seq<byte>, block: seq<byte>, toks: seq<Token>, k: nat, bs: seq<Block>, data: seq<byte>, quality: nat)
    requires quality >= 1 && Follows(toks, Parse(data, quality), []) && Covers(toks, data, |data|)
    requires IsFixedBlock(block, toks, k) && k < 8
    requires if |block| <= |data| + 5 * Ceil(|data|) then body == block
             else |body| == |data| + 5 * Ceil(|data|) && IsStored(body, bs, data != [], data)
    ensures Chosen(body, data, quality)
  {
    hide Follows, Covers, IsFixedBlock, IsStored, Parse, Ceil;
    assert |block| > |data| + 5 * Ceil(|data|) ==> GivesWhole(body, bs, data);
  }

  /** `stbi_zlib_compress`: a stream that decompresses to the data, never much longer than the data, and
      its Adler-32 value at the end.  Of no data it makes a header and a trailer with no block between. */
  method Compress(data: seq<byte>, quality: int) returns (out: seq<byte>)
    ensures data != [] ==> InflatesWithRoom(out, true, data)
    ensures data == [] ==> out == [0x78, 0x5e, 0, 0, 0, 1]
    ensures |out| <= |data| + 6 + 5 * Ceil(|data|)
    ensures |out| >= 6 && out[..2] == ZLIB_HEADER && out[|out| - 4..] == Trailer(data)
    ensures Chosen(out[2..|out| - 4], data, if quality < 5 then 5 else quality)
  {
    hide Chosen, Follows, Parse, IsStored, IsFixedBlock, Covers, Ceil, Spells, InflatesWithRoom, Trailer;
    var q := if quality < 5 then 5 else quality;
    var w := new Packer(ZLIB_HEADER);
    var toks := CompressFixed(w, data, q);
    var k := FinishBlock(w, toks);
    ghost var body := w.out[2..];
    ghost var bs: seq<Block> := [];
    out := w.out;
    ghost var stored := |out| > |data| + 2 + Ceil(|data|) * 5;
    BlockTakesSpace(body, toks, k);
    if |out| > |data| + 2 + (|data| + 32766) / 32767 * 5 {
      assert stored by { CeilOpen(|data|); }
      ghost var before := |out|;
      out, bs := StoreBlocks(ZLIB_HEADER, data);
      assert |out| < before;  // no growth needed: the bytes fit where the compressed ones were
    } else {
      assert !stored by { CeilOpen(|data|); }
    }
    ghost var front := out;
    assert front == ZLIB_HEADER + front[2..];
    var s1, s2 := Adler32(data);
    TrailerOpen(data);
    out := out + [s2 / 256, s2 % 256, s1 / 256, s1 % 256];
    assert out == ZLIB_HEADER + front[2..] + Trailer(data);
    assert out[2..|out| - 4] == front[2..];
    ChosenIs(front[2..], body, toks, k, bs, data, q);
    if data == [] {
      NoDataNoBlocks();
    } else if stored {
      StoredInflates(front[2..], bs, Trailer(data), data);
    } else {
      FixedInflates(front[2..], toks, k, Trailer(data), data);
    }
  }

  lemma CeilOpen(n: nat)
    ensures Ceil(n) == (n + 32766) / 32767
  {
  }

  lemma TrailerOpen(data: seq<byte>)
    ensures var (s1, s2) := Sums(data); Trailer(data) == [s2 / 256, s2 % 256, s1 / 256, s1 % 256]
  {
  }

  lemma NoDataNoBlocks()
    ensures Trailer([]) == [0, 0, 0, 1] && Ceil(0) == 0
  {
  }

  /** A block takes at least ten bits. */
  lemma BlockTakesSpace(body: seq<byte>, toks: seq<Token>, k: nat)
    requires IsFixedBlock(body, toks, k)
    ensures |body| >= 2
  {
  }
}
