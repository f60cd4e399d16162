/** The match finder of `stbi_zlib_compress`: hash chains of earlier positions, and the choice of length
    and distance codes. */
module MatchFinder {
  import opened Bits
  import opened Deflate

  const ZHASH: nat := 16384
  const WINDOW: nat := 32768
  const MAX_MATCH: nat := 258

  // ---------------------------------------------------------------- matches

  /** How far the bytes at `p` and at `i` agree, from offset `k` on; never past the end or 258. */
  function MatchLen(data: seq<byte>, p: nat, i: nat, k: nat): (n: nat)
    requires p <= i <= |data|
    requires k <= MAX_MATCH && i + k <= |data|
    ensures k <= n <= MAX_MATCH && i + n <= |data|
    decreases MAX_MATCH - k
  {
    if i + k < |data| && k < MAX_MATCH && data[p + k] == data[i + k] then MatchLen(data, p, i, k + 1) else k
  }

  lemma {:induction false} MatchLenAgrees(data: seq<byte>, p: nat, i: nat, k: nat)
    requires p <= i <= |data| && k <= MAX_MATCH && i + k <= |data|
    ensures var n := MatchLen(data, p, i, k); data[p + k..p + n] == data[i + k..i + n]
    decreases MAX_MATCH - k
  {
    if i + k < |data| && k < MAX_MATCH && data[p + k] == data[i + k] {
      MatchLenAgrees(data, p, i, k + 1);
      var n := MatchLen(data, p, i, k);
      assert data[p + k..p + n] == [data[p + k]] + data[p + k + 1..p + n];
      assert data[i + k..i + n] == [data[i + k]] + data[i + k + 1..i + n];
    }
  }

  /** `stbiw__zlib_countm` */
  method Countm(data: seq<byte>, p: nat, i: nat) returns (n: nat)
    requires p <= i <= |data|
    ensures n == MatchLen(data, p, i, 0)
  {
    n := 0;
    while i + n < |data| && n < MAX_MATCH
      invariant i + n <= |data| && n <= MAX_MATCH
      invariant MatchLen(data, p, i, 0) == MatchLen(data, p, i, n)
    {
      if data[p + n] != data[i + n] {
        break;
      }
      n := n + 1;
    }
  }

  /** `stbiw__zhash` on three bytes, in 32-bit arithmetic, and the bucket it selects. */
  function Hash(a: byte, b: byte, c: byte): (h: nat)
    ensures h < ZHASH
  {
    var h0 := (a as bv32) + (b as bv32 << 8) + (c as bv32 << 16);
    var h1 := h0 ^ (h0 << 3);
    var h2 := h1 + (h1 >> 5);
    var h3 := h2 ^ (h2 << 4);
    var h4 := h3 + (h3 >> 17);
    var h5 := h4 ^ (h4 << 25);
    var h6 := h5 + (h5 >> 6);
    (h6 & 16383) as bv14 as int
  }

  /** The earlier position `p` can be reached from `i`. */
  predicate InWindow(p: nat, i: nat) {
    p as int > i as int - WINDOW as int
  }

  /** The chain's longest match at `i` that can be reached, the latest of equal ones; none below three
      bytes. */
  ghost predicate Longest(data: seq<byte>, hlist: seq<nat>, i: nat, best: nat, loc: int)
    requires i <= |data| && forall j :: 0 <= j < |hlist| ==> hlist[j] < i
  {
    && 3 <= best <= MAX_MATCH
    && (if loc < 0 then loc == -1 && best == 3
        else loc < i && loc in hlist && InWindow(loc, i) && best == MatchLen(data, loc, i, 0))
    && forall j :: 0 <= j < |hlist| && InWindow(hlist[j], i) ==>
         MatchLen(data, hlist[j], i, 0) < best || (MatchLen(data, hlist[j], i, 0) == best && hlist[j] <= loc)
  }

  /** What a walk along the chain finds. */
  function Best(data: seq<byte>, hlist: seq<nat>, i: nat): (r: (nat, int))
    requires i <= |data| && forall j :: 0 <= j < |hlist| ==> hlist[j] < i
  {
    if hlist == [] then (3, -1)
    else
      var r := Best(data, hlist[..|hlist| - 1], i);
      var p := hlist[|hlist| - 1];
      if InWindow(p, i) && MatchLen(data, p, i, 0) >= r.0 then (MatchLen(data, p, i, 0), p) else r
  }

  lemma {:induction false} BestIsLongest(data: seq<byte>, hlist: seq<nat>, i: nat)
    requires i <= |data| && forall j :: 0 <= j < |hlist| ==> hlist[j] < i
    requires forall j, k :: 0 <= j < k < |hlist| ==> hlist[j] < hlist[k]
    ensures var (best, loc) := Best(data, hlist, i); Longest(data, hlist, i, best, loc)
  {
    if hlist != [] {
      var most := hlist[..|hlist| - 1];
      BestIsLongest(data, most, i);
      assert hlist == most + [hlist[|hlist| - 1]];
    }
  }

  method LongestMatch(data: seq<byte>, hlist: seq<nat>, i: nat) returns (best: nat, bestloc: int)
    requires i < |data| && (forall j :: 0 <= j < |hlist| ==> hlist[j] < i)
    ensures (best, bestloc) == Best(data, hlist, i)
  {
    best, bestloc := 3, -1;
    for j := 0 to |hlist|
      invariant (best, bestloc) == Best(data, hlist[..j], i)
    {
      assert hlist[..j + 1][..j] == hlist[..j];
      if InWindow(hlist[j], i) {
        var d := Countm(data, hlist[j], i);
        if d >= best {
          best, bestloc := d, hlist[j];
        }
      }
    }
    assert hlist[..|hlist|] == hlist;
  }

  /** Some chain entry matches longer one byte further on. */
  ghost predicate Better(data: seq<byte>, hlist: seq<nat>, i: nat, best: nat)
    requires i + 1 <= |data| && forall j :: 0 <= j < |hlist| ==> hlist[j] <= i
  {
    exists j :: 0 <= j < |hlist| && InWindow(hlist[j], i + 1) && MatchLen(data, hlist[j], i + 1, 0) > best
  }

  /** Lazy matching. */
  method BetterNext(data: seq<byte>, hlist: seq<nat>, i: nat, best: nat) returns (better: bool)
    requires i + 1 <= |data| && forall j :: 0 <= j < |hlist| ==> hlist[j] <= i
    ensures better <==> Better(data, hlist, i, best)
  {
    for j := 0 to |hlist|
      invariant forall t :: 0 <= t < j ==> !(InWindow(hlist[t], i + 1) && MatchLen(data, hlist[t], i + 1, 0) > best)
    {
      if InWindow(hlist[j], i + 1) {
        var e := Countm(data, hlist[j], i + 1);
        if e > best {
          return true;
        }
      }
    }
    return false;
  }

  // ---------------------------------------------------------------- chains

  /** Positions in a chain increase and lie below `i`, and there are at most `2 * quality`. */
  ghost predicate Chain(c: seq<nat>, i: nat, quality: nat) {
    && |c| <= 2 * quality
    && (forall j, k :: 0 <= j < k < |c| ==> c[j] < c[k])
    && (forall j :: 0 <= j < |c| ==> c[j] < i)
  }

  /** Position `i` joins its chain; a full chain first loses its older half. */
  function Enter(c: seq<nat>, i: nat, quality: nat): seq<nat>
    requires |c| <= 2 * quality
  {
    (if |c| == 2 * quality then c[quality..] else c) + [i]
  }

  lemma EnterKeepsChain(c: seq<nat>, i: nat, quality: nat)
    requires quality >= 1 && Chain(c, i, quality)
    ensures Chain(Enter(c, i, quality), i + 1, quality)
  {
  }

  /** Every chain of the table is one. */
  ghost predicate AllChains(table: seq<seq<nat>>, i: nat, quality: nat) {
    |table| == ZHASH && forall h :: 0 <= h < ZHASH ==> Chain(table[h], i, quality)
  }

  /** Where the bytes at `i` are looked up. */
  function Bucket(data: seq<byte>, i: nat): (h: nat)
    requires i + 3 <= |data|
    ensures h < ZHASH
  {
    Hash(data[i], data[i + 1], data[i + 2])
  }

  /** The chain that `i` is looked up in. */
  function ChainAt(data: seq<byte>, i: nat, bound: nat, quality: nat, table: seq<seq<nat>>): (c: seq<nat>)
    requires i + 3 <= |data| && AllChains(table, bound, quality)
    ensures Chain(c, bound, quality) && |table| == ZHASH && c == table[Bucket(data, i)]
    ensures |c| <= 2 * quality
  {
    hide Hash;
    table[Bucket(data, i)]
  }

  lemma ChainLater(c: seq<nat>, i: nat, j: nat, quality: nat)
    requires Chain(c, i, quality) && i <= j
    ensures Chain(c, j, quality)
  {
  }

  lemma ChainsLater(table: seq<seq<nat>>, i: nat, j: nat, quality: nat)
    requires AllChains(table, i, quality) && i <= j
    ensures AllChains(table, j, quality)
  {
    hide Chain;
    forall h | 0 <= h < ZHASH ensures Chain(table[h], j, quality) {
      ChainLater(table[h], i, j, quality);
    }
  }

  lemma EntryKeepsChains(table: seq<seq<nat>>, h: nat, c: seq<nat>, i: nat, quality: nat)
    requires AllChains(table, i, quality) && h < ZHASH && Chain(c, i + 1, quality)
    ensures |table| == ZHASH && AllChains(table[h := c], i + 1, quality)
  {
    hide Chain;
    ChainsLater(table, i, i + 1, quality);
  }

  /** The table once `i` has joined its chain. */
  ghost function Entered(data: seq<byte>, i: nat, quality: nat, table: seq<seq<nat>>): (t: seq<seq<nat>>)
    requires i + 3 < |data| && quality >= 1 && AllChains(table, i, quality)
    ensures AllChains(t, i + 1, quality)
  {
    hide Bucket, Enter, Chain, AllChains;
    var c := ChainAt(data, i, i, quality, table);
    EnterKeepsChain(c, i, quality);
    EntryKeepsChains(table, Bucket(data, i), Enter(c, i, quality), i, quality);
    table[Bucket(data, i) := Enter(c, i, quality)]
  }

  // ---------------------------------------------------------------- the whole parse

  /** A step of the parse: so many bytes copied from `dist` back, or one literal byte when `dist` is 0. */
  datatype Move = Move(len: nat, dist: nat)

  const LITERAL := Move(1, 0)

  /** The step at `i`, by its own chain and the next position's: the longest match, unless there is none, or
      a longer one starts one byte further on. */
  ghost function Step(data: seq<byte>, i: nat, hlist: seq<nat>, next: seq<nat>, quality: nat): (m: Move)
    requires i + 3 < |data| && Chain(hlist, i, quality) && Chain(next, i + 1, quality)
    ensures 1 <= m.len && i + m.len <= |data| && m.dist <= i
  {
    hide Better, InWindow;
    BestIsLongest(data, hlist, i);
    var (best, loc) := Best(data, hlist, i);
    if loc >= 0 && !Better(data, next, i, best) then Move(best, i - loc) else LITERAL
  }

  ghost function MoveAt(data: seq<byte>, i: nat, quality: nat, table: seq<seq<nat>>): (m: Move)
    requires i + 3 < |data| && quality >= 1 && AllChains(table, i, quality)
    ensures 1 <= m.len && i + m.len <= |data| && m.dist <= i
  {
    hide ChainAt, Entered, Chain, AllChains;
    Step(data, i, ChainAt(data, i, i, quality, table),
         ChainAt(data, i + 1, i + 1, quality, Entered(data, i, quality, table)), quality)
  }

  /** All steps from `i` on; the last three bytes are literals. */
  ghost function Moves(data: seq<byte>, i: nat, quality: nat, table: seq<seq<nat>>): seq<Move>
    requires i <= |data| && quality >= 1 && AllChains(table, i, quality)
    decreases |data| - i
  {
    hide MoveAt, Entered, AllChains;
    if i + 3 < |data| then
      var m := MoveAt(data, i, quality, table);
      ChainsLater(Entered(data, i, quality, table), i + 1, i + m.len, quality);
      [m] + Moves(data, i + m.len, quality, Entered(data, i, quality, table))
    else
      AllLiterals(|data| - i)
  }

  function AllLiterals(n: nat): seq<Move> {
    seq(n, _ => LITERAL)
  }

  /** A copied step is a real match of 3 to 258 bytes, 1 to 32767 back, the longest its chain offers and not
      worse than the next position's; a literal means there is nothing of the kind. */
  lemma StepIsBest(data: seq<byte>, i: nat, hlist: seq<nat>, next: seq<nat>, quality: nat)
    requires i + 3 < |data| && Chain(hlist, i, quality) && Chain(next, i + 1, quality)
    ensures var m := Step(data, i, hlist, next, quality);
      && (m.dist > 0 ==>
            && 3 <= m.len <= MAX_MATCH && 1 <= m.dist < WINDOW && m.dist <= i && i + m.len <= |data|
            && data[i - m.dist..i - m.dist + m.len] == data[i..i + m.len]
            && Longest(data, hlist, i, m.len, i - m.dist) && !Better(data, next, i, m.len))
      && (m.dist == 0 ==>
            && m == LITERAL
            && exists best, loc :: Longest(data, hlist, i, best, loc) && (loc < 0 || Better(data, next, i, best)))
  {
    hide Better, MatchLen, Best, Longest;
    BestIsLongest(data, hlist, i);
    var (best, loc) := Best(data, hlist, i);
    assert Longest(data, hlist, i, best, loc);
    LongestIsReal(data, hlist, i, best, loc);
  }

  lemma LongestIsReal(data: seq<byte>, hlist: seq<nat>, i: nat, best: nat, loc: int)
    requires i <= |data| && (forall j :: 0 <= j < |hlist| ==> hlist[j] < i) && Longest(data, hlist, i, best, loc)
    ensures 3 <= best <= MAX_MATCH && -1 <= loc < i
    ensures loc >= 0 ==>
      i - loc < WINDOW && best == MatchLen(data, loc, i, 0) && i + best <= |data|
      && data[loc..loc + best] == data[i..i + best]
  {
    hide MatchLen;
    if loc >= 0 {
      MatchLenAgrees(data, loc, i, 0);
    }
  }

  /** A token that takes a step; of the two symbols for length 258 it is the one without extra bits. */
  predicate Takes(t: Token, m: Move) {
    match t
    case Lit(_) => m == LITERAL
    case Copy(ls, _, ds, _) =>
      ls < 29 && ds < 30 && m == Move(t.Len(), t.Dist()) && m.dist > 0 && LengthC(ls) <= m.len < LengthC(ls + 1)
  }

  /** The tokens take the steps of a parse, up to the last `rest` of them. */
  ghost predicate Follows(toks: seq<Token>, all: seq<Move>, rest: seq<Move>) {
    |toks| <= |all| && all[|toks|..] == rest && forall k :: 0 <= k < |toks| ==> Takes(toks[k], all[k])
  }

  lemma FollowsMore(toks: seq<Token>, all: seq<Move>, rest: seq<Move>, t: Token)
    requires Follows(toks, all, rest) && rest != [] && Takes(t, rest[0])
    ensures Follows(toks + [t], all, rest[1..])
  {
    hide Takes;
    assert all[|toks|] == rest[0];
  }

  // ---------------------------------------------------------------- a copy that reproduces the data

  lemma {:induction false} CopyIsData(data: seq<byte>, i: nat, dist: nat, len: nat)
    requires 1 <= dist <= i && i + len <= |data|
    requires data[i - dist..i - dist + len] == data[i..i + len]
    ensures CopyRun(data[..i], len, dist) == data[..i + len]
  {
    if len > 0 {
      var a, b := data[i - dist..i - dist + len], data[i..i + len];
      assert a[len - 1] == data[i - dist + len - 1] && b[len - 1] == data[i + len - 1];
      assert a[..len - 1] == data[i - dist..i - dist + len - 1] && b[..len - 1] == data[i..i + len - 1];
      CopyIsData(data, i, dist, len - 1);
      assert data[..i + len] == data[..i + len - 1] + [data[i + len - 1]];
    }
  }

  // ---------------------------------------------------------------- choosing codes

  /** The writer's `lengthc`: the reader's bases and a sentinel. */
  function LengthC(j: nat): nat
    requires j < 30
  {
    if j == 29 then 259 else LengthBase(j)
  }

  /** The writer's `distc`. */
  function DistC(j: nat): nat
    requires j < 31
  {
    if j == 30 then 32768 else DistBase(j)
  }

  lemma ShlSteps(e: nat, k: nat)
    ensures Shl(e, k + 1) == Shl(e, k) + Pow2(e) && Shl(e + 1, 2) == Shl(e, 4) && Shl(e + 1, 4) == Shl(e, 8)
  {
    ShlSum(e, k, 1);
    ShlPow2(e, 0);
    ShlAdd(e, 1, 2);
    ShlAdd(e, 1, 4);
    assert Shl(1, 2) == 4 && Shl(1, 4) == 8;
  }

  lemma Small()
    ensures LengthBase(7) == 10 && LengthBase(8) == 11 && LengthBase(27) == 227 && DistBase(3) == 4 && DistBase(4) == 5
    ensures DistBase(29) == 24577
  {
    assert Shl(1, 4) == 8 by { assert Shl(0, 4) == 4; }
    ShlPow2(5, 3);
    ShlSteps(5, 7);
    assert Shl(1, 2) == 4 by { assert Shl(0, 2) == 2; }
    ShlPow2(13, 2);
    ShlSteps(13, 3);
    Pow2Values();
    assert Pow2(15) == 32768;
  }

  lemma LengthAt(e: nat, r: nat)
    requires 1 <= e <= 5 && r < 4
    ensures LengthExtra(4 * e + 4 + r) == e
    ensures LengthBase(4 * e + 4 + r) == 3 + Shl(e, 4 + r)
  {
    assert (4 * e + 4 + r) / 4 == e + 1 && (4 * e + 4 + r) % 4 == r;
  }

  lemma DistAt(e: nat, r: nat)
    requires 1 <= e <= 13 && r < 2
    ensures DistExtra(2 * e + 2 + r) == e
    ensures DistBase(2 * e + 2 + r) == 1 + Shl(e, 2 + r)
  {
    assert (2 * e + 2 + r) / 2 == e + 1 && (2 * e + 2 + r) % 2 == r;
  }

  lemma LengthStep(j: nat)
    requires j < 29
    ensures LengthC(j) < LengthC(j + 1) <= LengthC(j) + Pow2(LengthExtra(j))
  {
    Small();
    Pow2Values();
    if 8 <= j < 27 {
      LongStep(j / 4 - 1, j % 4);
    }
  }

  lemma LongStep(e: nat, r: nat)
    requires 1 <= e <= 5 && r < 4 && (e == 5 ==> r < 3)
    ensures var j := 4 * e + 4 + r;
      LengthBase(j) < LengthBase(j + 1) == LengthBase(j) + Pow2(LengthExtra(j))
  {
    hide LengthBase, LengthExtra;
    LengthAt(e, r);
    ShlSteps(e, 4 + r);
    if r < 3 { LengthAt(e, r + 1); } else { LengthAt(e + 1, 0); }
  }

  lemma FarStep(e: nat, r: nat)
    requires 1 <= e <= 13 && r < 2 && (e == 13 ==> r == 0)
    ensures var j := 2 * e + 2 + r;
      DistBase(j) < DistBase(j + 1) == DistBase(j) + Pow2(DistExtra(j))
  {
    hide DistBase, DistExtra, Shl, Pow2;
    DistAt(e, r);
    ShlSteps(e, 2 + r);
    if r == 0 { DistAt(e, 1); } else { DistAt(e + 1, 0); }
  }

  lemma DistStep(j: nat)
    requires j < 30
    ensures DistC(j) < DistC(j + 1) <= DistC(j) + Pow2(DistExtra(j))
  {
    Small();
    Pow2Values();
    if 4 <= j < 29 {
      FarStep(j / 2 - 1, j % 2);
    }
  }

  /** The length symbol and its extra value, as the writer searches for them. */
  method ChooseLength(best: nat) returns (j: nat)
    requires 3 <= best <= MAX_MATCH
    ensures j < 29 && LengthBase(j) <= best && best - LengthBase(j) < Pow2(LengthExtra(j))
    ensures LengthC(j) <= best < LengthC(j + 1)
  {
    j := 0;
    while best > LengthC(j + 1) - 1
      invariant j < 29 && LengthC(j) <= best
      decreases 29 - j
    {
      j := j + 1;
    }
    LengthStep(j);
  }

  method ChooseDist(d: nat) returns (j: nat)
    requires 1 <= d < WINDOW
    ensures j < 30 && DistBase(j) <= d && d - DistBase(j) < Pow2(DistExtra(j))
  {
    j := 0;
    while d > DistC(j + 1) - 1
      invariant j < 30 && DistC(j) <= d
      decreases 30 - j
    {
      j := j + 1;
    }
    DistStep(j);
  }
}
