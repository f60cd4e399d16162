/** Codes from the numbers of codes of each length (annex C of ITU-T T.81), and what it takes for an entry of a
    code table to be one of them. */
module JpegCounts {
  import opened Bits
  import opened Canonical
  import opened JpegHuffman
  import opened JpegCoef

  /** How many codes are shorter than `l`. */
  function CumTo(count: seq<nat>, l: nat): nat
    requires 1 <= l <= |count| + 1
  {
    if l == 1 then 0 else CumTo(count, l - 1) + count[l - 2]
  }

  /** The first code of length `l`. */
  function FirstOf(count: seq<nat>, l: nat): nat
    requires 1 <= l <= |count| + 1
  {
    if l == 1 then 0 else 2 * (FirstOf(count, l - 1) + count[l - 2])
  }

  lemma {:induction false} SizesSplit(count: seq<nat>, n: nat, l: nat)
    requires n <= |count| && 1 <= l <= |count| + 1
    ensures |SizesTo(count, n)| == CumTo(count, n + 1)
    ensures forall i :: 0 <= i < |SizesTo(count, n)| ==> (SizesTo(count, n)[i] < l <==> i < CumTo(count, l))
  {
    if n == 0 {
    } else {
      SizesSplit(count, n - 1, l);
      if l <= n { CumMono(count, l, n); } else { CumMono(count, n + 1, l); }
    }
  }

  lemma {:induction false} CumMono(count: seq<nat>, l: nat, m: nat)
    requires 1 <= l <= m <= |count| + 1
    ensures CumTo(count, l) <= CumTo(count, m)
  {
    if l < m { CumMono(count, l, m - 1); }
  }

  lemma {:induction false} LevelsOf(count: seq<nat>, l: nat)
    requires |count| == 16 && 1 <= l <= 17
    ensures FirstSym(Sizes(count), l) == CumTo(count, l) && First(Sizes(count), l) == FirstOf(count, l)
  {
    hide CountTo, EndTo, SizesTo;
    var lens := Sizes(count);
    SizesAscend(count, 16);
    SizesSplit(count, 16, l);
    CumMono(count, l, 17);
    BoundaryIs(lens, CumTo(count, l), l);
    if l == 1 {
      EndStart(lens);
    } else {
      LevelsOf(count, l - 1);
      EndNext(lens, l - 1);
      FirstSymOpen(lens, l - 1);
      EndNext(lens, l);
    }
  }

  lemma EndStart(lens: seq<nat>)
    ensures First(lens, 1) == 0
  {
  }

  lemma FirstSymOpen(lens: seq<nat>, l: nat)
    requires l >= 1
    ensures FirstSym(lens, l + 1) == FirstSym(lens, l) + Count(lens, l)
  {
  }

  /** Entry `e` of a code table is the code of a symbol `rs`. */
  predicate Fine(count: seq<nat>, values: seq<byte>, e: (nat, nat), rs: nat)
    requires |count| == 16
  {
    && 1 <= e.1 <= 16 && e.0 >= FirstOf(count, e.1)
    && var i := e.0 - FirstOf(count, e.1) + CumTo(count, e.1);
       i < CumTo(count, e.1 + 1) && i < |values| && values[i] == rs
  }

  lemma FineHas(t: CodeTable, count: seq<nat>, values: seq<byte>, rs: nat)
    requires |count| == 16 && rs < 256 && Fine(count, values, t[rs], rs) && CumTo(count, 17) <= 256
    requires Canonical.Fits(Sizes(count))
    ensures HasSymbol(t, Coding(Sizes(count), values), rs) && t[rs].1 <= 16 && t[rs].0 < Pow2(t[rs].1)
  {
    hide FirstOf, CumTo, Code, First, FirstSym, Canonical.Fits, Pow2;
    var (code, l) := t[rs];
    var i := code - FirstOf(count, l) + CumTo(count, l);
    var lens := Sizes(count);
    SizesAscend(count, 16);
    SizesSplit(count, 16, l);
    SizesSplit(count, 16, l + 1);
    CumMono(count, l + 1, 17);
    assert lens[i] == l;
    CodeInOrder(lens, i);
    CodeBound(lens, i);
    LevelsOf(count, l);
    assert IsSymbol(t, Coding(lens, values), rs, i);
  }

  /** The codes fit, and every one is below two to its length. */
  lemma CountsFit(count: seq<nat>)
    requires |count| == 16 && FirstOf(count, 17) <= 131072 && CumTo(count, 17) <= 255
    ensures Canonical.Fits(Sizes(count)) && |Sizes(count)| == CumTo(count, 17) && MarkIsFree(Sizes(count))
  {
    hide CountTo, EndTo, SizesTo, KraftTo, FirstOf, CumTo;
    var lens := Sizes(count);
    SizesAscend(count, 16);
    SizesSplit(count, 16, 17);
    LevelsOf(count, 17);
    Pow2Values();
    AllFit(lens);
  }

  /** The places behind the last symbol make no difference. */
  lemma OtherValues(count: seq<nat>, v: seq<byte>, w: seq<byte>, n: nat, e: (nat, nat), rs: nat)
    requires |count| == 16 && Fine(count, v, e, rs) && CumTo(count, 17) <= n <= |v| && n <= |w| && v[..n] == w[..n]
    ensures Fine(count, w, e, rs)
  {
    hide FirstOf, CumTo;
    CumMono(count, e.1 + 1, 17);
    var i := e.0 - FirstOf(count, e.1) + CumTo(count, e.1);
    assert v[i] == v[..n][i] && w[i] == w[..n][i];
  }
}
