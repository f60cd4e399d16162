/** The decoding tables of the JPEG reader: `stbi__build_huffman` and `stbi__build_fast_ac` (annexes C and
    F.2.2.3 of ITU-T T.81).  Symbols are numbered in the order of their codes. */
module JpegHuffman {
  import opened Basics
  import opened Bits
  import opened Canonical

  const FAST_BITS: nat := 9
  const NOT_FAST: nat := 255

  // ---------------------------------------------------------------- the size list

  /** `count[i]` codes of length `i + 1`, for the first `n` lengths. */
  function SizesTo(count: seq<nat>, n: nat): seq<nat>
    requires n <= |count|
  {
    if n == 0 then [] else SizesTo(count, n - 1) + Repeat(n, count[n - 1])
  }

  function Sizes(count: seq<nat>): seq<nat> {
    SizesTo(count, |count|)
  }

  /** Code lengths in ascending order. */
  ghost predicate Ascending(lens: seq<nat>) {
    (forall i :: 0 <= i < |lens| ==> 1 <= lens[i] <= 16) && forall i, j :: 0 <= i < j < |lens| ==> lens[i] <= lens[j]
  }

  lemma {:induction false} SizesAscend(count: seq<nat>, n: nat)
    requires n <= |count| <= 16
    ensures Ascending(SizesTo(count, n))
    ensures forall i :: 0 <= i < |SizesTo(count, n)| ==> SizesTo(count, n)[i] <= n
    ensures forall m :: 0 <= m <= n ==> SizesTo(count, m) <= SizesTo(count, n)
  {
    if n > 0 { SizesAscend(count, n - 1); }
  }

  /** Where the lengths reach `l`. */
  lemma {:induction false} Boundary(lens: seq<nat>, n: nat, k: nat, l: nat)
    requires Ascending(lens) && l >= 1 && k <= |lens| && n <= |lens|
    requires (forall i :: 0 <= i < k ==> lens[i] < l) && forall i :: k <= i < |lens| ==> lens[i] >= l
    ensures FirstSymTo(lens, n, l) == if n <= k then n else k
  {
    if n == 0 {
      FirstSymZero(lens, l);
    } else {
      Boundary(lens, n - 1, k, l);
      FirstSymStep(lens, n - 1, l);
    }
  }

  lemma FirstSymNext(lens: seq<nat>, n: nat, l: nat)
    requires l >= 1 && n <= |lens|
    ensures FirstSymTo(lens, n, l + 1) == FirstSymTo(lens, n, l) + CountTo(lens, n, l)
  {
  }

  lemma BoundaryIs(lens: seq<nat>, k: nat, l: nat)
    requires Ascending(lens) && l >= 1 && k <= |lens|
    requires (forall i :: 0 <= i < k ==> lens[i] < l) && forall i :: k <= i < |lens| ==> lens[i] >= l
    ensures FirstSym(lens, l) == k
  {
    Boundary(lens, |lens|, k, l);
    FirstSymIsTo(lens, l);
  }

  /** Where length `l` begins. */
  lemma {:induction false} BoundaryExists(lens: seq<nat>, l: nat, n: nat) returns (k: nat)
    requires Ascending(lens) && n <= |lens|
    ensures k <= n && (forall i :: 0 <= i < k ==> lens[i] < l) && forall i :: k <= i < n ==> lens[i] >= l
  {
    if n == 0 {
      k := 0;
    } else {
      k := BoundaryExists(lens, l, n - 1);
      assert k < n - 1 ==> lens[k] <= lens[n - 1];
      if k == n - 1 && lens[n - 1] < l {
        k := n;
      }
    }
  }

  /** Symbols in code order stand in their own slots. */
  lemma SlotIsIndex(lens: seq<nat>, i: nat)
    requires Ascending(lens) && i < |lens|
    ensures FirstSym(lens, lens[i]) + CountTo(lens, i, lens[i]) == i
  {
    var l := lens[i];
    var k := BoundaryExists(lens, l, |lens|);
    BoundaryIs(lens, k, l);
    var k' := BoundaryExists(lens, l + 1, |lens|);
    Boundary(lens, i, k, l);
    Boundary(lens, i, k', l + 1);
    FirstSymNext(lens, i, l);
  }

  // ---------------------------------------------------------------- nine bits of look-ahead

  /** The nine bits `w` start with symbol `i`'s code. */
  ghost predicate InNine(lens: seq<nat>, i: nat, w: nat) {
    i < |lens| && 1 <= lens[i] <= FAST_BITS && Drop(w, FAST_BITS - lens[i]) == Code(lens, i)
  }

  lemma StartsIsNine(lens: seq<nat>, i: nat, v: nat)
    requires Canonical.Fits(lens) && i < |lens| && 1 <= lens[i] <= FAST_BITS
    ensures StartsWith(lens, i, v) <==> InNine(lens, i, Rev(v, FAST_BITS))
  {
    var l, c := lens[i], Code(lens, i);
    RevPrefix(v, l, FAST_BITS - l);
    RevTake(v, l);
    RevRev(v, l);
    RevRev(c, l);
    CodeBound(lens, i);
    TakeSmall(c, l);
  }

  lemma NineUnique(lens: seq<nat>, i: nat, j: nat, w: nat)
    requires Canonical.Fits(lens) && InNine(lens, i, w) && InNine(lens, j, w) && w < 512
    ensures i == j
  {
    Pow2Values();
    RevRev(w, FAST_BITS);
    TakeSmall(w, FAST_BITS);
    StartsIsNine(lens, i, Rev(w, FAST_BITS));
    StartsIsNine(lens, j, Rev(w, FAST_BITS));
    StartsUnique(lens, i, j, Rev(w, FAST_BITS));
  }

  /** What the fast table holds for the nine bits `w` when the first `n` symbols are in it. */
  ghost predicate FastEntry(lens: seq<nat>, n: nat, w: nat, f: nat) {
    && (forall i :: 0 <= i < n && InNine(lens, i, w) ==> f == i % 256)
    && ((forall i :: 0 <= i < n ==> !InNine(lens, i, w)) ==> f == NOT_FAST)
  }

  /** The table can tell symbol 255 from the mark for no entry. */
  ghost predicate MarkIsFree(lens: seq<nat>) {
    |lens| <= 255 || lens[255] > FAST_BITS
  }

  class JTable {
    const fast: array<nat>
    const code: array<nat>
    const values: array<byte>
    const size: array<nat>
    const maxcode: array<nat>
    const delta: array<int>

    ghost function Repr(): set<object> {
      {fast as object, code as object, values as object, size as object, maxcode as object, delta as object}
    }

    ghost predicate Shape() {
      && fast.Length == 512 && code.Length == 256 && values.Length == 256 && size.Length == 257
      && maxcode.Length == 18 && delta.Length == 17
      && fast != code && fast != size && fast != maxcode && code != size && code != maxcode && size != maxcode
    }

    /** Sizes and codes are those of the size list. */
    ghost predicate Coded(lens: seq<nat>, n: nat)
      requires Shape() && n <= |lens| <= 256
      reads code
    {
      forall i :: 0 <= i < n ==> lens[i] >= 1 && code[i] == Code(lens, i)
    }

    ghost predicate Level(lens: seq<nat>, l: nat)
      requires Shape() && 1 <= l <= 16
      reads maxcode, delta
    {
      delta[l] == FirstSym(lens, l) - First(lens, l) && maxcode[l] == Stop(lens, l)
    }

    ghost predicate Listed(lens: seq<nat>)
      requires Shape()
      reads size
    {
      |lens| <= 256 && size[..|lens|] == lens && size[|lens|] == 0
    }

    ghost predicate Fast(lens: seq<nat>, n: nat)
      requires Shape()
      reads fast
    {
      forall w :: 0 <= w < 512 ==> FastEntry(lens, n, w, fast[w])
    }

    /** The table decodes the canonical code with these lengths. */
    ghost predicate Holds(lens: seq<nat>)
      reads fast, code, size, maxcode, delta
    {
      && Shape() && Ascending(lens) && Canonical.Fits(lens) && Listed(lens) && Coded(lens, |lens|)
      && (forall l :: 1 <= l <= 16 ==> Level(lens, l)) && maxcode[17] >= 65536
      && Fast(lens, |lens|)
    }

    constructor ()
      ensures Shape() && fresh({fast, code, size, maxcode}) && fresh(values) && fresh(delta)
    {
      fast := new nat[512];
      code := new nat[256];
      values := new byte[256];
      size := new nat[257];
      maxcode := new nat[18];
      delta := new int[17];
    }

    /** `stbi__build_huffman`: a table exactly when there are at most 256 symbols and the Kraft sum is at
        most 1. */
    method Build(count: seq<nat>) returns (ok: bool)
      requires Shape() && |count| == 16
      modifies fast, code, size, maxcode, delta
      ensures ok <==> |Sizes(count)| <= 256 && Canonical.Fits(Sizes(count))
      ensures ok ==> Holds(Sizes(count))
    {
      ghost var lens := Sizes(count);
      SizesAscend(count, 16);
      ok := ListSizes(count);
      if ok {
        var k;
        ok, k := AssignCodes(lens);
        if ok {
          FillFast(lens, k);
        }
      }
    }

    /** The size list, ended by a 0. */
    method ListSizes(count: seq<nat>) returns (ok: bool)
      requires Shape() && |count| == 16
      modifies size
      ensures ok <==> |Sizes(count)| <= 256
      ensures ok ==> Listed(Sizes(count))
    {
      hide SizesTo;
      var k := 0;
      NoSizes(count);
      for i := 0 to 16
        invariant k == |SizesTo(count, i)| <= 256 && size[..k] == SizesTo(count, i)
      {
        MoreSizes(count, i, 16);
        for j := 0 to count[i]
          invariant k == |SizesTo(count, i)| + j <= 256 && size[..k] == SizesTo(count, i) + Repeat(i + 1, j)
        {
          size[k] := i + 1;
          k := k + 1;
          if k >= 257 {
            return false;
          }
        }
      }
      size[k] := 0;
      ok := true;
    }

    /** The canonical codes, level by level. */
    method AssignCodes(ghost lens: seq<nat>) returns (ok: bool, k: nat)
      requires Shape() && Ascending(lens) && Listed(lens)
      modifies code, maxcode, delta
      ensures ok <==> Canonical.Fits(lens)
      ensures ok ==> k == |lens| && Coded(lens, k) && (forall l :: 1 <= l <= 16 ==> Level(lens, l)) && maxcode[17] >= 65536
    {
      hide Ascending, Below, FirstSym, First, End, Stop, Code, Canonical.Fits, Pow2;
      var c := 0;
      k := 0;
      Bottom(lens);
      var j := 1;
      while j <= 16
        invariant 1 <= j <= 17 && k <= |lens| && Below(lens, k, j) && k == FirstSym(lens, j) && c == 2 * End(lens, j - 1)
        invariant End(lens, j - 1) <= Pow2(j - 1) && Coded(lens, k)
        invariant forall l :: 1 <= l < j ==>
          delta[l] == FirstSym(lens, l) - First(lens, l) && maxcode[l] == Stop(lens, l)
      {
        delta[j] := k - c;
        ok, k, c := AssignLevel(lens, j, k, c);
        if !ok {
          return;
        }
        maxcode[j] := Shl(16 - j, c);
        StopIs(lens, j);
        c := 2 * c;
        j := j + 1;
      }
      maxcode[17] := 0xffff_ffff;
      AllFit(lens);
      AllBelow(lens, k);
      ok := true;
    }

    /** One level, and the check that its codes are not too many. */
    method AssignLevel(ghost lens: seq<nat>, j: nat, k0: nat, c0: nat) returns (ok: bool, k: nat, c: nat)
      requires Shape() && Ascending(lens) && Listed(lens) && 1 <= j <= 16 && Below(lens, k0, j) && Coded(lens, k0)
      requires k0 == FirstSym(lens, j) && c0 == 2 * End(lens, j - 1) && End(lens, j - 1) <= Pow2(j - 1)
      modifies code
      ensures !ok ==> !Canonical.Fits(lens)
      ensures ok ==> k <= |lens| && Below(lens, k, j + 1) && k == FirstSym(lens, j + 1) && Coded(lens, k)
      ensures ok ==> c == End(lens, j) <= Pow2(j) && First(lens, j) == c0
    {
      hide FirstSym, First, End, Code, Canonical.Fits;
      EndNext(lens, j);
      k, c := k0, c0;
      if size[k] == j {
        k, c := NumberLevel(lens, j, k, c);
        EndOfLevel(lens, j, k);
        if c - 1 >= Pow2(j) {
          OverFull(lens, j);
          return false, k, c;
        }
      } else {
        assert k < |lens| ==> size[..|lens|][k] == lens[k];
        EndOfLevel(lens, j, k);
        Double(lens, j);
      }
      ok := true;
    }

    /** The symbols of one level get consecutive codes. */
    method NumberLevel(ghost lens: seq<nat>, j: nat, k0: nat, c0: nat) returns (k: nat, c: nat)
      requires Shape() && Ascending(lens) && Listed(lens) && 1 <= j <= 16 && Below(lens, k0, j) && Coded(lens, k0)
      requires k0 == FirstSym(lens, j) && c0 == First(lens, j)
      modifies code
      ensures k >= k0 && c == c0 + (k - k0) && Below(lens, k, j + 1) && Coded(lens, k)
    {
      hide Ascending, FirstSym, First, End, Code;
      k, c := k0, c0;
      while size[k] == j
        invariant k0 <= k <= |lens| && c == c0 + (k - k0) && Coded(lens, k)
        invariant c0 == First(lens, j) && k0 == FirstSym(lens, j)
        invariant (forall i :: 0 <= i < k ==> lens[i] < j + 1) && forall i :: k <= i < |lens| ==> lens[i] >= j
        decreases |lens| - k
      {
        assert k < |lens| && size[..|lens|][k] == lens[k];
        CodeInOrder(lens, k);
        code[k] := c;
        k, c := k + 1, c + 1;
      }
      assert k < |lens| ==> size[..|lens|][k] == lens[k];
      Rise(lens, k, j);
    }

    /** Every index that starts with the code of symbol `i`. */
    method FillFast(ghost lens: seq<nat>, k: nat)
      requires Shape() && Ascending(lens) && Canonical.Fits(lens) && Listed(lens) && k == |lens| && Coded(lens, k)
      modifies fast
      ensures Fast(lens, k)
    {
      hide Code, Canonical.Fits;
      for w := 0 to 512
        invariant forall t :: 0 <= t < w ==> fast[t] == NOT_FAST
      {
        fast[w] := NOT_FAST;
      }
      for i := 0 to k
        invariant Fast(lens, i)
      {
        assert size[..|lens|][i] == lens[i];
        var s := size[i];
        if s <= FAST_BITS {
          EnterFast(lens, i, Shl(FAST_BITS - s, code[i]), Pow2(FAST_BITS - s));
        } else {
          forall w | 0 <= w < 512 ensures FastEntry(lens, i + 1, w, fast[w]) {
            assert FastEntry(lens, i, w, fast[w]);
          }
        }
      }
    }

    method EnterFast(ghost lens: seq<nat>, i: nat, c: nat, m: nat)
      requires Shape() && Canonical.Fits(lens) && i < |lens| && 1 <= lens[i] <= FAST_BITS && Fast(lens, i)
      requires c == Shl(FAST_BITS - lens[i], Code(lens, i)) && m == Pow2(FAST_BITS - lens[i])
      modifies fast
      ensures Fast(lens, i + 1)
    {
      hide Code, Canonical.Fits;
      Window(lens, i);
      for j := 0 to m
        invariant forall w :: 0 <= w < 512 ==> fast[w] == if c <= w < c + j then i % 256 else old(fast[w])
      {
        fast[c + j] := i % 256;
      }
      forall w | 0 <= w < 512 ensures FastEntry(lens, i + 1, w, fast[w]) {
        assert old(FastEntry(lens, i, w, fast[w]));
        Entered(lens, i, w, old(fast[w]), c, m);
      }
    }
  }

  /** The symbols before `k` are those with codes shorter than `j`. */
  ghost predicate Below(lens: seq<nat>, k: nat, j: nat) {
    && k <= |lens| && (forall i :: 0 <= i < k ==> lens[i] < j) && forall i :: k <= i < |lens| ==> lens[i] >= j
  }

  lemma AllBelow(lens: seq<nat>, k: nat)
    requires Ascending(lens) && Below(lens, k, 17)
    ensures k == |lens|
  {
    var i := if k < |lens| then k else 0;
    assert |lens| > 0 ==> lens[i] <= 16;
  }

  lemma Rise(lens: seq<nat>, k: nat, j: nat)
    requires Ascending(lens) && k <= |lens| && (forall i :: k <= i < |lens| ==> lens[i] >= j)
    requires k < |lens| ==> lens[k] != j
    ensures forall i :: k <= i < |lens| ==> lens[i] >= j + 1
  {
    forall i | k <= i < |lens| ensures lens[i] >= j + 1 {
      assert k < i ==> lens[k] <= lens[i];
    }
  }

  lemma CodeInOrder(lens: seq<nat>, k: nat)
    requires Ascending(lens) && k < |lens|
    ensures lens[k] >= 1 && Code(lens, k) == First(lens, lens[k]) + (k - FirstSym(lens, lens[k]))
  {
    SlotIsIndex(lens, k);
  }

  lemma Bottom(lens: seq<nat>)
    requires Ascending(lens)
    ensures Below(lens, 0, 1)
    ensures FirstSym(lens, 1) == 0 && End(lens, 0) == 0 && Pow2(0) == 1
  {
  }

  lemma EndNext(lens: seq<nat>, j: nat)
    requires j >= 1
    ensures End(lens, j) == 2 * End(lens, j - 1) + Count(lens, j) && First(lens, j) == 2 * End(lens, j - 1)
  {
  }

  /** The symbols of one level are those between two boundaries. */
  lemma EndOfLevel(lens: seq<nat>, j: nat, k: nat)
    requires Ascending(lens) && j >= 1 && k <= |lens|
    requires (forall i :: 0 <= i < k ==> lens[i] < j + 1) && forall i :: k <= i < |lens| ==> lens[i] >= j + 1
    ensures FirstSym(lens, j + 1) == k && k == FirstSym(lens, j) + Count(lens, j)
  {
    BoundaryIs(lens, k, j + 1);
  }

  lemma OverFull(lens: seq<nat>, j: nat)
    requires Ascending(lens) && 1 <= j <= 16 && End(lens, j) > Pow2(j)
    ensures !Canonical.Fits(lens)
  {
    if Canonical.Fits(lens) { FitsLevels(lens); }
  }

  lemma Double(lens: seq<nat>, j: nat)
    requires j >= 1 && End(lens, j - 1) <= Pow2(j - 1) && Count(lens, j) == 0
    ensures End(lens, j) <= Pow2(j)
  {
  }

  lemma StopIs(lens: seq<nat>, j: nat)
    requires j <= 16
    ensures Stop(lens, j) == Shl(16 - j, End(lens, j))
  {
  }

  lemma AllFit(lens: seq<nat>)
    requires Ascending(lens) && End(lens, 16) <= Pow2(16)
    ensures Canonical.Fits(lens)
  {
    KraftIsEnd(lens, |lens|);
    Pow2Values();
  }

  /** The nine-bit windows of a code are an interval. */
  lemma Window(lens: seq<nat>, i: nat)
    requires Canonical.Fits(lens) && i < |lens| && 1 <= lens[i] <= FAST_BITS
    ensures var c, m := Shl(FAST_BITS - lens[i], Code(lens, i)), Pow2(FAST_BITS - lens[i]);
      c + m <= 512 && forall w: nat :: c <= w < c + m <==> InNine(lens, i, w)
  {
    var t, c := FAST_BITS - lens[i], Code(lens, i);
    CodeBound(lens, i);
    ShlMono(t, c + 1, Pow2(lens[i]));
    ShlPow2(t, lens[i]);
    ShlSum(t, c, 1);
    ShlPow2(t, 0);
    Pow2Values();
    forall w: nat ensures Shl(t, c) <= w < Shl(t, c) + Pow2(t) <==> InNine(lens, i, w) {
      DropBetween(w, t, c, c + 1);
    }
  }

  lemma Entered(lens: seq<nat>, i: nat, w: nat, f: nat, c: nat, m: nat)
    requires Canonical.Fits(lens) && i < |lens| && 1 <= lens[i] <= FAST_BITS && w < 512
    requires FastEntry(lens, i, w, f) && (c <= w < c + m <==> InNine(lens, i, w))
    ensures FastEntry(lens, i + 1, w, if c <= w < c + m then i % 256 else f)
  {
    hide InNine;
    if InNine(lens, i, w) {
      forall t | 0 <= t < i && InNine(lens, t, w) ensures false {
        NineUnique(lens, t, i, w);
      }
    }
  }

  lemma NoSizes(count: seq<nat>)
    ensures SizesTo(count, 0) == []
  {
  }

  lemma {:induction false} MoreSizes(count: seq<nat>, i: nat, n: nat)
    requires i < n <= |count|
    ensures SizesTo(count, i + 1) == SizesTo(count, i) + Repeat(i + 1, count[i])
    ensures |SizesTo(count, i + 1)| <= |SizesTo(count, n)|
  {
    if i + 1 < n { MoreSizes(count, i, n - 1); }
  }
}
