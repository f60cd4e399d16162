/** Canonical Huffman codes (section 3.2.2 of RFC 1951): shorter codes first, and codes of one length
    in symbol order.  The JPEG tables of ITU-T T.81 annex C number their codes the same way, with
    lengths up to 16. */
module Canonical {
  import opened Bits

  /** Code lengths; 0 marks a symbol that does not occur. */
  ghost predicate Lengths(lens: seq<nat>, top: nat) {
    forall i :: 0 <= i < |lens| ==> lens[i] <= top
  }

  /** How many of the first `n` symbols have length `l`. */
  function CountTo(lens: seq<nat>, n: nat, l: nat): (c: nat)
    requires n <= |lens|
    ensures c <= n
  {
    if n == 0 then 0 else CountTo(lens, n - 1, l) + if lens[n - 1] == l then 1 else 0
  }

  function Count(lens: seq<nat>, l: nat): nat {
    CountTo(lens, |lens|, l)
  }

  /** One more than the last code of length `l`, among the first `n` symbols' lengths. */
  function EndTo(lens: seq<nat>, n: nat, l: nat): nat
    requires n <= |lens|
  {
    if l == 0 then 0 else 2 * EndTo(lens, n, l - 1) + CountTo(lens, n, l)
  }

  function End(lens: seq<nat>, l: nat): nat {
    EndTo(lens, |lens|, l)
  }

  /** The first code of length `l`. */
  function First(lens: seq<nat>, l: nat): nat
    requires l >= 1
  {
    2 * End(lens, l - 1)
  }

  /** How many symbols have a code shorter than `l`. */
  function FirstSym(lens: seq<nat>, l: nat): nat
    requires l >= 1
  {
    if l == 1 then 0 else FirstSym(lens, l - 1) + Count(lens, l - 1)
  }

  /** The code of symbol `i`, most significant bit first. */
  function Code(lens: seq<nat>, i: nat): nat
    requires i < |lens| && lens[i] >= 1
  {
    First(lens, lens[i]) + CountTo(lens, i, lens[i])
  }

  /** The Kraft sum of the first `n` symbols, in units of 2^-16. */
  function KraftTo(lens: seq<nat>, n: nat): nat
    requires n <= |lens| && Lengths(lens, 16)
  {
    if n == 0 then 0
    else KraftTo(lens, n - 1) + if lens[n - 1] == 0 then 0 else Pow2(16 - lens[n - 1])
  }

  /** The Kraft sum is at most 1. */
  ghost predicate Fits(lens: seq<nat>) {
    Lengths(lens, 16) && KraftTo(lens, |lens|) <= 65536
  }

  // ---------------------------------------------------------------- counting

  lemma {:induction false} CountMono(lens: seq<nat>, m: nat, n: nat, l: nat)
    requires m <= n <= |lens|
    ensures CountTo(lens, m, l) <= CountTo(lens, n, l)
    ensures m < n && lens[m] == l ==> CountTo(lens, m, l) < CountTo(lens, n, l)
    decreases n
  {
    if m < n {
      CountMono(lens, m, n - 1, l);
    }
  }

  /** The symbol of length `l` that has `o` symbols of that length before it. */
  lemma {:induction false} Nth(lens: seq<nat>, n: nat, l: nat, o: nat) returns (i: nat)
    requires n <= |lens| && o < CountTo(lens, n, l)
    ensures i < n && lens[i] == l && CountTo(lens, i, l) == o
  {
    if o < CountTo(lens, n - 1, l) {
      i := Nth(lens, n - 1, l, o);
    } else {
      i := n - 1;
    }
  }

  lemma {:induction false} FirstSymMono(lens: seq<nat>, l: nat, m: nat)
    requires 1 <= l < m
    ensures FirstSym(lens, l) + Count(lens, l) <= FirstSym(lens, m)
  {
    if l < m - 1 {
      FirstSymMono(lens, l, m - 1);
    }
  }

  /** Symbols with a length are numbered without gaps below the number of symbols. */
  lemma {:induction false} FirstSymBound(lens: seq<nat>, n: nat, l: nat)
    requires l >= 1 && n <= |lens|
    ensures FirstSymTo(lens, n, l) <= n
  {
    if n == 0 {
      FirstSymZero(lens, l);
    } else {
      FirstSymBound(lens, n - 1, l);
      FirstSymStep(lens, n - 1, l);
    }
  }

  function FirstSymTo(lens: seq<nat>, n: nat, l: nat): nat
    requires l >= 1 && n <= |lens|
  {
    if l == 1 then 0 else FirstSymTo(lens, n, l - 1) + CountTo(lens, n, l - 1)
  }

  lemma {:induction false} FirstSymZero(lens: seq<nat>, l: nat)
    requires l >= 1
    ensures FirstSymTo(lens, 0, l) == 0
  {
    if l > 1 { FirstSymZero(lens, l - 1); }
  }

  lemma {:induction false} FirstSymStep(lens: seq<nat>, n: nat, l: nat)
    requires l >= 1 && n < |lens|
    ensures FirstSymTo(lens, n + 1, l) == FirstSymTo(lens, n, l) + if 1 <= lens[n] < l then 1 else 0
  {
    if l > 1 { FirstSymStep(lens, n, l - 1); }
  }

  lemma {:induction false} FirstSymIsTo(lens: seq<nat>, l: nat)
    requires l >= 1
    ensures FirstSym(lens, l) == FirstSymTo(lens, |lens|, l) <= |lens|
  {
    FirstSymBound(lens, |lens|, l);
    if l > 1 { FirstSymIsTo(lens, l - 1); }
  }

  /** Where symbol `i` stands when symbols are sorted by length and then by number. */
  function Slot(lens: seq<nat>, i: nat): nat
    requires i < |lens| && lens[i] >= 1
  {
    FirstSym(lens, lens[i]) + CountTo(lens, i, lens[i])
  }

  lemma SlotBound(lens: seq<nat>, i: nat)
    requires i < |lens| && lens[i] >= 1
    ensures Slot(lens, i) < |lens|
  {
    var l := lens[i];
    FirstSymIsTo(lens, l + 1);
    CountMono(lens, i, |lens|, l);
  }

  lemma SlotsDiffer(lens: seq<nat>, i: nat, j: nat)
    requires i < |lens| && j < |lens| && lens[i] >= 1 && lens[j] >= 1 && i != j
    ensures Slot(lens, i) != Slot(lens, j)
  {
    CountMono(lens, i, |lens|, lens[i]);
    CountMono(lens, j, |lens|, lens[j]);
    if lens[i] < lens[j] {
      FirstSymMono(lens, lens[i], lens[j]);
    } else if lens[j] < lens[i] {
      FirstSymMono(lens, lens[j], lens[i]);
    } else if i < j {
      CountMono(lens, i, j, lens[i]);
    } else {
      CountMono(lens, j, i, lens[i]);
    }
  }

  // ---------------------------------------------------------------- Kraft's inequality

  lemma {:induction false} EndStep(lens: seq<nat>, n: nat, l: nat)
    requires n < |lens|
    ensures EndTo(lens, n + 1, l) ==
            EndTo(lens, n, l) + if 1 <= lens[n] <= l then Pow2(l - lens[n]) else 0
  {
    if l > 0 {
      EndStep(lens, n, l - 1);
    }
  }

  lemma {:induction false} EndZero(lens: seq<nat>, l: nat)
    ensures EndTo(lens, 0, l) == 0
  {
    if l > 0 { EndZero(lens, l - 1); }
  }

  lemma {:induction false} KraftIsEnd(lens: seq<nat>, n: nat)
    requires n <= |lens| && Lengths(lens, 16)
    ensures KraftTo(lens, n) == EndTo(lens, n, 16)
  {
    if n == 0 {
      EndZero(lens, 16);
    } else {
      KraftIsEnd(lens, n - 1);
      EndStep(lens, n - 1, 16);
    }
  }

  lemma {:induction false} EndGrows(lens: seq<nat>, l: nat, m: nat)
    requires l <= m
    ensures Shl(m - l, End(lens, l)) <= End(lens, m)
    decreases m
  {
    if l < m {
      EndGrows(lens, l, m - 1);
    }
  }

  /** The codes fit exactly when no level runs past its last code. */
  lemma FitsLevels(lens: seq<nat>)
    requires Lengths(lens, 16)
    ensures Fits(lens) <==> forall l :: 0 <= l <= 16 ==> End(lens, l) <= Pow2(l)
  {
    KraftIsEnd(lens, |lens|);
    Pow2Values();
    if Fits(lens) {
      forall l | 0 <= l <= 16 ensures End(lens, l) <= Pow2(l) {
        EndGrows(lens, l, 16);
        ShlPow2(16 - l, l);
        ShlMono(16 - l, End(lens, l), Pow2(l));
      }
    }
  }

  // ---------------------------------------------------------------- sixteen bits of look-ahead

  /** Codes of length `l` own the 16-bit windows below this and at or above `Stop(l - 1)`. */
  function Stop(lens: seq<nat>, l: nat): nat
    requires l <= 16
  {
    Shl(16 - l, End(lens, l))
  }

  lemma {:induction false} StopMono(lens: seq<nat>, l: nat, m: nat)
    requires l <= m <= 16
    ensures Stop(lens, l) <= Stop(lens, m)
    decreases m
  {
    if l < m {
      StopMono(lens, l, m - 1);
      StopFirst(lens, m);
      ShlMono(16 - m, First(lens, m), End(lens, m));
    }
  }

  lemma StopFirst(lens: seq<nat>, l: nat)
    requires 1 <= l <= 16
    ensures Stop(lens, l - 1) == Shl(16 - l, First(lens, l))
  {
    var e := End(lens, l - 1);
    ShlSum(16 - l, e, e);
  }

  /** The window starts with symbol `i`'s code. */
  ghost predicate InWindow(lens: seq<nat>, i: nat, w: nat) {
    i < |lens| && 1 <= lens[i] <= 16 && Drop(w, 16 - lens[i]) == Code(lens, i)
  }

  lemma CodeBound(lens: seq<nat>, i: nat)
    requires Fits(lens) && i < |lens| && lens[i] >= 1
    ensures First(lens, lens[i]) <= Code(lens, i) < End(lens, lens[i]) <= Pow2(lens[i])
  {
    CountMono(lens, i, |lens|, lens[i]);
    FitsLevels(lens);
  }

  lemma WindowLevel(lens: seq<nat>, i: nat, w: nat)
    requires Fits(lens) && InWindow(lens, i, w)
    ensures Stop(lens, lens[i] - 1) <= w < Stop(lens, lens[i])
  {
    var l := lens[i];
    CodeBound(lens, i);
    StopFirst(lens, l);
    DropBetween(w, 16 - l, First(lens, l), End(lens, l));
  }

  /** At most one code starts a window: no code is a prefix of another. */
  lemma WindowUnique(lens: seq<nat>, i: nat, j: nat, w: nat)
    requires Fits(lens) && InWindow(lens, i, w) && InWindow(lens, j, w)
    ensures i == j
  {
    WindowLevel(lens, i, w);
    WindowLevel(lens, j, w);
    if lens[i] < lens[j] {
      StopMono(lens, lens[i], lens[j] - 1);
    } else if lens[j] < lens[i] {
      StopMono(lens, lens[j], lens[i] - 1);
    } else if i < j {
      CountMono(lens, i, j, lens[i]);
    } else if j < i {
      CountMono(lens, j, i, lens[i]);
    }
  }

  /** A window on level `l` starts with the code whose offset it shows. */
  lemma WindowSymbol(lens: seq<nat>, l: nat, w: nat) returns (i: nat)
    requires 1 <= l <= 16 && Stop(lens, l - 1) <= w < Stop(lens, l)
    ensures InWindow(lens, i, w) && lens[i] == l
    ensures First(lens, l) <= Drop(w, 16 - l) < End(lens, l)
    ensures Slot(lens, i) == Drop(w, 16 - l) - First(lens, l) + FirstSym(lens, l)
  {
    var c := Drop(w, 16 - l);
    StopFirst(lens, l);
    DropBetween(w, 16 - l, First(lens, l), End(lens, l));
    i := Nth(lens, |lens|, l, c - First(lens, l));
  }

  lemma {:induction false} WindowLevelExists(lens: seq<nat>, w: nat, m: nat) returns (l: nat)
    requires m <= 16 && w < Stop(lens, m)
    ensures 1 <= l <= m && Stop(lens, l - 1) <= w < Stop(lens, l)
  {
    ShlZero(16);
    assert m > 0;
    if w < Stop(lens, m - 1) {
      l := WindowLevelExists(lens, w, m - 1);
    } else {
      l := m;
    }
  }

  // ---------------------------------------------------------------- codes inside a bit stream

  /** The stream `v` starts with symbol `i`'s code; codes go out most significant bit first. */
  ghost predicate StartsWith(lens: seq<nat>, i: nat, v: nat) {
    i < |lens| && lens[i] >= 1 && Take(v, lens[i]) == Rev(Code(lens, i), lens[i])
  }

  function PutSymbol(lens: seq<nat>, i: nat, rest: nat): nat
    requires i < |lens| && lens[i] >= 1
  {
    Put(Rev(Code(lens, i), lens[i]), lens[i], rest)
  }

  lemma PutStarts(lens: seq<nat>, i: nat, rest: nat)
    requires i < |lens| && lens[i] >= 1
    ensures StartsWith(lens, i, PutSymbol(lens, i, rest))
    ensures Drop(PutSymbol(lens, i, rest), lens[i]) == rest
  {
    RevBound(Code(lens, i), lens[i]);
    TakePut(Rev(Code(lens, i), lens[i]), lens[i], rest);
  }

  lemma StartsIsWindow(lens: seq<nat>, i: nat, v: nat)
    requires Fits(lens)
    ensures StartsWith(lens, i, v) <==> InWindow(lens, i, Rev(v, 16))
  {
    if i < |lens| && lens[i] >= 1 {
      var l := lens[i];
      var c := Code(lens, i);
      RevPrefix(v, l, 16 - l);
      RevTake(v, l);
      RevRev(v, l);
      RevRev(c, l);
      CodeBound(lens, i);
      TakeSmall(c, l);
    }
  }

  /** Section 3.2.2 of RFC 1951: the code is uniquely decodable. */
  lemma StartsUnique(lens: seq<nat>, i: nat, j: nat, v: nat)
    requires Fits(lens) && StartsWith(lens, i, v) && StartsWith(lens, j, v)
    ensures i == j
  {
    StartsIsWindow(lens, i, v);
    StartsIsWindow(lens, j, v);
    WindowUnique(lens, i, j, Rev(v, 16));
  }
}
