/** The decoding table `stbi__zhuffman`: a 512-entry table for codes of up to 9 bits, and per-length
    limits for the longer ones. */
module ZHuffman {
  import opened Bits
  import opened Canonical

  const FAST_BITS: nat := 9
  const NSYMS: nat := 288

  // ---------------------------------------------------------------- reversing sixteen bits

  /** Exchanges the two halves of each of the `k` lowest groups of `2 * g` bits: what one line of
      masks and shifts does in `stbi__bitreverse16`. */
  function SwapHalves(n: nat, g: nat, k: nat): nat
    decreases k
  {
    if k == 0 then 0
    else Put(Take(Drop(n, g), g), g, Put(Take(n, g), g, SwapHalves(Drop(n, g + g), g, k - 1)))
  }

  function BitReverse16(n: nat): nat {
    SwapHalves(SwapHalves(SwapHalves(SwapHalves(n, 1, 8), 2, 4), 4, 2), 8, 1)
  }

  /** `k` groups of `g` bits, each reversed in place. */
  ghost function RevGroups(n: nat, g: nat, k: nat): nat
    decreases k
  {
    if k == 0 then 0 else Put(Rev(n, g), g, RevGroups(Drop(n, g), g, k - 1))
  }

  lemma SwapOne(a: nat, b: nat, g: nat, x: nat, k: nat)
    requires a < Pow2(g) && b < Pow2(g) && k > 0
    ensures SwapHalves(Put(a, g, Put(b, g, x)), g, k) == Put(b, g, Put(a, g, SwapHalves(x, g, k - 1)))
  {
    var v := Put(a, g, Put(b, g, x));
    TakePut(a, g, Put(b, g, x));
    TakePut(b, g, x);
    Split(v, g, g);
  }

  lemma {:induction false} SwapReversed(n: nat, g: nat, k: nat)
    ensures SwapHalves(RevGroups(n, g, 2 * k), g, k) == RevGroups(n, g + g, k)
    decreases k
  {
    if k > 0 {
      var hi := Drop(n, g);
      var rest := Drop(hi, g);
      assert RevGroups(hi, g, 2 * k - 1) == Put(Rev(hi, g), g, RevGroups(rest, g, 2 * (k - 1)));
      RevBound(n, g);
      RevBound(hi, g);
      SwapOne(Rev(n, g), Rev(hi, g), g, RevGroups(rest, g, 2 * (k - 1)), k);
      SwapReversed(rest, g, k - 1);
      RevTwo(n, g, g);
      PutPut(Rev(hi, g), g, Rev(n, g), g, RevGroups(rest, g + g, k - 1));
      Split(n, g, g);
    }
  }

  lemma {:induction false} SingleBits(n: nat, k: nat)
    ensures RevGroups(n, 1, k) == Take(n, k)
    decreases k
  {
    if k > 0 {
      SingleBits(Drop(n, 1), k - 1);
      assert Pow2(0) == 1;
      assert Drop(n, 1) == Drop(n / 2, 0) && Rev(n, 1) == n % 2 + Rev(n / 2, 0);
      assert Shl(1, Take(n / 2, k - 1)) == 2 * Shl(0, Take(n / 2, k - 1));
    }
  }

  /** Only the low `2 * g * k` bits are looked at. */
  lemma {:induction false} SwapTake(n: nat, g: nat, k: nat)
    ensures SwapHalves(Take(n, 2 * g * k), g, k) == SwapHalves(n, g, k)
    decreases k
  {
    if k > 0 {
      var r := 2 * g * (k - 1);
      assert 2 * g * k == g + g + r;
      TakeTake(n, g, g + r);
      TakeTake(Drop(n, g), g, r);
      TakeTake(n, g + g, r);
      Split(n, g, g);
      SwapTake(Drop(n, g + g), g, k - 1);
    }
  }

  /** The four mask-and-shift lines reverse the low 16 bits. */
  lemma BitReverse16IsRev(n: nat)
    ensures BitReverse16(n) == Rev(n, 16)
  {
    SwapTake(n, 1, 8);
    SingleBits(n, 16);
    SwapReversed(n, 1, 8);
    SwapReversed(n, 2, 4);
    SwapReversed(n, 4, 2);
    SwapReversed(n, 8, 1);
    ShlZero(16);
    assert RevGroups(n, 16, 1) == Put(Rev(n, 16), 16, RevGroups(Drop(n, 16), 16, 0));
  }

  /** `stbi__bit_reverse`: reverse 16 bits and shift the surplus away. */
  function BitReverse(v: nat, bits: nat): (r: nat)
    requires bits <= 16
    ensures r == Rev(v, bits)
  {
    BitReverse16IsRev(v);
    RevPrefix(v, bits, 16 - bits);
    Drop(BitReverse16(v), 16 - bits)
  }

  // ---------------------------------------------------------------- the table

  /** What entry `f` of the fast table says about streams that start with the nine bits of `j`,
      when the first `n` symbols have been entered. */
  ghost predicate FastEntry(lens: seq<nat>, n: nat, j: nat, f: nat)
    requires n <= |lens|
  {
    if f == 0 then
      forall i :: 0 <= i < n && 1 <= lens[i] <= FAST_BITS ==> !StartsWith(lens, i, j)
    else
      var i, s := f % 512, f / 512;
      i < n && s == lens[i] && 1 <= s <= FAST_BITS && StartsWith(lens, i, j)
  }

  class HuffTable {
    const fast: array<nat>
    const firstcode: array<nat>
    const maxcode: array<nat>
    const firstsymbol: array<nat>
    const size: array<nat>
    const value: array<nat>

    ghost function Repr(): set<object> {
      {fast, firstcode, maxcode, firstsymbol, size, value}
    }

    ghost predicate Shape() {
      && fast.Length == 512 && firstcode.Length == 16 && maxcode.Length == 17
      && firstsymbol.Length == 16 && size.Length == NSYMS && value.Length == NSYMS
      && fast != firstcode && fast != maxcode && fast != firstsymbol && fast != size && fast != value
      && firstcode != maxcode && firstcode != firstsymbol && firstcode != size && firstcode != value
      && maxcode != firstsymbol && maxcode != size && maxcode != value
      && firstsymbol != size && firstsymbol != value && size != value
    }

    ghost predicate Levels(lens: seq<nat>)
      requires Shape()
      reads firstcode, maxcode, firstsymbol
    {
      maxcode[16] == 65536 && forall l :: 1 <= l <= 15 ==> Level(lens, l)
    }

    ghost predicate Level(lens: seq<nat>, l: nat)
      requires Shape() && 1 <= l <= 15
      reads firstcode, maxcode, firstsymbol
    {
      firstcode[l] == First(lens, l) && firstsymbol[l] == FirstSym(lens, l) && maxcode[l] == Stop(lens, l)
    }

    ghost predicate Slots(lens: seq<nat>, n: nat)
      requires Shape() && n <= |lens| <= NSYMS
      reads size, value
    {
      forall i :: 0 <= i < n && lens[i] >= 1 ==>
        Slot(lens, i) < NSYMS && size[Slot(lens, i)] == lens[i] && value[Slot(lens, i)] == i
    }

    ghost predicate Fast(lens: seq<nat>, n: nat)
      requires Shape() && n <= |lens|
      reads fast
    {
      forall j :: 0 <= j < 512 ==> FastEntry(lens, n, j, fast[j])
    }

    /** The table decodes the canonical code of `lens`. */
    ghost predicate Holds(lens: seq<nat>)
      reads Repr()
    {
      && Shape() && |lens| <= NSYMS && Lengths(lens, 15) && Fits(lens)
      && Levels(lens) && Slots(lens, |lens|) && Fast(lens, |lens|)
    }

    constructor ()
      ensures Shape() && fresh(Repr())
    {
      fast := new nat[512];
      firstcode := new nat[16];
      maxcode := new nat[17];
      firstsymbol := new nat[16];
      size := new nat[NSYMS];
      value := new nat[NSYMS];
    }

    /** `stbi__zbuild_huffman`: a table exactly when the Kraft sum is at most 1. */
    method Build(lens: seq<nat>) returns (ok: bool)
      requires Shape() && |lens| <= NSYMS && Lengths(lens, 15)
      modifies Repr()
      ensures ok <==> Fits(lens)
      ensures ok ==> Holds(lens)
    {
      var sizes := CountSizes(lens);
      var i := 1;
      while i < 16
        invariant 1 <= i <= 16
        invariant forall l :: 1 <= l < 16 ==> sizes[l] == Count(lens, l)
      {
        if sizes[i] > Pow2(i) {
          TooMany(lens, i);
          return false;
        }
        i := i + 1;
      }
      var next_code;
      ok, next_code := FillLevels(lens, sizes);
      if ok {
        FillSymbols(lens, next_code);
      }
    }

    method CountSizes(lens: seq<nat>) returns (sizes: array<nat>)
      requires Lengths(lens, 15)
      ensures fresh(sizes) && sizes.Length == 17 && sizes[0] == 0
      ensures forall l :: 1 <= l < 17 ==> sizes[l] == Count(lens, l)
    {
      sizes := new nat[17](_ => 0);
      for i := 0 to |lens|
        invariant forall l :: 0 <= l < 17 ==> sizes[l] == CountTo(lens, i, l)
      {
        sizes[lens[i]] := sizes[lens[i]] + 1;
      }
      sizes[0] := 0;
    }

    method FillLevels(lens: seq<nat>, sizes: array<nat>) returns (ok: bool, next_code: array<nat>)
      requires Shape() && |lens| <= NSYMS && Lengths(lens, 15)
      requires sizes !in Repr() && sizes.Length == 17
      requires forall l :: 1 <= l < 16 ==> sizes[l] == Count(lens, l)
      modifies firstcode, maxcode, firstsymbol
      ensures ok <==> Fits(lens)
      ensures ok ==> Levels(lens)
      ensures fresh(next_code) && next_code.Length == 16
      ensures ok ==> forall l :: 1 <= l < 16 ==> next_code[l] == First(lens, l)
    {
      next_code := new nat[16];
      ghost var firsts := seq(16, l requires 0 <= l < 16 => if l == 0 then 0 else First(lens, l));
      ghost var stops := seq(16, l requires 0 <= l < 16 => Stop(lens, l));
      ghost var syms := seq(16, l requires 0 <= l < 16 => if l == 0 then 0 else FirstSym(lens, l));
      var code, k := 0, 0;
      var i := 1;
      while i < 16
        invariant 1 <= i <= 16
        invariant code == 2 * End(lens, i - 1) && k == FirstSym(lens, i)
        invariant End(lens, i - 1) <= Pow2(i - 1)
        invariant forall l :: 1 <= l < i ==> next_code[l] == firsts[l] == firstcode[l]
        invariant forall l :: 1 <= l < i ==> firstsymbol[l] == syms[l] && maxcode[l] == stops[l]
      {
        next_code[i] := code;
        firstcode[i] := code;
        firstsymbol[i] := k;
        code := code + sizes[i];
        assert code == End(lens, i);
        if sizes[i] != 0 {
          if code - 1 >= Pow2(i) {
            TooMany(lens, i);
            return false, next_code;
          }
        }
        maxcode[i] := Shl(16 - i, code);
        code := 2 * code;
        k := k + sizes[i];
        i := i + 1;
      }
      maxcode[16] := 65536;
      EnoughRoom(lens);
      forall l | 1 <= l <= 15 ensures Level(lens, l) && next_code[l] == First(lens, l) {
        assert firsts[l] == First(lens, l) && stops[l] == Stop(lens, l) && syms[l] == FirstSym(lens, l);
      }
      return true, next_code;
    }

    method FillSymbols(lens: seq<nat>, next_code: array<nat>)
      requires Shape() && |lens| <= NSYMS && Lengths(lens, 15) && Fits(lens) && Levels(lens)
      requires next_code !in Repr() && next_code.Length == 16
      requires forall l :: 1 <= l < 16 ==> next_code[l] == First(lens, l)
      modifies fast, size, value, next_code
      ensures Holds(lens)
    {
      ClearFast(lens);
      for i := 0 to |lens|
        invariant forall l :: 1 <= l < 16 ==> next_code[l] == First(lens, l) + CountTo(lens, i, l)
        invariant Levels(lens) && Slots(lens, i) && Fast(lens, i)
      {
        if lens[i] != 0 {
          EnterSymbol(lens, i, next_code);
        }
      }
    }

    method ClearFast(lens: seq<nat>)
      requires Shape()
      modifies fast
      ensures Fast(lens, 0)
    {
      for j := 0 to 512
        invariant forall t :: 0 <= t < j ==> fast[t] == 0
      {
        fast[j] := 0;
      }
    }

    method EnterSymbol(lens: seq<nat>, i: nat, next_code: array<nat>)
      requires Shape() && i < |lens| <= NSYMS && 1 <= lens[i] <= 15 && Fits(lens) && Levels(lens)
      requires next_code !in Repr() && next_code.Length == 16
      requires next_code[lens[i]] == Code(lens, i)
      requires Slots(lens, i) && Fast(lens, i)
      modifies fast, size, value, next_code
      ensures Slots(lens, i + 1) && Fast(lens, i + 1)
      ensures forall l :: 0 <= l < 16 ==>
        next_code[l] == old(next_code[l]) + if l == lens[i] then 1 else 0
    {
      var s := lens[i];
      assert Level(lens, s);
      EnterSlot(lens, i, next_code[s] - firstcode[s] + firstsymbol[s]);
      if s <= FAST_BITS {
        CodeBound(lens, i);
        EnterFast(lens, i, BitReverse(next_code[s], s));
      } else {
        forall t | 0 <= t < 512 ensures FastEntry(lens, i + 1, t, fast[t]) {
          assert FastEntry(lens, i, t, fast[t]);
        }
      }
      next_code[s] := next_code[s] + 1;
    }

    method EnterSlot(lens: seq<nat>, i: nat, c: nat)
      requires Shape() && i < |lens| <= NSYMS && lens[i] >= 1
      requires c == Slot(lens, i) && Slots(lens, i)
      modifies size, value
      ensures Slots(lens, i + 1)
    {
      SlotBound(lens, i);
      forall t | 0 <= t < i && lens[t] >= 1 ensures Slot(lens, t) != c {
        SlotsDiffer(lens, t, i);
      }
      size[c] := lens[i];
      value[c] := i;
    }

    /** Enter symbol `i` at every index that starts with its code. */
    method EnterFast(lens: seq<nat>, i: nat, first: nat)
      requires Shape() && i < |lens| <= NSYMS && 1 <= lens[i] <= FAST_BITS
      requires first == Rev(Code(lens, i), lens[i]) && Fast(lens, i)
      modifies fast
      ensures Fast(lens, i + 1)
    {
      var s := lens[i];
      RevBound(Code(lens, i), s);
      FillFast(first, s, s * 512 + i);
      forall t | 0 <= t < 512 ensures FastEntry(lens, i + 1, t, fast[t]) {
        FastStep(lens, i, t, old(fast[t]), fast[t]);
      }
    }

    method FillFast(first: nat, s: nat, fastv: nat)
      requires Shape() && first < Pow2(s)
      modifies fast
      ensures forall t :: 0 <= t < 512 ==>
        fast[t] == if Take(t, s) == first then fastv else old(fast[t])
    {
      var j := first;
      ghost var q := 0;
      ShlZero(s);
      forall t | 0 <= t < j ensures Take(t, s) != first {
        TakeSmall(t, s);
      }
      while j < 512
        invariant j == Put(first, s, q)
        invariant forall t :: 0 <= t < j && t < 512 ==>
          fast[t] == if Take(t, s) == first then fastv else old(fast[t])
        invariant forall t :: j <= t < 512 ==> fast[t] == old(fast[t])
      {
        fast[j] := fastv;
        TakePut(first, s, q);
        forall t | j < t < j + Pow2(s) ensures Take(t, s) != first {
          NextIndex(first, s, q, t);
        }
        ShlSum(s, q, 1);
        ShlPow2(s, 0);
        j := j + Pow2(s);
        q := q + 1;
      }
    }
  }

  lemma FastStep(lens: seq<nat>, i: nat, t: nat, f: nat, f': nat)
    requires i < |lens| <= NSYMS && 1 <= lens[i] <= FAST_BITS && FastEntry(lens, i, t, f)
    requires f' == if Take(t, lens[i]) == Rev(Code(lens, i), lens[i]) then lens[i] * 512 + i else f
    ensures FastEntry(lens, i + 1, t, f')
  {
    if f' != f || Take(t, lens[i]) == Rev(Code(lens, i), lens[i]) {
      assert f' % 512 == i && f' / 512 == lens[i];
    }
  }

  /** Between an index and the next one, 2^s further on, the low `s` bits differ. */
  lemma NextIndex(first: nat, s: nat, q: nat, t: nat)
    requires first < Pow2(s) && Put(first, s, q) < t < Put(first, s, q) + Pow2(s)
    ensures Take(t, s) != first
  {
    if Take(t, s) == first {
      PutTake(t, s);
      ShlMono(s, Drop(t, s), q);
      ShlMono(s, q + 1, Drop(t, s));
      ShlSum(s, q, 1);
      ShlPow2(s, 0);
    }
  }

  lemma TooMany(lens: seq<nat>, l: nat)
    requires Lengths(lens, 15) && 1 <= l < 16 && End(lens, l) > Pow2(l)
    ensures !Fits(lens)
  {
    FitsLevels(lens);
  }

  lemma EnoughRoom(lens: seq<nat>)
    requires Lengths(lens, 15) && End(lens, 15) <= Pow2(15)
    ensures Fits(lens)
  {
    KraftIsEnd(lens, |lens|);
    NoSixteen(lens, |lens|);
    Pow2Values();
    assert End(lens, 16) == 2 * End(lens, 15) + Count(lens, 16);
  }

  lemma {:induction false} NoSixteen(lens: seq<nat>, n: nat)
    requires n <= |lens| && Lengths(lens, 15)
    ensures CountTo(lens, n, 16) == 0
  {
    if n > 0 { NoSixteen(lens, n - 1); }
  }
}
