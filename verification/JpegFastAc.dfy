/** `stbi__build_fast_ac`: one table lookup for the code, the run and the value of a small coefficient. */
module JpegFastAc {
  import opened Bits
  import opened JpegHuffman

  /** EXTEND of section F.2.2.1: `n` magnitude bits as a signed value. */
  function Extend(k: nat, n: nat): int
    requires n >= 1
  {
    if k < Pow2(n - 1) then k - (Pow2(n) - 1) else k
  }

  /** The value in `mag` bits behind a code of `len` bits, in nine bits `w`. */
  ghost function NineValue(w: nat, len: nat, mag: nat): int
    requires mag >= 1
  {
    Extend(Rev(Drop(Rev(w, FAST_BITS), len), mag), mag)
  }

  /** Symbol `s` at the nine bits `w` has its value within them, and the value fits in a byte. */
  ghost predicate Small(lens: seq<nat>, values: seq<byte>, s: nat, w: nat) {
    && s < |lens| && s < |values| && InNine(lens, s, w)
    && values[s] % 16 >= 1 && lens[s] + values[s] % 16 <= FAST_BITS
    && -128 <= NineValue(w, lens[s], values[s] % 16) <= 127
  }

  /** Entry `r` for the nine bits `w`, whose entry in the fast table is `f`. */
  ghost predicate FacEntry(lens: seq<nat>, values: seq<byte>, w: nat, f: nat, r: int) {
    && (r != 0 <==> f < NOT_FAST && Small(lens, values, f, w))
    && (r != 0 ==>
        && r % 16 == lens[f] + values[f] % 16 && r / 16 % 16 == values[f] / 16
        && r / 256 == NineValue(w, lens[f], values[f] % 16))
  }

  ghost predicate FacHolds(fac: seq<int>, h: JTable, lens: seq<nat>)
    requires h.Shape()
    reads h.fast, h.values
  {
    |fac| == 512 && forall w :: 0 <= w < 512 ==> FacEntry(lens, h.values[..], w, h.fast[w], fac[w])
  }

  lemma MagnitudeBits(w: nat, len: nat, mag: nat)
    requires len + mag <= FAST_BITS
    ensures Drop(Take(Shl(len, w), FAST_BITS), FAST_BITS - mag) == Rev(Drop(Rev(w, FAST_BITS), len), mag)
  {
    TakeBound(Shl(len, w), FAST_BITS);
    TopBits(Take(Shl(len, w), FAST_BITS), FAST_BITS, mag);
    ShiftOut(w, FAST_BITS, len);
  }

  method BuildFastAc(h: JTable, ghost lens: seq<nat>) returns (fac: seq<int>)
    requires h.Holds(lens)
    ensures FacHolds(fac, h, lens)
  {
    hide JTable.Holds, FacEntry;
    HoldsShape(h, lens);
    fac := [];
    for i := 0 to 512
      invariant |fac| == i
      invariant forall w :: 0 <= w < i ==> FacEntry(lens, h.values[..], w, h.fast[w], fac[w])
    {
      var r := FastAcEntry(h, lens, i);
      fac := fac + [r];
    }
  }

  method FastAcEntry(h: JTable, ghost lens: seq<nat>, i: nat) returns (r: int)
    requires h.Holds(lens) && i < 512
    ensures FacEntry(lens, h.values[..], i, h.fast[i], r)
  {
    hide JTable.Holds, InNine, Canonical.Fits, Drop, Take, Shl, Rev, NineValue;
    HoldsAt(h, lens, i);
    var fast := h.fast[i];
    r := 0;
    if fast < NOT_FAST {
      var rs := h.values[fast];
      var run, magbits, len := rs / 16 % 16, rs % 16, h.size[fast];
      if magbits != 0 && len + magbits <= FAST_BITS {
        var k: int := Drop(Take(Shl(len, i), FAST_BITS), FAST_BITS - magbits);
        MagnitudeBits(i, len, magbits);
        var m := Pow2(magbits - 1);
        if k < m {
          k := k - Pow2(magbits) + 1;
        }
        NineValueIs(i, len, magbits);
        if -128 <= k <= 127 {
          r := k * 256 + run * 16 + (len + magbits);
          Packed(k, run, len + magbits);
        }
      }
    }
  }

  lemma HoldsShape(h: JTable, lens: seq<nat>)
    requires h.Holds(lens)
    ensures h.Shape()
  {
  }

  lemma HoldsAt(h: JTable, lens: seq<nat>, w: nat)
    requires h.Holds(lens) && w < 512
    ensures h.Shape() && |lens| <= 256
    ensures h.fast[w] < NOT_FAST ==> h.fast[w] < |lens| && InNine(lens, h.fast[w], w) && h.size[h.fast[w]] == lens[h.fast[w]]
  {
    hide InNine, Canonical.Fits;
    var f := h.fast[w];
    assert FastEntry(lens, |lens|, w, f);
    if f < NOT_FAST {
      FastSymbol(lens, w, f);
      assert h.size[..|lens|][f] == lens[f];
    }
  }

  lemma NineValueIs(w: nat, len: nat, mag: nat)
    requires mag >= 1
    ensures NineValue(w, len, mag) == Extend(Rev(Drop(Rev(w, FAST_BITS), len), mag), mag)
  {
  }

  lemma Packed(k: int, run: nat, n: nat)
    requires run < 16 && n < 16
    ensures (k * 256 + run * 16 + n) % 16 == n && (k * 256 + run * 16 + n) / 16 % 16 == run
    ensures (k * 256 + run * 16 + n) / 256 == k
    ensures n > 0 ==> k * 256 + run * 16 + n != 0
  {
    assert k * 256 + run * 16 + n == 16 * (16 * k + run) + n;
  }

  /** What the fast table shows for nine bits is the symbol they start with. */
  lemma FastSymbol(lens: seq<nat>, w: nat, f: nat)
    requires FastEntry(lens, |lens|, w, f) && f != NOT_FAST && |lens| <= 256
    ensures f < |lens| && InNine(lens, f, w)
  {
    hide InNine;
    var i: nat :| i < |lens| && InNine(lens, i, w);
    assert f == i % 256;
  }
}
