/** The fixed codes of section 3.2.6 of RFC 1951 and the tables of section 3.2.5. */
module FixedCodes {
  import opened Bits
  import opened Canonical
  import opened Deflate

  function Clamp(n: int, top: nat): nat {
    if n < 0 then 0 else if n > top then top else n
  }

  lemma {:induction false} LiteralCount(n: nat, l: nat)
    requires n <= 288
    ensures CountTo(FixedLiterals(), n, l) ==
      if l == 7 then Clamp(n - 256, 24)
      else if l == 8 then Clamp(n, 144) + Clamp(n - 280, 8)
      else if l == 9 then Clamp(n - 144, 112)
      else 0
  {
    if n > 0 { LiteralCount(n - 1, l); }
  }

  lemma {:induction false} DistanceCount(n: nat, l: nat)
    requires n <= 32
    ensures CountTo(FixedDistances(), n, l) == if l == 5 then n else 0
  {
    if n > 0 { DistanceCount(n - 1, l); }
  }

  lemma {:induction false} LiteralEnd(l: nat)
    requires l <= 16
    ensures l < 7 ==> End(FixedLiterals(), l) == 0
    ensures l == 7 ==> End(FixedLiterals(), l) == 24
    ensures l == 8 ==> End(FixedLiterals(), l) == 200
    ensures l >= 9 ==> End(FixedLiterals(), l) == Pow2(l)
  {
    if l > 0 {
      LiteralEnd(l - 1);
      LiteralCount(288, l);
      Pow2Values();
    }
  }

  lemma {:induction false} DistanceEnd(l: nat)
    requires l <= 16
    ensures End(FixedDistances(), l) == if l < 5 then 0 else Pow2(l)
  {
    if l > 0 {
      DistanceEnd(l - 1);
      DistanceCount(32, l);
      Pow2Values();
    }
  }

  /** The fixed codes are complete. */
  lemma FixedFits()
    ensures Fits(FixedLiterals()) && Fits(FixedDistances())
  {
    LiteralEnd(16);
    DistanceEnd(16);
    Pow2Values();
    KraftIsEnd(FixedLiterals(), 288);
    KraftIsEnd(FixedDistances(), 32);
  }

  /** The codes the writer's macros spell out are the canonical ones. */
  lemma LiteralCode(s: nat)
    requires s < 288
    ensures Code(FixedLiterals(), s) ==
      if s < 144 then 0x30 + s else if s < 256 then 0x190 + s - 144
      else if s < 280 then s - 256 else 0xc0 + s - 280
  {
    LiteralEnd(FixedLength(s) - 1);
    LiteralCount(s, FixedLength(s));
  }

  lemma DistanceCode(s: nat)
    requires s < 32
    ensures Code(FixedDistances(), s) == s
  {
    DistanceEnd(4);
    DistanceCount(s, 5);
  }
}
