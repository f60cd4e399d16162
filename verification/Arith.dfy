/** Products and quotients of numbers that are not negative, and the checks on image sizes made of them. */
module Arith {

  const INT_MAX: nat := 0x7fff_ffff

  lemma Mono(a: nat, b: nat, c: nat)
    requires a <= b
    ensures a * c <= b * c && c * a <= c * b
  {
  }

  lemma Step(a: nat, w: nat)
    requires a > 0
    ensures a * w == (a - 1) * w + w >= w && w * a == w * (a - 1) + w
  {
  }

  lemma Commute(a: int, b: int)
    ensures a * b == b * a
  {
  }

  lemma DivBound(a: nat, b: nat, m: nat)
    requires b > 0
    ensures a <= m / b <==> a * b <= m
  {
    if a <= m / b {
      Mono(a, m / b, b);
    } else {
      Mono(m / b + 1, a, b);
      Step(m / b + 1, b);
    }
  }

  /** Position `r * w + c`. */
  function Place(w: nat, r: nat, c: nat): nat {
    r * w + c
  }

  /** Positions in `h` rows of `w` are below the area and distinct. */
  lemma PlaceBound(w: nat, h: nat, r: nat, c: nat)
    requires c < w && r < h
    ensures Place(w, r, c) < h * w
  {
    Mono(r + 1, h, w);
    Step(r + 1, w);
  }

  lemma PlaceUnique(w: nat, r: nat, c: nat, r': nat, c': nat)
    requires c < w && c' < w && Place(w, r, c) == Place(w, r', c')
    ensures r == r' && c == c'
  {
    if r < r' {
      PlaceLess(w, r, c, r', c');
    } else if r' < r {
      PlaceLess(w, r', c', r, c);
    }
  }

  /** A later row comes later. */
  lemma PlaceLess(w: nat, r: nat, c: nat, r': nat, c': nat)
    requires c < w && r < r'
    ensures Place(w, r, c) < Place(w, r', c')
  {
    Step(r + 1, w);
    Mono(r + 1, r', w);
  }

  /** Every position is some row and column. */
  lemma {:induction false} PlaceExists(w: nat, h: nat, p: nat) returns (r: nat, c: nat)
    requires p < h * w
    ensures r < h && c < w && p == Place(w, r, c)
    decreases h
  {
    if h > 0 {
      Step(h, w);
      if p >= (h - 1) * w {
        r, c := h - 1, p - (h - 1) * w;
      } else {
        r, c := PlaceExists(w, h - 1, p);
      }
    }
  }

  /** The element in column `c` of row `r`. */
  function At<T>(s: seq<T>, w: nat, h: nat, r: nat, c: nat): T
    requires |s| == h * w && r < h && c < w
  {
    PlaceBound(w, h, r, c);
    s[Place(w, r, c)]
  }

  /** `stbi__addsizes_valid`, `stbi__mul2sizes_valid` and `stbi__mad3sizes_valid`, for sizes that are not
      negative. */
  predicate AddSizesValid(a: nat, b: nat)
    requires b <= INT_MAX
  {
    a <= INT_MAX - b
  }

  predicate Mul2SizesValid(a: nat, b: nat) {
    if b == 0 then true else a <= INT_MAX / b
  }

  predicate Mad3SizesValid(a: nat, b: nat, c: nat, add: nat)
    requires add <= INT_MAX
  {
    Mul2SizesValid(a, b) && Mul2SizesValid(a * b, c) && AddSizesValid(a * b * c, add)
  }

  /** The checks pass exactly when nothing overflows. */
  lemma SizesFit(a: nat, b: nat, c: nat, add: nat)
    requires add <= INT_MAX
    ensures Mul2SizesValid(a, b) <==> a * b <= INT_MAX
    ensures Mad3SizesValid(a, b, c, add) <==> a * b <= INT_MAX && a * b * c + add <= INT_MAX
  {
    if b > 0 { DivBound(a, b, INT_MAX); }
    if c > 0 { DivBound(a * b, c, INT_MAX); }
  }
}
