/** The seven passes of an interlaced PNG (section 2.6 of RFC 2083): the de-interlacing half of
    `stbi__create_png_image`. */
module Adam7 {
  import opened Arith

  // ---------------------------------------------------------------- the tables

  function XOrig(p: nat): nat {
    match p case 1 => 4 case 3 => 2 case 5 => 1 case _ => 0
  }

  function YOrig(p: nat): nat {
    match p case 2 => 4 case 4 => 2 case 6 => 1 case _ => 0
  }

  function XSpc(p: nat): (s: nat)
    ensures s >= 1
  {
    match p case 0 => 8 case 1 => 8 case 2 => 4 case 3 => 4 case 4 => 2 case 5 => 2 case _ => 1
  }

  function YSpc(p: nat): (s: nat)
    ensures s >= 1
  {
    match p case 0 => 8 case 1 => 8 case 2 => 8 case 3 => 4 case 4 => 4 case _ => 2
  }

  /** How many positions `orig`, `orig + spc`, ... are below `len`. */
  function Steps(len: nat, orig: nat, spc: nat): int
    requires spc >= 1
  {
    (len - orig + spc - 1) / spc
  }

  /** Columns and rows of a pass. */
  function PassX(w: nat, p: nat): int {
    Steps(w, XOrig(p), XSpc(p))
  }

  function PassY(h: nat, p: nat): int {
    Steps(h, YOrig(p), YSpc(p))
  }

  // ---------------------------------------------------------------- each pixel in one pass

  /** The pass of the pixel in column `c` of row `r`. */
  function PassOf(r: nat, c: nat): (p: nat)
    ensures p < 7
  {
    if r % 2 == 1 then 6
    else if c % 2 == 1 then 5
    else if r % 4 == 2 then 4
    else if c % 4 == 2 then 3
    else if r % 8 == 4 then 2
    else if c % 8 == 4 then 1
    else 0
  }

  /** Its column and row within the pass. */
  function ColumnIn(p: nat, c: nat): nat {
    c / XSpc(p)
  }

  function RowIn(p: nat, r: nat): nat {
    r / YSpc(p)
  }

  /** Every pass has columns and rows from 0 on, and its pixels lie in the image. */
  lemma PassInRange(w: nat, h: nat, p: nat, i: nat, j: nat)
    requires p < 7
    ensures PassX(w, p) >= 0 && PassY(h, p) >= 0
    ensures i < PassX(w, p) <==> i * XSpc(p) + XOrig(p) < w
    ensures j < PassY(h, p) <==> j * YSpc(p) + YOrig(p) < h
  {
    StepsCount(w, XOrig(p), XSpc(p), i);
    StepsCount(h, YOrig(p), YSpc(p), j);
  }

  lemma StepsCount(len: nat, orig: nat, spc: nat, i: nat)
    requires spc == 1 || spc == 2 || spc == 4 || spc == 8
    requires orig < spc
    ensures Steps(len, orig, spc) >= 0
    ensures i < Steps(len, orig, spc) <==> i * spc + orig < len
  {
  }

  /** The pixels of a pass are in no other pass, each at its own column and row. */
  lemma PassOnce(p: nat, i: nat, j: nat)
    requires p < 7
    ensures var r, c := j * YSpc(p) + YOrig(p), i * XSpc(p) + XOrig(p);
      PassOf(r, c) == p && ColumnIn(p, c) == i && RowIn(p, r) == j
  {
    hide XSpc, YSpc, XOrig, YOrig, ColumnIn, RowIn;
    ColumnFacts(p, i);
    RowFacts(p, j);
  }

  lemma ColumnFacts(p: nat, i: nat)
    requires p < 7
    ensures var c := i * XSpc(p) + XOrig(p);
      && ColumnIn(p, c) == i
      && (p <= 1 ==> c % 8 == 4 * p && c % 4 == 0 && c % 2 == 0)
      && (2 <= p <= 3 ==> c % 4 == 2 * (p - 2) && c % 2 == 0)
      && (4 <= p <= 5 ==> c % 2 == p - 4)
  {
    Rests(i);
  }

  lemma RowFacts(p: nat, j: nat)
    requires p < 7
    ensures var r := j * YSpc(p) + YOrig(p);
      && RowIn(p, r) == j
      && (p <= 1 ==> r % 8 == 0 && r % 4 == 0 && r % 2 == 0)
      && (p == 2 ==> r % 8 == 4 && r % 4 == 0 && r % 2 == 0)
      && (3 <= p <= 4 ==> r % 4 == 2 * (p - 3) && r % 2 == 0)
      && (5 <= p <= 6 ==> r % 2 == p - 5)
  {
    Rests(j);
  }

  lemma Rests(k: nat)
    ensures k * 8 % 8 == 0 && k * 8 % 4 == 0 && k * 8 % 2 == 0 && k * 8 / 8 == k
    ensures (k * 8 + 4) % 8 == 4 && (k * 8 + 4) % 4 == 0 && (k * 8 + 4) % 2 == 0 && (k * 8 + 4) / 8 == k
    ensures k * 4 % 4 == 0 && k * 4 % 2 == 0 && k * 4 / 4 == k
    ensures (k * 4 + 2) % 4 == 2 && (k * 4 + 2) % 2 == 0 && (k * 4 + 2) / 4 == k
    ensures k * 2 % 2 == 0 && k * 2 / 2 == k && (k * 2 + 1) % 2 == 1 && (k * 2 + 1) / 2 == k
  {
    OfEight(k, 0);
    OfEight(k, 4);
    OfFour(k, 0);
    OfFour(k, 2);
    OfFour(2 * k, 0);
    OfFour(2 * k + 1, 0);
  }

  lemma OfEight(k: nat, r: nat)
    requires r < 8
    ensures (k * 8 + r) % 8 == r && (k * 8 + r) / 8 == k
  {
  }

  lemma OfFour(k: nat, r: nat)
    requires r < 4
    ensures (k * 4 + r) % 4 == r && (k * 4 + r) / 4 == k && (k * 4 + r) % 2 == r % 2
  {
  }

  /** Every pixel of the image is in its pass. */
  lemma PixelCovered(w: nat, h: nat, r: nat, c: nat)
    requires r < h && c < w
    ensures var p := PassOf(r, c);
      && ColumnIn(p, c) < PassX(w, p) && RowIn(p, r) < PassY(h, p)
      && ColumnIn(p, c) * XSpc(p) + XOrig(p) == c && RowIn(p, r) * YSpc(p) + YOrig(p) == r
  {
    hide PassX, PassY;
    var p := PassOf(r, c);
    SplitUp(c);
    SplitUp(r);
    PassInRange(w, h, p, ColumnIn(p, c), RowIn(p, r));
  }

  lemma SplitUp(c: nat)
    ensures c % 2 == 1 ==> c / 2 * 2 + 1 == c
    ensures c % 2 == 0 ==> c / 2 * 2 == c
    ensures c % 4 == 2 ==> c / 4 * 4 + 2 == c
    ensures c % 2 == 0 && c % 4 != 2 ==> c / 4 * 4 == c
    ensures c % 2 == 0 && c % 4 != 2 && c % 8 == 4 ==> c / 8 * 8 + 4 == c
    ensures c % 2 == 0 && c % 4 != 2 && c % 8 != 4 ==> c / 8 * 8 == c
  {
    RestOfFour(c);
    RestOfEight(c);
  }

  lemma RestOfFour(c: nat)
    ensures c % 2 == 0 ==> c % 4 == 0 || c % 4 == 2
  {
  }

  lemma RestOfEight(c: nat)
    ensures c % 4 == 0 ==> c % 8 == 0 || c % 8 == 4
  {
  }

  /** The pixels of all passes are as many as the image has. */
  function PassPixels(w: nat, h: nat, p: nat): int {
    PassX(w, p) * PassY(h, p)
  }

  lemma SizesAddUp(w: nat, h: nat)
    ensures PassPixels(w, h, 0) + PassPixels(w, h, 1) + PassPixels(w, h, 2) + PassPixels(w, h, 3) +
            PassPixels(w, h, 4) + PassPixels(w, h, 5) + PassPixels(w, h, 6) == w * h
  {
    hide PassX, PassY;
    Halves(w, h);
    var x0, x1, x2, x3, x4, x5 := PassX(w, 0), PassX(w, 1), PassX(w, 2), PassX(w, 3), PassX(w, 4), PassX(w, 5);
    var y0, y2, y4, y6 := PassY(h, 0), PassY(h, 2), PassY(h, 4), PassY(h, 6);
    calc {
      x0 * y0 + x1 * y0 + x2 * y2 + x3 * (y0 + y2) + x4 * y4 + x5 * (y0 + y2 + y4) + w * y6;
      { assert x0 * y0 + x1 * y0 == x2 * y0; }
      x2 * y0 + x2 * y2 + x3 * (y0 + y2) + x4 * y4 + x5 * (y0 + y2 + y4) + w * y6;
      { assert x2 * y0 + x2 * y2 == x2 * (y0 + y2); }
      x2 * (y0 + y2) + x3 * (y0 + y2) + x4 * y4 + x5 * (y0 + y2 + y4) + w * y6;
      { assert x2 * (y0 + y2) + x3 * (y0 + y2) == x4 * (y0 + y2); }
      x4 * (y0 + y2) + x4 * y4 + x5 * (y0 + y2 + y4) + w * y6;
      { assert x4 * (y0 + y2) + x4 * y4 == x4 * (y0 + y2 + y4); }
      x4 * (y0 + y2 + y4) + x5 * (y0 + y2 + y4) + w * y6;
      { assert x4 * (y0 + y2 + y4) + x5 * (y0 + y2 + y4) == w * (y0 + y2 + y4); }
      w * (y0 + y2 + y4) + w * y6;
      w * h;
    }
  }

  /** Each pass fills the gaps between those before it. */
  lemma Halves(w: nat, h: nat)
    ensures PassX(w, 0) + PassX(w, 1) == PassX(w, 2) && PassX(w, 2) + PassX(w, 3) == PassX(w, 4)
    ensures PassX(w, 4) + PassX(w, 5) == PassX(w, 6) == w
    ensures PassY(h, 1) == PassY(h, 0) && PassY(h, 3) == PassY(h, 0) + PassY(h, 2)
    ensures PassY(h, 5) == PassY(h, 3) + PassY(h, 4) && PassY(h, 5) + PassY(h, 6) == h
  {
    InHalves(w);
    InHalves(h);
  }

  lemma InHalves(n: nat)
    ensures Steps(n, 0, 8) + Steps(n, 4, 8) == Steps(n, 0, 4) && Steps(n, 0, 4) + Steps(n, 2, 4) == Steps(n, 0, 2)
    ensures Steps(n, 0, 2) + Steps(n, 1, 2) == Steps(n, 0, 1) == n
  {
    var q, r := n / 8, n % 8;
    StepsOf(q, r);
  }

  lemma StepsOf(q: nat, r: nat)
    requires r < 8
    ensures Steps(8 * q + r, 0, 8) == q + (if r > 0 then 1 else 0) && Steps(8 * q + r, 4, 8) == q + (if r > 4 then 1 else 0)
    ensures Steps(8 * q + r, 0, 4) == 2 * q + (if r > 4 then 2 else if r > 0 then 1 else 0)
    ensures Steps(8 * q + r, 2, 4) == 2 * q + (if r > 6 then 2 else if r > 2 then 1 else 0)
    ensures Steps(8 * q + r, 0, 2) == 4 * q + (r + 1) / 2 && Steps(8 * q + r, 1, 2) == 4 * q + r / 2
    ensures Steps(8 * q + r, 0, 1) == 8 * q + r
  {
  }

  // ---------------------------------------------------------------- putting the passes together

  /** The seven small images. */
  ghost predicate Passes<T>(ps: seq<seq<T>>, w: nat, h: nat) {
    |ps| == 7 && forall p :: 0 <= p < 7 ==> |ps[p]| == PassPixels(w, h, p)
  }

  /** The pixel of the image that belongs in column `c` of row `r`. */
  ghost function Pixel<T>(ps: seq<seq<T>>, w: nat, h: nat, r: nat, c: nat): T
    requires Passes(ps, w, h) && r < h && c < w
  {
    PixelCovered(w, h, r, c);
    var p := PassOf(r, c);
    PlaceBound(PassX(w, p), PassY(h, p), RowIn(p, r), ColumnIn(p, c));
    Commute(PassX(w, p), PassY(h, p));
    ps[p][Place(PassX(w, p), RowIn(p, r), ColumnIn(p, c))]
  }

  /** The copying loops: every pixel gets its own, whatever was there before. */
  method Deinterlace<T>(ps: seq<seq<T>>, w: nat, h: nat, final: array<T>)
    requires Passes(ps, w, h) && final.Length == h * w
    modifies final
    ensures forall r: nat, c: nat :: r < h && c < w ==> At(final[..], w, h, r, c) == Pixel(ps, w, h, r, c)
  {
    hide At, Pixel, PassOf, Passes, PassPixels, PassX, PassY, RowIn, ColumnIn;
    for p := 0 to 7
      invariant forall r: nat, c: nat :: r < h && c < w && PassOf(r, c) < p ==>
        At(final[..], w, h, r, c) == Pixel(ps, w, h, r, c)
    {
      PassInRange(w, h, p, 0, 0);
      var x, y := PassX(w, p), PassY(h, p);
      if x != 0 && y != 0 {
        CopyPass(ps, w, h, final, p, x, y);
      } else {
        forall r: nat, c: nat | r < h && c < w && PassOf(r, c) == p ensures false {
          NoPixel(w, h, p, r, c);
        }
      }
    }
  }

  /** The pixel is in pass `p`, before row `j`, or in it before column `i`. */
  ghost predicate Copied(p: nat, j: nat, i: nat, r: nat, c: nat) {
    PassOf(r, c) == p && (RowIn(p, r) < j || (RowIn(p, r) == j && ColumnIn(p, c) < i))
  }

  /** The image is `was` but for the pixels that have been copied. */
  ghost predicate Partly<T>(ps: seq<seq<T>>, w: nat, h: nat, now: seq<T>, was: seq<T>, p: nat, j: nat, i: nat)
    requires Passes(ps, w, h)
  {
    && |now| == |was| == h * w
    && forall r: nat, c: nat :: r < h && c < w ==>
         At(now, w, h, r, c) == if Copied(p, j, i, r, c) then Pixel(ps, w, h, r, c) else At(was, w, h, r, c)
  }

  method CopyPass<T>(ps: seq<seq<T>>, w: nat, h: nat, final: array<T>, p: nat, x: nat, y: nat)
    requires Passes(ps, w, h) && final.Length == h * w && p < 7 && x == PassX(w, p) && y == PassY(h, p)
    modifies final
    ensures forall r: nat, c: nat :: r < h && c < w ==>
      At(final[..], w, h, r, c) ==
      if PassOf(r, c) == p then Pixel(ps, w, h, r, c) else At(old(final[..]), w, h, r, c)
  {
    hide At, Pixel, PassOf, Passes, PassPixels, PassX, PassY, RowIn, ColumnIn, Copied, Partly;
    ghost var was := final[..];
    NoneCopied(ps, w, h, was, p);
    for j := 0 to y
      invariant Partly(ps, w, h, final[..], was, p, j, 0)
    {
      for i := 0 to x
        invariant Partly(ps, w, h, final[..], was, p, j, i)
      {
        PassInRange(w, h, p, i, j);
        var out_y := j * YSpc(p) + YOrig(p);
        var out_x := i * XSpc(p) + XOrig(p);
        ghost var now := final[..];
        InPass(ps, w, h, p, i, j);
        PlaceBound(w, h, out_y, out_x);
        final[Place(w, out_y, out_x)] := ps[p][Place(x, j, i)];
        OneMore(ps, w, h, now, final[..], was, p, j, i, out_y, out_x);
      }
      RowCopied(ps, w, h, final[..], was, p, j);
    }
    AllCopied(ps, w, h, final[..], was, p);
  }

  lemma NoneCopied<T>(ps: seq<seq<T>>, w: nat, h: nat, was: seq<T>, p: nat)
    requires Passes(ps, w, h) && |was| == h * w
    ensures Partly(ps, w, h, was, was, p, 0, 0)
  {
    hide At, Pixel;
  }

  /** The pixel of pass `p` at column `i` of row `j`. */
  lemma InPass<T>(ps: seq<seq<T>>, w: nat, h: nat, p: nat, i: nat, j: nat)
    requires Passes(ps, w, h) && p < 7 && i < PassX(w, p) && j < PassY(h, p)
    ensures var r, c := j * YSpc(p) + YOrig(p), i * XSpc(p) + XOrig(p);
      && p < |ps| && r < h && c < w && PassOf(r, c) == p && RowIn(p, r) == j && ColumnIn(p, c) == i
      && Place(PassX(w, p), j, i) < |ps[p]| && Pixel(ps, w, h, r, c) == ps[p][Place(PassX(w, p), j, i)]
  {
    hide PassOf, PassX, PassY, RowIn, ColumnIn, Place;
    PassInRange(w, h, p, i, j);
    PassOnce(p, i, j);
    PlaceBound(PassX(w, p), PassY(h, p), j, i);
    Commute(PassX(w, p), PassY(h, p));
  }

  lemma OneMore<T>(ps: seq<seq<T>>, w: nat, h: nat, now: seq<T>, now': seq<T>, was: seq<T>, p: nat, j: nat, i: nat,
                   y: nat, x: nat)
    requires Passes(ps, w, h) && Partly(ps, w, h, now, was, p, j, i) && y < h && x < w
    requires p < 7 && y == j * YSpc(p) + YOrig(p) && x == i * XSpc(p) + XOrig(p)
    requires Place(w, y, x) < |now| && now' == now[Place(w, y, x) := Pixel(ps, w, h, y, x)]
    ensures Partly(ps, w, h, now', was, p, j, i + 1)
  {
    hide Pixel, PassOf, RowIn, ColumnIn, Passes, Place;
    PassOnce(p, i, j);
    forall r: nat, c: nat | r < h && c < w
      ensures At(now', w, h, r, c) == if Copied(p, j, i + 1, r, c) then Pixel(ps, w, h, r, c) else At(was, w, h, r, c)
    {
      PlaceBound(w, h, r, c);
      PixelCovered(w, h, r, c);
      if Place(w, r, c) == Place(w, y, x) {
        PlaceUnique(w, r, c, y, x);
      } else {
        assert At(now', w, h, r, c) == At(now, w, h, r, c);
      }
    }
  }

  lemma RowCopied<T>(ps: seq<seq<T>>, w: nat, h: nat, now: seq<T>, was: seq<T>, p: nat, j: nat)
    requires Passes(ps, w, h) && p < 7 && PassX(w, p) >= 0 && Partly(ps, w, h, now, was, p, j, PassX(w, p))
    ensures Partly(ps, w, h, now, was, p, j + 1, 0)
  {
    hide Pixel, At, PassOf, RowIn, ColumnIn, PassX, PassY, Passes;
    forall r: nat, c: nat | r < h && c < w
      ensures At(now, w, h, r, c) == if Copied(p, j + 1, 0, r, c) then Pixel(ps, w, h, r, c) else At(was, w, h, r, c)
    {
      PixelCovered(w, h, r, c);
    }
  }

  lemma AllCopied<T>(ps: seq<seq<T>>, w: nat, h: nat, now: seq<T>, was: seq<T>, p: nat)
    requires Passes(ps, w, h) && p < 7 && PassY(h, p) >= 0 && Partly(ps, w, h, now, was, p, PassY(h, p), 0)
    ensures |now| == |was| == h * w
    ensures forall r: nat, c: nat :: r < h && c < w ==>
      At(now, w, h, r, c) == if PassOf(r, c) == p then Pixel(ps, w, h, r, c) else At(was, w, h, r, c)
  {
    hide Pixel, At, PassOf, RowIn, ColumnIn, PassX, PassY, Passes;
    forall r: nat, c: nat | r < h && c < w
      ensures At(now, w, h, r, c) == if PassOf(r, c) == p then Pixel(ps, w, h, r, c) else At(was, w, h, r, c)
    {
      PixelCovered(w, h, r, c);
    }
  }

  lemma NoPixel(w: nat, h: nat, p: nat, r: nat, c: nat)
    requires r < h && c < w && p < 7 && PassX(w, p) * PassY(h, p) == 0
    ensures PassOf(r, c) != p
  {
    hide PassX, PassY;
    PixelCovered(w, h, r, c);
    PassInRange(w, h, p, 0, 0);
  }
}
