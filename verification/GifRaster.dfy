/** Where the colours of a GIF frame go: the cursor of `stbi__out_gif_code` (appendix E of GIF89a). */
module GifRaster {
  import opened Arith
  import opened Bits

  /** Four bytes, as they lie in a colour table (blue first) or in the image (red first). */
  datatype Quad = Quad(c0: byte, c1: byte, c2: byte, c3: byte)

  /** A frame `w` by `h` at (`x`, `y`) of an image `gw` wide. */
  datatype Frame = Frame(gw: nat, x: nat, y: nat, w: nat, h: nat, interlaced: bool)

  ghost predicate Fits(f: Frame, pixels: nat) {
    f.x + f.w <= f.gw && f.gw * (f.y + f.h) <= pixels
  }

  // ---------------------------------------------------------------- the order of the rows

  /** How many rows the four passes have. */
  function PassRows(h: nat, pass: nat): nat {
    match pass case 0 => (h + 7) / 8 case 1 => (h + 3) / 8 case 2 => (h + 1) / 4 case _ => h / 2
  }

  /** The `i`th row to arrive: every 8th, every 8th from 4 on, every 4th from 2 on, every 2nd from 1 on. */
  function RowAt(f: Frame, i: nat): nat {
    var n0 := PassRows(f.h, 0);
    var n1 := n0 + PassRows(f.h, 1);
    var n2 := n1 + PassRows(f.h, 2);
    if !f.interlaced then i
    else if i < n0 then 8 * i
    else if i < n1 then 4 + 8 * (i - n0)
    else if i < n2 then 2 + 4 * (i - n1)
    else 1 + 2 * (i - n2)
  }

  /** When row `y` arrives. */
  function RankOf(f: Frame, y: nat): nat {
    var n0 := PassRows(f.h, 0);
    var n1 := n0 + PassRows(f.h, 1);
    var n2 := n1 + PassRows(f.h, 2);
    if !f.interlaced then y
    else if y % 8 == 0 then y / 8
    else if y % 8 == 4 then n0 + y / 8
    else if y % 4 == 2 then n1 + y / 4
    else n2 + y / 2
  }

  /** Every row arrives once, whatever the height. */
  lemma RowsOnce(f: Frame, i: nat, y: nat)
    ensures i < f.h ==> RowAt(f, i) < f.h && RankOf(f, RowAt(f, i)) == i
    ensures y < f.h ==> RankOf(f, y) < f.h && RowAt(f, RankOf(f, y)) == y
  {
    hide RowAt, RankOf;
    if i < f.h { RowThere(f, i); }
    if y < f.h { RowBack(f, y); }
  }

  lemma RowThere(f: Frame, i: nat)
    requires i < f.h
    ensures RowAt(f, i) < f.h && RankOf(f, RowAt(f, i)) == i
  {
    hide PassRows;
    PassesFill(f.h);
    var n0, n1, n2 := PassRows(f.h, 0), PassRows(f.h, 1), PassRows(f.h, 2);
    Remainders(if i < n0 then i else if i < n0 + n1 then i - n0 else if i < n0 + n1 + n2 then i - n0 - n1 else i - n0 - n1 - n2);
  }

  lemma RowBack(f: Frame, y: nat)
    requires y < f.h
    ensures RankOf(f, y) < f.h && RowAt(f, RankOf(f, y)) == y
  {
    hide PassRows;
    PassesFill(f.h);
    Split8(y);
  }

  lemma Remainders(k: nat)
    ensures 8 * k % 8 == 0 && 8 * k / 8 == k
    ensures (4 + 8 * k) % 8 == 4 && (4 + 8 * k) / 8 == k
    ensures (2 + 4 * k) % 4 == 2 && (2 + 4 * k) / 4 == k && (2 + 4 * k) % 8 != 0 && (2 + 4 * k) % 8 != 4
    ensures (1 + 2 * k) % 4 != 2 && (1 + 2 * k) / 2 == k && (1 + 2 * k) % 8 != 0 && (1 + 2 * k) % 8 != 4
  {
  }

  lemma Split8(y: nat)
    ensures y % 8 == 0 ==> 8 * (y / 8) == y
    ensures y % 8 == 4 ==> 4 + 8 * (y / 8) == y
    ensures y % 4 == 2 ==> 2 + 4 * (y / 4) == y
    ensures y % 8 != 0 && y % 8 != 4 && y % 4 != 2 ==> 1 + 2 * (y / 2) == y
  {
  }

  /** The four passes have all the rows, and each has those of its own remainder. */
  lemma PassesFill(h: nat)
    ensures PassRows(h, 0) + PassRows(h, 1) + PassRows(h, 2) + PassRows(h, 3) == h
    ensures 8 * PassRows(h, 0) < h + 8 && 8 * PassRows(h, 0) >= h
    ensures 8 * PassRows(h, 1) < h + 4 && 8 * PassRows(h, 1) + 4 >= h
    ensures 4 * PassRows(h, 2) < h + 2 && 4 * PassRows(h, 2) + 2 >= h
    ensures 2 * PassRows(h, 3) < h + 1 && 2 * PassRows(h, 3) + 1 >= h
  {
    var q, r := h / 8, h % 8;
    Quotients(q, r);
  }

  lemma Quotients(q: nat, r: nat)
    requires r < 8
    ensures (8 * q + r + 7) / 8 == q + if r == 0 then 0 else 1
    ensures (8 * q + r + 3) / 8 == q + if r <= 4 then 0 else 1
    ensures (8 * q + r + 1) / 4 == 2 * q + if r <= 2 then 0 else if r <= 6 then 1 else 2
    ensures (8 * q + r) / 2 == 4 * q + if r <= 1 then 0 else if r <= 3 then 1 else if r <= 5 then 2 else 3
  {
  }

  // ---------------------------------------------------------------- the cursor

  /** Row number in order of arrival, and column; past the last row nothing moves. */
  function Next(f: Frame, at: (nat, nat)): (nat, nat) {
    if at.0 >= f.h then at else if at.1 + 1 >= f.w then (at.0 + 1, 0) else (at.0, at.1 + 1)
  }

  function Cursor(f: Frame, k: nat): (nat, nat) {
    if k == 0 then (if f.w == 0 then f.h else 0, 0) else Next(f, Cursor(f, k - 1))
  }

  /** The cursor after `k` symbols: rows are filled from left to right. */
  lemma {:induction false} CursorIs(f: Frame, k: nat)
    ensures f.w > 0 ==> Cursor(f, k).1 < f.w && Cursor(f, k).0 <= f.h
    ensures f.w > 0 && Cursor(f, k).0 < f.h ==> k == Cursor(f, k).0 * f.w + Cursor(f, k).1
    ensures f.w > 0 && Cursor(f, k).0 >= f.h ==> k >= f.h * f.w
    ensures f.w == 0 ==> Cursor(f, k).0 == f.h
  {
    if k > 0 {
      CursorIs(f, k - 1);
      var at := Cursor(f, k - 1);
      assert (at.0 + 1) * f.w == at.0 * f.w + f.w;
    }
  }

  lemma CursorAt(f: Frame, k: nat, i: nat, c: nat)
    requires i < f.h && c < f.w
    ensures Cursor(f, k) == (i, c) <==> k == i * f.w + c
  {
    CursorIs(f, k);
    var at := Cursor(f, k);
    RowMajor(f.w, f.h, at.0, at.1, i, c);
  }

  /** Positions in row-major order are distinct and below the area. */
  lemma RowMajor(w: nat, h: nat, i: nat, c: nat, j: nat, d: nat)
    requires d < w && j < h
    ensures j * w + d < h * w
    ensures c < w && i * w + c == j * w + d ==> i == j && c == d
  {
    Mono(j + 1, h, w);
    Step(j + 1, w);
    if i < j {
      Mono(i + 1, j, w);
      Step(i + 1, w);
    } else if j < i {
      Mono(j + 1, i, w);
      Step(j + 1, w);
    }
  }

  // ---------------------------------------------------------------- the picture

  /** The pixel at column `c` of frame row `y`. */
  function Spot(f: Frame, y: nat, c: nat): nat {
    f.gw * (f.y + y) + (f.x + c)
  }

  lemma SpotFits(f: Frame, y: nat, c: nat, pixels: nat)
    requires Fits(f, pixels) && y < f.h && c < f.w
    ensures Spot(f, y, c) < pixels
  {
    Mono(f.y + y + 1, f.y + f.h, f.gw);
    Step(f.y + y + 1, f.gw);
  }

  lemma SpotsDiffer(f: Frame, y: nat, c: nat, y': nat, c': nat)
    requires f.x + f.w <= f.gw && c < f.w && c' < f.w && Spot(f, y, c) == Spot(f, y', c')
    ensures y == y' && c == c'
  {
    if y < y' {
      Mono(f.y + y + 1, f.y + y', f.gw);
      Step(f.y + y + 1, f.gw);
    } else if y' < y {
      Mono(f.y + y' + 1, f.y + y, f.gw);
      Step(f.y + y' + 1, f.gw);
    }
  }

  /** A colour of little opacity leaves the pixel as it is; the others are stored red first. */
  function Over(was: Quad, colour: Quad): Quad {
    if colour.c3 > 128 then Quad(colour.c2, colour.c1, colour.c0, colour.c3) else was
  }

  /** The image after `syms`, and the marks on the pixels that were reached. */
  ghost function Painted(f: Frame, table: seq<Quad>, syms: seq<byte>, was: seq<Quad>): (now: seq<Quad>)
    requires Fits(f, |was|) && |table| == 256
    ensures |now| == |was|
  {
    if syms == [] then was
    else
      var k := |syms| - 1;
      PaintOne(f, table, k, syms[k], Painted(f, table, syms[..k], was))
  }

  ghost function PaintOne(f: Frame, table: seq<Quad>, k: nat, sym: byte, was: seq<Quad>): (now: seq<Quad>)
    requires Fits(f, |was|) && |table| == 256
    ensures |now| == |was|
  {
    var (i, c) := Cursor(f, k);
    if i >= f.h then was
    else
      CursorIs(f, k);
      RowsOnce(f, i, 0);
      SpotFits(f, RowAt(f, i), c, |was|);
      var p := Spot(f, RowAt(f, i), c);
      was[p := Over(was[p], table[sym])]
  }

  ghost function Marked(f: Frame, count: nat, was: seq<bool>): (now: seq<bool>)
    requires Fits(f, |was|)
    ensures |now| == |was|
  {
    if count == 0 then was else MarkOne(f, count - 1, Marked(f, count - 1, was))
  }

  ghost function MarkOne(f: Frame, k: nat, was: seq<bool>): (now: seq<bool>)
    requires Fits(f, |was|)
    ensures |now| == |was|
  {
    var (i, c) := Cursor(f, k);
    if i >= f.h then was
    else
      CursorIs(f, k);
      RowsOnce(f, i, 0);
      SpotFits(f, RowAt(f, i), c, |was|);
      was[Spot(f, RowAt(f, i), c) := true]
  }

  /** Which symbol colours the pixel at column `c` of row `y`. */
  function Turn(f: Frame, y: nat, c: nat): nat {
    RankOf(f, y) * f.w + c
  }

  /** Appendix E: each pixel of the frame shows the symbol whose turn it is, and is written once. */
  lemma {:induction false} PaintedPixel(f: Frame, table: seq<Quad>, syms: seq<byte>, was: seq<Quad>, y: nat, c: nat)
    requires Fits(f, |was|) && |table| == 256 && y < f.h && c < f.w
    ensures Spot(f, y, c) < |was| && Turn(f, y, c) < f.h * f.w
    ensures Painted(f, table, syms, was)[Spot(f, y, c)] ==
            if Turn(f, y, c) < |syms| then Over(was[Spot(f, y, c)], table[syms[Turn(f, y, c)]]) else was[Spot(f, y, c)]
  {
    hide RowAt, RankOf, Spot, Cursor, Over;
    SpotFits(f, y, c, |was|);
    RowsOnce(f, 0, y);
    RowMajor(f.w, f.h, 0, 0, RankOf(f, y), c);
    if syms != [] {
      var k := |syms| - 1;
      PaintedPixel(f, table, syms[..k], was, y, c);
      Reaches(f, k, y, c);
    }
  }

  lemma {:induction false} MarkedPixel(f: Frame, count: nat, was: seq<bool>, y: nat, c: nat)
    requires Fits(f, |was|) && y < f.h && c < f.w
    ensures Spot(f, y, c) < |was|
    ensures Marked(f, count, was)[Spot(f, y, c)] == (was[Spot(f, y, c)] || Turn(f, y, c) < count)
  {
    hide RowAt, RankOf, Spot, Cursor;
    SpotFits(f, y, c, |was|);
    if count > 0 {
      MarkedPixel(f, count - 1, was, y, c);
      Reaches(f, count - 1, y, c);
    }
  }

  ghost predicate Outside(f: Frame, p: nat) {
    forall y: nat, c: nat :: y < f.h && c < f.w ==> Spot(f, y, c) != p
  }

  /** Nothing outside the frame changes. */
  lemma {:induction false} OutsideKept(f: Frame, table: seq<Quad>, syms: seq<byte>, was: seq<Quad>, p: nat)
    requires Fits(f, |was|) && |table| == 256 && Outside(f, p) && p < |was|
    ensures Painted(f, table, syms, was)[p] == was[p]
  {
    hide RowAt, Spot, Cursor, Over;
    if syms != [] {
      var k := |syms| - 1;
      OutsideKept(f, table, syms[..k], was, p);
      CursorIs(f, k);
      if Cursor(f, k).0 < f.h {
        RowThere(f, Cursor(f, k).0);
      }
    }
  }

  /** The cursor reaches a pixel exactly at its turn. */
  lemma Reaches(f: Frame, k: nat, y: nat, c: nat)
    requires y < f.h && c < f.w && f.x + f.w <= f.gw
    ensures var at := Cursor(f, k);
      at.0 < f.h ==> (Spot(f, RowAt(f, at.0), at.1) == Spot(f, y, c) <==> k == Turn(f, y, c))
    ensures k == Turn(f, y, c) ==> Cursor(f, k).0 < f.h
  {
    hide RowAt, RankOf, Spot, Cursor;
    RowsOnce(f, 0, y);
    CursorAt(f, k, RankOf(f, y), c);
    CursorIs(f, k);
    var at := Cursor(f, k);
    if at.0 < f.h {
      RowsOnce(f, at.0, y);
      if Spot(f, RowAt(f, at.0), at.1) == Spot(f, y, c) {
        SpotsDiffer(f, RowAt(f, at.0), at.1, y, c);
      }
    }
  }

  /** After the frame is full, later symbols change nothing. */
  lemma LateSymbol(f: Frame, table: seq<Quad>, k: nat, sym: byte, was: seq<Quad>)
    requires Fits(f, |was|) && |table| == 256 && k >= f.w * f.h
    ensures PaintOne(f, table, k, sym, was) == was
  {
    CursorIs(f, k);
    var at := Cursor(f, k);
    if f.w > 0 && at.0 < f.h {
      RowMajor(f.w, f.h, 0, 0, at.0, at.1);
    }
  }

  // ---------------------------------------------------------------- the cursor as the decoder keeps it

  function StepRows(f: Frame, i: nat): nat {
    if !f.interlaced then 1 else match Parse(f, i) case 3 => 8 case 2 => 8 case 1 => 4 case _ => 2
  }

  /** The passes still to come. */
  function Parse(f: Frame, i: nat): (p: nat)
    ensures p <= 3
  {
    var n0 := PassRows(f.h, 0);
    var n1 := n0 + PassRows(f.h, 1);
    var n2 := n1 + PassRows(f.h, 2);
    if !f.interlaced || i >= n2 then 0 else if i < n0 then 3 else if i < n1 then 2 else 1
  }

  /** A row number past the end moves to the next pass. */
  function Settle(y: nat, step: nat, parse: nat, h: nat): (nat, nat, nat)
    decreases parse
  {
    if y >= h && parse > 0 then Settle(Pow2(parse) / 2, Pow2(parse), parse - 1, h) else (y, step, parse)
  }

  lemma RowAfter(f: Frame, i: nat)
    requires i < f.h
    ensures var s := Settle(RowAt(f, i) + StepRows(f, i), StepRows(f, i), Parse(f, i), f.h);
      if i + 1 < f.h then s == (RowAt(f, i + 1), StepRows(f, i + 1), Parse(f, i + 1)) else s.0 >= f.h && s.2 == 0
  {
    hide PassRows, Settle, Pow2;
    PassesFill(f.h);
    Pow2Values();
    var y := RowAt(f, i) + StepRows(f, i);
    Settled(y, StepRows(f, i), Parse(f, i), f.h);
    Settled(4, 8, 2, f.h);
    Settled(2, 4, 1, f.h);
    Settled(1, 2, 0, f.h);
  }

  lemma Settled(y: nat, step: nat, parse: nat, h: nat)
    ensures Settle(y, step, parse, h) ==
      if y >= h && parse > 0 then Settle(Pow2(parse) / 2, Pow2(parse), parse - 1, h) else (y, step, parse)
  {
  }

  lemma FirstRow(f: Frame)
    requires f.h > 0
    ensures RowAt(f, 0) == 0 && StepRows(f, 0) == (if f.interlaced then 8 else 1) && Parse(f, 0) == if f.interlaced then 3 else 0
  {
  }

  /** `a * line <= b * line` just when `a <= b`. */
  lemma Scale(a: nat, b: nat, line: nat)
    requires line > 0
    ensures a * line <= b * line <==> a <= b
    ensures (a + b) * line == a * line + b * line
  {
    if a <= b {
      Mono(a, b, line);
    } else {
      Mono(b + 1, a, line);
      Step(b + 1, line);
    }
  }

  class Raster {
    const f: Frame
    const table: seq<Quad>
    const out: array<Quad>
    const history: array<bool>
    const line_size: nat
    const start_x: nat
    const start_y: nat
    const max_x: nat
    const max_y: nat
    var cur_x: nat
    var cur_y: nat
    var step: nat
    var parse: nat

    /** The symbols so far, and the picture and the marks before them. */
    ghost var syms: seq<byte>
    ghost const was: seq<Quad>
    ghost const marks: seq<bool>

    ghost predicate Valid()
      reads this, out, history
    {
      && Fixed() && out.Length == |was| && history.Length == |marks|
      && At(Cursor(f, |syms|))
      && out[..] == Painted(f, table, syms, was) && history[..] == Marked(f, |syms|, marks)
    }

    ghost predicate Fixed() {
      && Fits(f, |was|) && |was| == |marks| && |table| == 256
      && line_size == f.gw * 4 && start_x == f.x * 4 && start_y == f.y * line_size
      && max_x == start_x + f.w * 4 && max_y == start_y + f.h * line_size
    }

    /** The fields hold this place. */
    ghost predicate At(at: (nat, nat))
      reads this`cur_x, this`cur_y, this`step, this`parse
    {
      if at.0 < f.h then
        && cur_x == start_x + 4 * at.1 && cur_y == start_y + RowAt(f, at.0) * line_size
        && step == StepRows(f, at.0) * line_size && parse == Parse(f, at.0)
      else cur_y >= max_y
    }

    /** The image descriptor's part of `stbi__gif_load_next`. */
    constructor (frame: Frame, colours: seq<Quad>, image: array<Quad>, written: array<bool>)
      requires Fits(frame, image.Length) && image.Length == written.Length && |colours| == 256
      ensures Valid() && syms == [] && f == frame && table == colours && out == image && history == written
      ensures was == image[..] && marks == written[..]
    {
      f, table, out, history := frame, colours, image, written;
      line_size := frame.gw * 4;
      start_x := frame.x * 4;
      start_y := frame.y * (frame.gw * 4);
      max_x := frame.x * 4 + frame.w * 4;
      max_y := frame.y * (frame.gw * 4) + frame.h * (frame.gw * 4);
      cur_x := frame.x * 4;
      cur_y := if frame.w == 0 then frame.y * (frame.gw * 4) + frame.h * (frame.gw * 4) else frame.y * (frame.gw * 4);
      step := if frame.interlaced then 8 * (frame.gw * 4) else frame.gw * 4;
      parse := if frame.interlaced then 3 else 0;
      syms, was, marks := [], image[..], written[..];
      new;
      if f.h > 0 { FirstRow(f); }
    }

    /** What `stbi__out_gif_code` does with one symbol. */
    method Emit(sym: byte)
      requires Valid()
      modifies this, out, history
      ensures Valid() && syms == old(syms) + [sym]
    {
      hide RowAt, RankOf, Cursor, StepRows, Parse, Painted, Marked, Over;
      ghost var k, at := |syms|, Cursor(f, |syms|);
      CursorIs(f, k);
      CursorNext(f, k);
      Unpainted(syms, sym);
      syms := syms + [sym];
      if cur_y >= max_y {
        if at.0 < f.h { NotPast(at); }
        return;
      }
      NotPast(at);
      var idx := cur_x + cur_y;
      Index(at);
      out[idx / 4] := Over(out[idx / 4], table[sym]);
      history[idx / 4] := true;
      Advance(at);
    }

    lemma CursorNext(f: Frame, k: nat)
      ensures Cursor(f, k + 1) == Next(f, Cursor(f, k))
    {
    }

    lemma Unpainted(syms: seq<byte>, sym: byte)
      requires Fixed()
      ensures Painted(f, table, syms + [sym], was) == PaintOne(f, table, |syms|, sym, Painted(f, table, syms, was))
      ensures Marked(f, |syms| + 1, marks) == MarkOne(f, |syms|, Marked(f, |syms|, marks))
    {
      assert (syms + [sym])[..|syms|] == syms;
    }

    /** While rows are left the cursor is above the lower edge. */
    lemma NotPast(at: (nat, nat))
      requires Fixed() && At(at) && (at.0 < f.h ==> at.1 < f.w) && at.0 <= f.h
      ensures at.0 < f.h <==> cur_y < max_y
    {
      if at.0 < f.h {
        RowThere(f, at.0);
        Scale(f.h, RowAt(f, at.0), line_size);
      }
    }

    lemma Index(at: (nat, nat))
      requires Fixed() && At(at) && at.0 < f.h && at.1 < f.w
      ensures RowAt(f, at.0) < f.h
      ensures (cur_x + cur_y) / 4 == Spot(f, RowAt(f, at.0), at.1) < |was|
    {
      var y := RowAt(f, at.0);
      RowThere(f, at.0);
      SpotFits(f, y, at.1, |was|);
      Quarter(f.gw, f.y, y);
      assert cur_x + cur_y == 4 * Spot(f, y, at.1);
    }

    lemma Quarter(w: nat, a: nat, b: nat)
      ensures a * (w * 4) + b * (w * 4) == 4 * (w * (a + b))
    {
      calc {
        a * (w * 4) + b * (w * 4);
        (a + b) * (w * 4);
        4 * ((a + b) * w);
      }
    }

    /** To the next column, row or pass. */
    method Advance(ghost at: (nat, nat))
      requires Fixed() && At(at) && at.0 < f.h && at.1 < f.w
      modifies this`cur_x, this`cur_y, this`step, this`parse
      ensures At(Next(f, at))
    {
      hide RowAt, StepRows, Parse, Settle, PassRows;
      cur_x := cur_x + 4;
      if cur_x >= max_x {
        ghost var y, st := RowAt(f, at.0), StepRows(f, at.0);
        cur_x := start_x;
        cur_y := cur_y + step;
        Scale(y, st, line_size);
        RowAfter(f, at.0);
        y, st := NextPass(y + st, st);
        Scale(f.h, y, line_size);
      }
    }

    /** Rows past the end move to the next pass. */
    method NextPass(ghost row: nat, ghost rows: nat) returns (ghost y: nat, ghost st: nat)
      requires Fixed() && line_size > 0 && parse <= 3
      requires cur_y == start_y + row * line_size && step == rows * line_size
      modifies this`cur_y, this`step, this`parse
      ensures cur_y == start_y + y * line_size && step == st * line_size
      ensures (y, st, parse) == Settle(row, rows, old(parse), f.h)
    {
      hide Settle, Pow2;
      y, st := row, rows;
      while cur_y >= max_y && parse > 0
        invariant cur_y == start_y + y * line_size && step == st * line_size && parse <= 3
        invariant Settle(y, st, parse, f.h) == Settle(row, rows, old(parse), f.h)
        decreases parse
      {
        Scale(f.h, y, line_size);
        Settled(y, st, parse, f.h);
        y, st := Pow2(parse) / 2, Pow2(parse);
        step := Pow2(parse) * line_size;
        cur_y := start_y + step / 2;
        Half(parse, line_size);
        parse := parse - 1;
      }
      Scale(f.h, y, line_size);
      Settled(y, st, parse, f.h);
    }

    lemma Half(p: nat, line: nat)
      requires p > 0
      ensures Pow2(p) * line / 2 == (Pow2(p) / 2) * line
    {
      var m := Pow2(p - 1);
      assert Pow2(p) == 2 * m;
      assert 2 * m * line == 2 * (m * line);
    }
  }
}
