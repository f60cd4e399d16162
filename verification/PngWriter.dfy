/** `stbiw__encode_png_line` and the row loop of `stbi_write_png_to_mem`. */
module PngWriter {
  import opened Arith
  import opened Bits
  import opened PngFilter

  // ---------------------------------------------------------------- the pixels as rows

  /** Where output row `y` starts; with `flip` the rows go out from the bottom up. */
  function RowStart(stride: nat, height: nat, y: nat, flip: bool): nat
    requires y < height
  {
    stride * (if flip then height - 1 - y else y)
  }

  ghost predicate Holds(pixels: seq<byte>, stride: nat, height: nat, w: nat) {
    forall r :: 0 <= r < height ==> stride * r + w <= |pixels|
  }

  ghost function Line(pixels: seq<byte>, stride: nat, height: nat, w: nat, y: nat, flip: bool): (r: seq<byte>)
    requires y < height && Holds(pixels, stride, height, w)
    ensures |r| == w
  {
    var z := RowStart(stride, height, y, flip);
    assert z + w <= |pixels|;
    pixels[z..z + w]
  }

  /** The row above in output order; zeros above the first. */
  ghost function Above(pixels: seq<byte>, stride: nat, height: nat, w: nat, y: nat, flip: bool): (r: seq<byte>)
    requires y < height && Holds(pixels, stride, height, w)
    ensures |r| == w
  {
    if y == 0 then Zeros(w) else Line(pixels, stride, height, w, y - 1, flip)
  }

  // ---------------------------------------------------------------- one line

  /** `mapping` and `firstmap`: the first row has variants that do not look up. */
  function LineType(y: nat, filter: nat): (kind: nat)
    requires filter <= 4
    ensures kind <= 6
  {
    if y != 0 then filter else match filter case 0 => 0 case 1 => 1 case 2 => 0 case 3 => 5 case _ => 6
  }

  /** The writer's switch for the first pixel. */
  function FirstPixel(kind: nat, x: byte, up: byte): byte
    requires 1 <= kind <= 6
  {
    match kind
    case 2 => (x - up) % 256
    case 3 => (x - up / 2) % 256
    case 4 => (x - Paeth(0, up, 0)) % 256
    case _ => x
  }

  /** The writer's switch for the other pixels. */
  function OtherPixel(kind: nat, x: byte, left: byte, up: byte, upleft: byte): byte
    requires 1 <= kind <= 6
  {
    match kind
    case 1 => (x - left) % 256
    case 2 => (x - up) % 256
    case 3 => (x - (left + up) / 2) % 256
    case 4 => (x - Paeth(left, up, upleft)) % 256
    case 5 => (x - left / 2) % 256
    case _ => (x - Paeth(left, 0, 0)) % 256
  }

  /** The variants agree with the filters of section 6 on zeros. */
  lemma FirstPixelFilter(y: nat, filter: nat, x: byte, up: byte)
    requires filter <= 4 && LineType(y, filter) >= 1 && (y == 0 ==> up == 0)
    ensures FirstPixel(LineType(y, filter), x, up) == (x - Predict(filter, 0, up, 0)) % 256
  {
  }

  lemma OtherPixelFilter(y: nat, filter: nat, x: byte, left: byte, up: byte, upleft: byte)
    requires filter <= 4 && LineType(y, filter) >= 1 && (y == 0 ==> up == 0 && upleft == 0)
    ensures OtherPixel(LineType(y, filter), x, left, up, upleft) == (x - Predict(filter, left, up, upleft)) % 256
  {
  }

  lemma PlainFilter(y: nat, filter: nat, x: byte, left: byte, up: byte, upleft: byte)
    requires filter <= 4 && LineType(y, filter) == 0 && (y == 0 ==> up == 0 && upleft == 0)
    ensures (x - Predict(filter, left, up, upleft)) % 256 == x
  {
  }

  lemma RowFits(pixels: seq<byte>, stride: nat, height: nat, w: nat, y: nat, flip: bool)
    requires y < height && Holds(pixels, stride, height, w)
    ensures RowStart(stride, height, y, flip) + w <= |pixels|
  {
  }

  /** `stbiw__encode_png_line`; `w` is `width * n`. */
  method EncodeLine(pixels: seq<byte>, stride: nat, w: nat, height: nat, y: nat, n: nat, filter: nat, flip: bool,
                    line_buffer: array<byte>)
    requires y < height && Holds(pixels, stride, height, w) && 1 <= n <= w && filter <= 4 && line_buffer.Length == w
    modifies line_buffer
    ensures line_buffer[..] == FilterRow(filter, Line(pixels, stride, height, w, y, flip),
                                         Above(pixels, stride, height, w, y, flip), n)
  {
    hide Predict, FirstPixel, OtherPixel, LineType, RowStart, FilterRow, Line, Above;
    ghost var row := Line(pixels, stride, height, w, y, flip);
    ghost var prior := Above(pixels, stride, height, w, y, flip);
    ghost var want := FilterRow(filter, row, prior, n);
    var kind := LineType(y, filter);
    var z := RowStart(stride, height, y, flip);
    var above := if y == 0 then z else RowStart(stride, height, y - 1, flip);
    LineAt(pixels, stride, height, w, y, flip);
    if kind == 0 {
      for i := 0 to w
        invariant forall t :: 0 <= t < i ==> line_buffer[t] == want[t]
      {
        FilterAt(filter, row, prior, n, i);
        PlainFilter(y, filter, row[i], Left(row, i, n), prior[i], Left(prior, i, n));
        line_buffer[i] := pixels[z + i];
      }
    } else {
      for i := 0 to n
        invariant forall t :: 0 <= t < i ==> line_buffer[t] == want[t]
      {
        var up := if y == 0 then 0 else pixels[above + i];
        FilterAt(filter, row, prior, n, i);
        FirstPixelFilter(y, filter, row[i], up);
        line_buffer[i] := FirstPixel(kind, pixels[z + i], up);
      }
      for i := n to w
        invariant forall t :: 0 <= t < i ==> line_buffer[t] == want[t]
      {
        var up := if y == 0 then 0 else pixels[above + i];
        var upleft := if y == 0 then 0 else pixels[above + i - n];
        FilterAt(filter, row, prior, n, i);
        OtherPixelFilter(y, filter, row[i], row[i - n], up, upleft);
        line_buffer[i] := OtherPixel(kind, pixels[z + i], pixels[z + i - n], up, upleft);
      }
    }
    assert line_buffer[..] == want;
  }

  lemma FilterAt(f: nat, row: seq<byte>, prior: seq<byte>, n: nat, i: nat)
    requires f <= 4 && |prior| == |row| && i < |row|
    ensures FilterRow(f, row, prior, n)[i] ==
            (row[i] - Predict(f, Left(row, i, n), prior[i], Left(prior, i, n))) % 256
  {
  }

  /** Rows as the writer addresses them. */
  lemma LineAt(pixels: seq<byte>, stride: nat, height: nat, w: nat, y: nat, flip: bool)
    requires y < height && Holds(pixels, stride, height, w)
    ensures var z := RowStart(stride, height, y, flip);
      z + w <= |pixels| &&
      forall i :: 0 <= i < w ==> Line(pixels, stride, height, w, y, flip)[i] == pixels[z + i]
    ensures y == 0 ==> forall i :: 0 <= i < w ==> Above(pixels, stride, height, w, y, flip)[i] == 0
    ensures y > 0 ==> var a := RowStart(stride, height, y - 1, flip);
      a + w <= |pixels| &&
      forall i :: 0 <= i < w ==> Above(pixels, stride, height, w, y, flip)[i] == pixels[a + i]
  {
    RowFits(pixels, stride, height, w, y, flip);
    if y > 0 {
      RowFits(pixels, stride, height, w, y - 1, flip);
    }
  }

  // ---------------------------------------------------------------- choosing the filter

  /** The sum of the line's bytes taken as signed numbers, without their signs. */
  function Cost(line: seq<byte>): nat {
    if line == [] then 0
    else
      var b := line[|line| - 1];
      Cost(line[..|line| - 1]) + if b < 128 then b else 256 - b
  }

  lemma {:induction false} CostBound(line: seq<byte>)
    ensures Cost(line) <= 128 * |line|
  {
    if line != [] { CostBound(line[..|line| - 1]); }
  }

  method Estimate(line_buffer: array<byte>) returns (est: nat)
    ensures est == Cost(line_buffer[..])
  {
    est := 0;
    for i := 0 to line_buffer.Length
      invariant est == Cost(line_buffer[..i])
    {
      assert line_buffer[..i + 1] == line_buffer[..i] + [line_buffer[i]];
      var b := line_buffer[i];
      est := est + if b < 128 then b else 256 - b;
    }
    assert line_buffer[..] == line_buffer[..line_buffer.Length];
  }

  ghost function CostOf(f: nat, row: seq<byte>, prior: seq<byte>, n: nat): nat
    requires f <= 4 && |prior| == |row|
  {
    Cost(FilterRow(f, row, prior, n))
  }

  /** Filter `best` costs least on this row, and less than the filters numbered below it. */
  ghost predicate Cheapest(best: nat, row: seq<byte>, prior: seq<byte>, n: nat)
    requires |prior| == |row|
  {
    best <= 4 && forall f :: 0 <= f <= 4 ==>
      var c, d := CostOf(best, row, prior, n), CostOf(f, row, prior, n);
      if f < best then c < d else c <= d
  }

  /** What the search picks, which starts from INT_MAX: the cheapest filter, if one costs less than that, and
      else filter 0. */
  ghost predicate Picked(best: nat, row: seq<byte>, prior: seq<byte>, n: nat)
    requires |prior| == |row|
  {
    if exists f :: 0 <= f <= 4 && CostOf(f, row, prior, n) < INT_MAX then Cheapest(best, row, prior, n) else best == 0
  }

  /** As long as no sum is over INT_MAX, which would not fit the source's `est`, that is the cheapest. */
  lemma PickedIsCheapest(best: nat, row: seq<byte>, prior: seq<byte>, n: nat)
    requires |prior| == |row| && Picked(best, row, prior, n)
    requires forall f :: 0 <= f <= 4 ==> CostOf(f, row, prior, n) <= INT_MAX
    ensures Cheapest(best, row, prior, n)
  {
    hide Cost, FilterRow;
    if !exists f :: 0 <= f <= 4 && CostOf(f, row, prior, n) < INT_MAX {
      forall f | 0 <= f <= 4 ensures CostOf(f, row, prior, n) == INT_MAX {}
      assert CostOf(0, row, prior, n) == INT_MAX;
    }
  }

  /** Which is so for every row of less than 2^24 bytes. */
  lemma ShortRows(row: seq<byte>, prior: seq<byte>, n: nat, f: nat)
    requires |prior| == |row| < 0x100_0000 && f <= 4
    ensures CostOf(f, row, prior, n) <= INT_MAX
  {
    CostBound(FilterRow(f, row, prior, n));
  }

  /** Try all five filters and encode the line with the best one. */
  method EncodeBest(pixels: seq<byte>, stride: nat, w: nat, height: nat, y: nat, n: nat, flip: bool,
                    line_buffer: array<byte>) returns (best_filter: nat)
    requires y < height && Holds(pixels, stride, height, w) && 1 <= n <= w && line_buffer.Length == w
    modifies line_buffer
    ensures best_filter <= 4
    ensures line_buffer[..] == FilterRow(best_filter, Line(pixels, stride, height, w, y, flip),
                                         Above(pixels, stride, height, w, y, flip), n)
    ensures Picked(best_filter, Line(pixels, stride, height, w, y, flip), Above(pixels, stride, height, w, y, flip), n)
  {
    hide FilterRow, Cost;
    ghost var row := Line(pixels, stride, height, w, y, flip);
    ghost var prior := Above(pixels, stride, height, w, y, flip);
    best_filter := 0;
    var best_filter_val := INT_MAX;
    for filter := 0 to 5
      invariant best_filter <= 4 && best_filter_val <= INT_MAX
      invariant if best_filter_val == INT_MAX then best_filter == 0
                else best_filter < filter && best_filter_val == CostOf(best_filter, row, prior, n)
      invariant forall f :: 0 <= f < filter ==>
        var d := CostOf(f, row, prior, n);
        if f < best_filter then best_filter_val < d else best_filter_val <= d
    {
      EncodeLine(pixels, stride, w, height, y, n, filter, flip, line_buffer);
      var est := Estimate(line_buffer);
      if est < best_filter_val {
        best_filter_val := est;
        best_filter := filter;
      }
    }
    EncodeLine(pixels, stride, w, height, y, n, best_filter, flip, line_buffer);
  }

  // ---------------------------------------------------------------- all lines

  ghost function Lines(pixels: seq<byte>, stride: nat, height: nat, w: nat, flip: bool): (rows: seq<seq<byte>>)
    requires Holds(pixels, stride, height, w)
    ensures |rows| == height && Rows(rows, w)
  {
    seq(height, y requires 0 <= y < height => Line(pixels, stride, height, w, y, flip))
  }

  ghost function LastOf(rows: seq<seq<byte>>, prior: seq<byte>): seq<byte> {
    if rows == [] then prior else rows[|rows| - 1]
  }

  lemma {:induction false} FilterRowsAppend(rows: seq<seq<byte>>, fs: seq<nat>, prior: seq<byte>, bpp: nat,
                                            row: seq<byte>, f: nat)
    requires |fs| == |rows| && Rows(rows, |prior|) && (forall j :: 0 <= j < |fs| ==> fs[j] <= 4)
    requires |row| == |prior| && f <= 4
    ensures Rows(rows + [row], |prior|)
    ensures FilterRows(rows + [row], fs + [f], prior, bpp) ==
            FilterRows(rows, fs, prior, bpp) + [f] + FilterRow(f, row, LastOf(rows, prior), bpp)
    decreases |rows|
  {
    hide FilterRow;
    if rows == [] {
      assert rows + [row] == [row] && fs + [f] == [f];
      assert FilterRows([row][1..], [f][1..], row, bpp) == [];
    } else {
      assert (rows + [row])[1..] == rows[1..] + [row] && (fs + [f])[1..] == fs[1..] + [f];
      FilterRowsAppend(rows[1..], fs[1..], rows[0], bpp, row, f);
    }
  }

  /** `filt` is the image filtered row by row, in output order; the filters `fs` are the forced one, or each
      the one picked for its row. */
  ghost predicate Filtered(filt: seq<byte>, fs: seq<nat>, pixels: seq<byte>, stride: nat, w: nat, height: nat, n: nat,
                           force_filter: int, flip: bool)
  {
    && Holds(pixels, stride, height, w) && 1 <= n <= w
    && |fs| == height && (forall j :: 0 <= j < height ==> fs[j] <= 4)
    && filt == FilterRows(Lines(pixels, stride, height, w, flip), fs, Zeros(w), n)
    && (0 <= force_filter < 5 ==> forall j :: 0 <= j < height ==> fs[j] == force_filter)
    && (force_filter < 0 || force_filter >= 5 ==>
          forall j :: 0 <= j < height ==>
            Picked(fs[j], Line(pixels, stride, height, w, j, flip), Above(pixels, stride, height, w, j, flip), n))
  }

  /** The filtered image: each line with the number of its filter, forced or chosen. */
  method EncodeLines(pixels: seq<byte>, stride: nat, w: nat, height: nat, n: nat, force_filter: int, flip: bool)
    returns (filt: seq<byte>, ghost fs: seq<nat>)
    requires Holds(pixels, stride, height, w) && 1 <= n <= w
    ensures Filtered(filt, fs, pixels, stride, w, height, n, force_filter, flip)
    ensures exists gs :: Filtered(filt, gs, pixels, stride, w, height, n, force_filter, flip)
  {
    hide FilterRow, FilterRows, Line, Above, Picked;
    ghost var rows := Lines(pixels, stride, height, w, flip);
    var force := if force_filter >= 5 then -1 else force_filter;
    var line_buffer := new byte[w];
    filt, fs := [], [];
    assert rows[..0] == [] && FilterRows([], [], Zeros(w), n) == [] by { NoRows(w, n); }
    for j := 0 to height
      invariant |fs| == j && forall t :: 0 <= t < j ==> fs[t] <= 4
      invariant filt == FilterRows(rows[..j], fs, Zeros(w), n)
      invariant force > -1 ==> forall t :: 0 <= t < j ==> fs[t] == force
      invariant force <= -1 ==> forall t :: 0 <= t < j ==>
        Picked(fs[t], Line(pixels, stride, height, w, t, flip), Above(pixels, stride, height, w, t, flip), n)
    {
      var filter_type;
      if force > -1 {
        filter_type := force;
        EncodeLine(pixels, stride, w, height, j, n, force, flip, line_buffer);
      } else {
        filter_type := EncodeBest(pixels, stride, w, height, j, n, flip, line_buffer);
      }
      FilterRowsAppend(rows[..j], fs, Zeros(w), n, rows[j], filter_type);
      AboveIsLast(pixels, stride, height, w, j, flip);
      assert rows[..j + 1] == rows[..j] + [rows[j]];
      filt := filt + [filter_type] + line_buffer[..];
      fs := fs + [filter_type];
    }
    assert rows[..height] == rows;
  }

  lemma NoRows(w: nat, n: nat)
    ensures FilterRows([], [], Zeros(w), n) == []
  {
  }

  lemma AboveIsLast(pixels: seq<byte>, stride: nat, height: nat, w: nat, y: nat, flip: bool)
    requires y < height && Holds(pixels, stride, height, w)
    ensures Lines(pixels, stride, height, w, flip)[y] == Line(pixels, stride, height, w, y, flip)
    ensures LastOf(Lines(pixels, stride, height, w, flip)[..y], Zeros(w)) == Above(pixels, stride, height, w, y, flip)
  {
  }
}
