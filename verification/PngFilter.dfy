/** PNG line filters (section 6 of RFC 2083): `stbiw__encode_png_line` and the row loop of
    `stbi__create_png_image_raw`, for samples of whole bytes. */
module PngFilter {
  import opened Arith
  import opened Basics
  import opened Bits

  // ---------------------------------------------------------------- the five filters

  function Abs(v: int): nat {
    if v < 0 then -v else v
  }

  /** Both files' Paeth predictor: of left, above and upper left, the one nearest to a + b - c. */
  function Paeth(a: byte, b: byte, c: byte): byte {
    var p := a + b - c;
    var pa, pb, pc := Abs(p - a), Abs(p - b), Abs(p - c);
    if pa <= pb && pa <= pc then a else if pb <= pc then b else c
  }

  /** What filter `f` predicts from the bytes to the left, above and to the upper left. */
  function Predict(f: nat, a: byte, b: byte, c: byte): byte
    requires f <= 4
  {
    match f
    case 0 => 0
    case 1 => a
    case 2 => b
    case 3 => (a + b) / 2
    case _ => Paeth(a, b, c)
  }

  /** The byte `bpp` to the left, 0 outside the row. */
  function Left(row: seq<byte>, i: nat, bpp: nat): byte
    requires i <= |row|
  {
    if bpp >= 1 && i >= bpp then row[i - bpp] else 0
  }

  /** Section 6: each byte less its prediction, modulo 256; `prior` is all zero for the first row. */
  function FilterRow(f: nat, row: seq<byte>, prior: seq<byte>, bpp: nat): (r: seq<byte>)
    requires f <= 4 && |prior| == |row|
    ensures |r| == |row|
  {
    seq(|row|, i requires 0 <= i < |row| =>
      (row[i] - Predict(f, Left(row, i, bpp), prior[i], Left(prior, i, bpp))) % 256)
  }

  /** The first `k` bytes restored: each depends on those before it. */
  function UnfilterTo(f: nat, raw: seq<byte>, prior: seq<byte>, bpp: nat, k: nat): (r: seq<byte>)
    requires f <= 4 && |prior| == |raw| && k <= |raw|
    ensures |r| == k
  {
    if k == 0 then []
    else
      var r := UnfilterTo(f, raw, prior, bpp, k - 1);
      r + [(raw[k - 1] + Predict(f, Left(r, k - 1, bpp), prior[k - 1], Left(prior, k - 1, bpp))) % 256]
  }

  function UnfilterRow(f: nat, raw: seq<byte>, prior: seq<byte>, bpp: nat): (r: seq<byte>)
    requires f <= 4 && |prior| == |raw|
    ensures |r| == |raw|
  {
    UnfilterTo(f, raw, prior, bpp, |raw|)
  }

  lemma AddBack(x: byte, p: byte)
    ensures ((x - p) % 256 + p) % 256 == x
  {
  }

  lemma {:induction false} UnfilterFilterTo(f: nat, row: seq<byte>, prior: seq<byte>, bpp: nat, k: nat)
    requires f <= 4 && |prior| == |row| && k <= |row| && bpp >= 1
    ensures UnfilterTo(f, FilterRow(f, row, prior, bpp), prior, bpp, k) == row[..k]
  {
    hide Predict;
    if k > 0 {
      UnfilterFilterTo(f, row, prior, bpp, k - 1);
      AddBack(row[k - 1], Predict(f, Left(row, k - 1, bpp), prior[k - 1], Left(prior, k - 1, bpp)));
      assert row[..k] == row[..k - 1] + [row[k - 1]];
    }
  }

  /** Unfiltering undoes filtering, whatever the filter and the row above. */
  lemma UnfilterFilter(f: nat, row: seq<byte>, prior: seq<byte>, bpp: nat)
    requires f <= 4 && |prior| == |row| && bpp >= 1
    ensures UnfilterRow(f, FilterRow(f, row, prior, bpp), prior, bpp) == row
  {
    UnfilterFilterTo(f, row, prior, bpp, |row|);
    assert row[..|row|] == row;
  }

  /** And filtering undoes unfiltering. */
  lemma FilterUnfilter(f: nat, raw: seq<byte>, prior: seq<byte>, bpp: nat)
    requires f <= 4 && |prior| == |raw| && bpp >= 1
    ensures FilterRow(f, UnfilterRow(f, raw, prior, bpp), prior, bpp) == raw
  {
    hide Predict;
    var row := UnfilterRow(f, raw, prior, bpp);
    forall i | 0 <= i < |raw|
      ensures (row[i] - Predict(f, Left(row, i, bpp), prior[i], Left(prior, i, bpp))) % 256 == raw[i]
    {
      UnfilterPrefix(f, raw, prior, bpp, i + 1, |raw|);
      UnfilterPrefix(f, raw, prior, bpp, i, i + 1);
      assert row[..i + 1][i] == row[i] && row[..i] == row[..i + 1][..i];
      SubtractBack(raw[i], Predict(f, Left(row, i, bpp), prior[i], Left(prior, i, bpp)));
    }
  }

  lemma SubtractBack(x: byte, p: byte)
    ensures ((x as int + p) % 256 - p) % 256 == x
  {
  }

  lemma {:induction false} UnfilterPrefix(f: nat, raw: seq<byte>, prior: seq<byte>, bpp: nat, j: nat, k: nat)
    requires f <= 4 && |prior| == |raw| && j <= k <= |raw|
    ensures UnfilterTo(f, raw, prior, bpp, k)[..j] == UnfilterTo(f, raw, prior, bpp, j)
    decreases k
  {
    if j < k { UnfilterPrefix(f, raw, prior, bpp, j, k - 1); }
  }

  // ---------------------------------------------------------------- images, row by row

  function Zeros(n: nat): (z: seq<byte>)
    ensures |z| == n && forall i :: 0 <= i < n ==> z[i] == 0
  {
    Repeat(0, n)
  }

  ghost predicate Rows(rows: seq<seq<byte>>, w: nat) {
    forall j :: 0 <= j < |rows| ==> |rows[j]| == w
  }

  function Flatten(rows: seq<seq<byte>>): seq<byte> {
    if rows == [] then [] else rows[0] + Flatten(rows[1..])
  }

  /** The filtered image: before each row the number of its filter. */
  ghost function FilterRows(rows: seq<seq<byte>>, fs: seq<nat>, prior: seq<byte>, bpp: nat): seq<byte>
    requires |fs| == |rows| && Rows(rows, |prior|) && forall j :: 0 <= j < |fs| ==> fs[j] <= 4
  {
    if rows == [] then []
    else [fs[0]] + FilterRow(fs[0], rows[0], prior, bpp) + FilterRows(rows[1..], fs[1..], rows[0], bpp)
  }

  /** The `h` rows restored, unless a filter number is out of range; extra bytes are ignored. */
  ghost function UnfilterRows(raw: seq<byte>, prior: seq<byte>, bpp: nat, h: nat): (r: (bool, seq<byte>))
    requires |raw| >= h * (|prior| + 1)
    decreases h
  {
    if h == 0 then (true, [])
    else
      var w := |prior|;
      Step(h, w + 1);
      if raw[0] > 4 then (false, [])
      else
        var row := UnfilterRow(raw[0], raw[1..w + 1], prior, bpp);
        var (ok, rest) := UnfilterRows(raw[w + 1..], row, bpp, h - 1);
        (ok, row + rest)
  }

  /** Section 6 for whole images: any choice of filters is undone, row after row. */
  lemma {:induction false} UnfilterFilterRows(rows: seq<seq<byte>>, fs: seq<nat>, prior: seq<byte>, bpp: nat)
    requires |fs| == |rows| && Rows(rows, |prior|) && bpp >= 1 && forall j :: 0 <= j < |fs| ==> fs[j] <= 4
    ensures |FilterRows(rows, fs, prior, bpp)| == |rows| * (|prior| + 1)
    ensures UnfilterRows(FilterRows(rows, fs, prior, bpp), prior, bpp, |rows|) == (true, Flatten(rows))
    decreases |rows|
  {
    if rows != [] {
      var w := |prior|;
      UnfilterFilterRows(rows[1..], fs[1..], rows[0], bpp);
      Step(|rows|, w + 1);
      var line := FilterRow(fs[0], rows[0], prior, bpp);
      var rest := FilterRows(rows[1..], fs[1..], rows[0], bpp);
      var raw := FilterRows(rows, fs, prior, bpp);
      assert raw == [fs[0]] + line + rest;
      assert raw[0] == fs[0] && raw[1..w + 1] == line && raw[w + 1..] == rest;
      UnfilterFilter(fs[0], rows[0], prior, bpp);
    }
  }
}
