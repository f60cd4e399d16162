/** `stbi__create_png_image_raw` for 8-bit samples and as many channels out as in. */
module PngReader {
  import opened Arith
  import opened Bits
  import opened PngFilter

  // ---------------------------------------------------------------- one row, in place

  /** `first_row_filter`: variants that do not look at a row above. */
  function FirstRowFilter(filter: nat): nat
    requires filter <= 4
  {
    match filter case 0 => 0 case 1 => 1 case 2 => 0 case 3 => 5 case _ => 6
  }

  /** The reader's switch for the first pixel. */
  function FirstByte(kind: nat, raw: byte, prior: byte): byte
    requires kind <= 6
  {
    match kind
    case 2 => (raw + prior) % 256
    case 3 => (raw + prior / 2) % 256
    case 4 => (raw + Paeth(0, prior, 0)) % 256
    case _ => raw
  }

  /** The reader's switch for the other pixels. */
  function OtherByte(kind: nat, raw: byte, left: byte, prior: byte, upleft: byte): byte
    requires kind <= 6
  {
    match kind
    case 0 => raw
    case 1 => (raw + left) % 256
    case 2 => (raw + prior) % 256
    case 3 => (raw + (prior + left) / 2) % 256
    case 4 => (raw + Paeth(left, prior, upleft)) % 256
    case 5 => (raw + left / 2) % 256
    case _ => (raw + Paeth(left, 0, 0)) % 256
  }

  function Kind(j: nat, filter: nat): (k: nat)
    requires filter <= 4
    ensures k <= 6
  {
    if j == 0 then FirstRowFilter(filter) else filter
  }

  lemma FirstByteFilter(j: nat, filter: nat, raw: byte, prior: byte)
    requires filter <= 4 && (j == 0 ==> prior == 0)
    ensures FirstByte(Kind(j, filter), raw, prior) == (raw + Predict(filter, 0, prior, 0)) % 256
  {
  }

  lemma OtherByteFilter(j: nat, filter: nat, raw: byte, left: byte, prior: byte, upleft: byte)
    requires filter <= 4 && (j == 0 ==> prior == 0 && upleft == 0)
    ensures OtherByte(Kind(j, filter), raw, left, prior, upleft) == (raw + Predict(filter, left, prior, upleft)) % 256
  {
  }

  lemma RestoreNext(f: nat, raw: seq<byte>, prior: seq<byte>, bpp: nat, k: nat)
    requires f <= 4 && |prior| == |raw| && k < |raw|
    ensures var r := UnfilterTo(f, raw, prior, bpp, k);
      UnfilterTo(f, raw, prior, bpp, k + 1) ==
      r + [(raw[k] + Predict(f, Left(r, k, bpp), prior[k], Left(prior, k, bpp))) % 256]
  {
  }

  /** The row above row `j`, which stands just before it in the output; zeros above the first. */
  ghost predicate RowAbove(out: seq<byte>, cur: nat, w: nat, j: nat, prior: seq<byte>) {
    |prior| == w && cur <= |out| && if j == 0 then prior == Zeros(w) else cur >= w && prior == out[cur - w..cur]
  }

  lemma AboveKept(out: seq<byte>, out': seq<byte>, cur: nat, w: nat, j: nat, prior: seq<byte>)
    requires RowAbove(out, cur, w, j, prior) && |out| == |out'| && out[..cur] == out'[..cur]
    ensures RowAbove(out', cur, w, j, prior)
  {
    assert j > 0 ==> out[cur - w..cur] == out[..cur][cur - w..] && out'[cur - w..cur] == out'[..cur][cur - w..];
  }

  /** The bytes of the first pixel. */
  method RestoreFirst(out: array<byte>, cur: nat, raw: seq<byte>, j: nat, filter: nat, bpp: nat, ghost prior: seq<byte>)
    requires 1 <= bpp <= |raw| && cur + |raw| <= out.Length && filter <= 4 && RowAbove(out[..], cur, |raw|, j, prior)
    modifies out
    ensures out[cur..cur + bpp] == UnfilterTo(filter, raw, prior, bpp, bpp)
    ensures out[..cur] == old(out[..cur]) && out[cur + |raw|..] == old(out[cur + |raw|..])
  {
    hide Predict, FirstByte, Kind, UnfilterTo;
    var w, kind := |raw|, Kind(j, filter);
    ghost var was := out[..];
    RestoreNone(filter, raw, prior, bpp);
    for k := 0 to bpp
      invariant out[..cur] == was[..cur] && out[cur + w..] == was[cur + w..]
      invariant out[cur..cur + k] == UnfilterTo(filter, raw, prior, bpp, k)
    {
      AboveKept(was, out[..], cur, w, j, prior);
      var above := if j == 0 then 0 else out[cur + k - w];
      assert above == prior[k];
      FirstByteFilter(j, filter, raw[k], above);
      RestoreNext(filter, raw, prior, bpp, k);
      Store(out, cur, k, w, FirstByte(kind, raw[k], above));
    }
  }

  /** The bytes of the other pixels. */
  method RestoreOthers(out: array<byte>, cur: nat, raw: seq<byte>, j: nat, filter: nat, bpp: nat, ghost prior: seq<byte>)
    requires 1 <= bpp <= |raw| && cur + |raw| <= out.Length && filter <= 4 && RowAbove(out[..], cur, |raw|, j, prior)
    requires out[cur..cur + bpp] == UnfilterTo(filter, raw, prior, bpp, bpp)
    modifies out
    ensures out[cur..cur + |raw|] == UnfilterTo(filter, raw, prior, bpp, |raw|)
    ensures out[..cur] == old(out[..cur]) && out[cur + |raw|..] == old(out[cur + |raw|..])
  {
    hide Predict, OtherByte, Kind, UnfilterTo;
    var w, kind := |raw|, Kind(j, filter);
    ghost var was := out[..];
    for k := bpp to w
      invariant out[..cur] == was[..cur] && out[cur + w..] == was[cur + w..]
      invariant out[cur..cur + k] == UnfilterTo(filter, raw, prior, bpp, k)
    {
      AboveKept(was, out[..], cur, w, j, prior);
      var above := if j == 0 then 0 else out[cur + k - w];
      var upleft := if j == 0 then 0 else out[cur + k - w - bpp];
      var left := out[cur + k - bpp];
      assert above == prior[k] && upleft == prior[k - bpp] && left == out[cur..cur + k][k - bpp];
      OtherByteFilter(j, filter, raw[k], left, above, upleft);
      RestoreNext(filter, raw, prior, bpp, k);
      Store(out, cur, k, w, OtherByte(kind, raw[k], left, above, upleft));
    }
  }

  /** Row `j` of `w` bytes, at `cur` in the output. */
  method RestoreRow(out: array<byte>, cur: nat, raw: seq<byte>, j: nat, filter: nat, bpp: nat, ghost prior: seq<byte>)
    requires 1 <= bpp <= |raw| && cur + |raw| <= out.Length && filter <= 4 && RowAbove(out[..], cur, |raw|, j, prior)
    modifies out
    ensures out[cur..cur + |raw|] == UnfilterRow(filter, raw, prior, bpp)
    ensures out[..cur] == old(out[..cur]) && out[cur + |raw|..] == old(out[cur + |raw|..])
  {
    hide UnfilterTo;
    ghost var was := out[..];
    RestoreFirst(out, cur, raw, j, filter, bpp, prior);
    AboveKept(was, out[..], cur, |raw|, j, prior);
    RestoreOthers(out, cur, raw, j, filter, bpp, prior);
  }

  /** `cur[k] = b` in a row of `w` bytes. */
  method Store(out: array<byte>, cur: nat, k: nat, w: nat, b: byte)
    requires k < w && cur + w <= out.Length
    modifies out
    ensures out[cur..cur + k + 1] == old(out[cur..cur + k]) + [b]
    ensures out[..cur] == old(out[..cur]) && out[cur + w..] == old(out[cur + w..])
  {
    out[cur + k] := b;
  }

  lemma RestoreNone(f: nat, raw: seq<byte>, prior: seq<byte>, bpp: nat)
    requires f <= 4 && |prior| == |raw|
    ensures UnfilterTo(f, raw, prior, bpp, 0) == []
  {
  }

  // ---------------------------------------------------------------- all rows

  /** Rows `j` on are still to come, and the rows so far stand in front of them. */
  ghost predicate RowsToGo(all: (bool, seq<byte>), done: seq<byte>, rest: (bool, seq<byte>)) {
    all.0 == rest.0 && (all.0 ==> all.1 == done + rest.1)
  }

  /** `stbi__create_png_image_raw` */
  method CreateImageRaw(raw: seq<byte>, x: nat, y: nat, n: nat) returns (ok: bool, out: array<byte>)
    requires x >= 1 && 1 <= n <= 4
    ensures out.Length == x * n * y
    ensures |raw| < y * (x * n + 1) ==> !ok
    ensures |raw| >= y * (x * n + 1) ==>
      var r := UnfilterRows(raw, Zeros(x * n), n, y);
      ok == r.0 && (ok ==> out[..] == r.1)
  {
    hide UnfilterRows, UnfilterRow, Flatten;
    var w := x * n;
    Step(x, n);
    out := new byte[w * y];
    if |raw| < (w + 1) * y {
      return false, out;
    }
    ghost var all := UnfilterRows(raw, Zeros(w), n, y);
    ghost var prior, rest := Zeros(w), all;
    var p, cur := 0, 0;
    assert raw[0..] == raw && out[..0] == [];
    var j := 0;
    while j < y
      invariant j <= y && |prior| == w && p <= |raw| && cur <= out.Length
      invariant |raw| - p >= (y - j) * (w + 1) && out.Length - cur == (y - j) * w
      invariant if j == 0 then prior == Zeros(w) else cur >= w && prior == out[cur - w..cur]
      invariant rest == UnfilterRows(raw[p..], prior, n, y - j) && RowsToGo(all, out[..cur], rest)
    {
      Step(y - j, w);
      NextRow(raw[p..], prior, n, y - j);
      var filter := raw[p];
      if filter > 4 {
        return false, out;
      }
      ghost var done, line := out[..cur], raw[p + 1..p + 1 + w];
      assert raw[p..][1..w + 1] == line && raw[p..][w + 1..] == raw[p + 1 + w..];
      RestoreRow(out, cur, raw[p + 1..p + 1 + w], j, filter, n, prior);
      assert out[..cur + w] == done + out[cur..cur + w];
      prior := out[cur..cur + w];
      p, cur, j := p + 1 + w, cur + w, j + 1;
      rest := UnfilterRows(raw[p..], prior, n, y - j);
    }
    assert out[..cur] == out[..];
    AllRows(raw[p..], prior, n);
    ok := true;
  }

  lemma AllRows(raw: seq<byte>, prior: seq<byte>, n: nat)
    ensures UnfilterRows(raw, prior, n, 0) == (true, [])
  {
  }

  /** The first of `h` rows. */
  lemma NextRow(raw: seq<byte>, prior: seq<byte>, n: nat, h: nat)
    requires h > 0 && |raw| >= h * (|prior| + 1)
    ensures |raw| >= |prior| + 1 && |raw| - |prior| - 1 >= (h - 1) * (|prior| + 1)
    ensures raw[0] > 4 ==> UnfilterRows(raw, prior, n, h).0 == false
    ensures raw[0] <= 4 ==>
      var row := UnfilterRow(raw[0], raw[1..|prior| + 1], prior, n);
      var rest := UnfilterRows(raw[|prior| + 1..], row, n, h - 1);
      UnfilterRows(raw, prior, n, h) == (rest.0, row + rest.1)
  {
    Step(h, |prior| + 1);
  }
}
