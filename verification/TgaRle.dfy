/** Run-length coded TGA images: the packets of `stbi_write_tga_core`. */
module TgaRle {
  import opened Arith
  import opened Basics
  import opened Bits
  import opened WriteContext

  /** One byte of grey, or three of colour, and perhaps one of alpha. */
  type Pixel = seq<byte>

  ghost predicate Pixels(ps: seq<Pixel>, comp: nat) {
    forall i :: 0 <= i < |ps| ==> |ps[i]| == comp
  }

  /** Colours are stored blue first. */
  function Swapped(p: Pixel): (r: Pixel)
    ensures |r| == |p| && (r != p ==> |p| >= 3)
  {
    if |p| >= 3 then [p[2], p[1], p[0]] + p[3..] else p
  }

  lemma SwappedTwice(p: Pixel)
    ensures Swapped(Swapped(p)) == p
  {
  }

  function AllSwapped(ps: seq<Pixel>): (r: seq<Pixel>)
    ensures |r| == |ps| && forall i :: 0 <= i < |ps| ==> r[i] == Swapped(ps[i])
  {
    seq(|ps|, i requires 0 <= i < |ps| => Swapped(ps[i]))
  }

  // ---------------------------------------------------------------- packets

  /** Up to 128 pixels as they are, or one pixel up to 128 times; colours are blue first. */
  datatype Packet = Raw(ps: seq<Pixel>) | Run(n: nat, p: Pixel)

  ghost predicate PacketOk(k: Packet, comp: nat) {
    match k
    case Raw(ps) => 1 <= |ps| <= 128 && Pixels(ps, comp)
    case Run(n, p) => 1 <= n <= 128 && |p| == comp
  }

  ghost predicate PacketsOk(ks: seq<Packet>, comp: nat) {
    forall i :: 0 <= i < |ks| ==> PacketOk(ks[i], comp)
  }

  ghost function Spread(k: Packet): seq<Pixel> {
    match k case Raw(ps) => ps case Run(n, p) => Repeat(p, n)
  }

  /** The pixels of all packets. */
  ghost function SpreadAll(ks: seq<Packet>): seq<Pixel> {
    if ks == [] then [] else Spread(ks[0]) + SpreadAll(ks[1..])
  }

  ghost function Joined(ps: seq<Pixel>): seq<byte> {
    if ps == [] then [] else ps[0] + Joined(ps[1..])
  }

  ghost function PacketBytes(k: Packet): seq<byte>
    requires match k case Raw(ps) => 1 <= |ps| <= 128 case Run(n, _) => 1 <= n <= 128
  {
    match k
    case Raw(ps) => [|ps| - 1] + Joined(ps)
    case Run(n, p) => [n + 127] + p
  }

  ghost function AllBytes(ks: seq<Packet>, comp: nat): seq<byte>
    requires PacketsOk(ks, comp)
  {
    if ks == [] then [] else PacketBytes(ks[0]) + AllBytes(ks[1..], comp)
  }

  // ---------------------------------------------------------------- writing

  /** `stbiw__write_pixel`, blue first and with alpha as it comes. */
  method WritePixel(s: Context, comp: nat, write_alpha: bool, d: Pixel)
    requires s.Valid() && 1 <= comp <= 4 && |d| == comp && write_alpha == (comp == 2 || comp == 4)
    modifies s`buf_used, s`given, s.buffer
    ensures s.Valid() && s.Contents() == old(s.Contents()) + Swapped(d)
  {
    if comp <= 2 {
      s.Write1(d[0]);
    } else {
      s.Write3(d[2], d[1], d[0]);
    }
    if write_alpha {
      s.Write1(d[comp - 1]);
    }
  }

  /** Which packet goes at `i`: a run as long as it can be when the next pixel is the same, and else a raw
      packet that ends one pixel before the first two equal pixels that are two apart. */
  ghost predicate Rule(row: seq<Pixel>, i: nat, len: nat, diff: bool) {
    && 1 <= len <= 128 && i + len <= |row| && diff == !(i + 1 < |row| && row[i] == row[i + 1])
    && if diff then
         && (forall k :: i + 2 <= k <= i + len && k < |row| && k < i + 128 ==> row[k] != row[k - 2])
         && (i + len == |row| || len == 128 || (i + len + 1 < |row| && row[i + len + 1] == row[i + len - 1]))
       else
         && (forall k :: i <= k < i + len ==> row[k] == row[i])
         && (i + len == |row| || len == 128 || row[i + len] != row[i])
  }

  /** The packets are those the rule gives for the first `i` pixels of a row. */
  ghost predicate ByRule(row: seq<Pixel>, ks: seq<Packet>, i: nat) {
    if ks == [] then i == 0
    else
      var k := ks[|ks| - 1];
      var len := |Spread(k)|;
      len <= i && Rule(row, i - len, len, k.Raw?) && ByRule(row, ks[..|ks| - 1], i - len)
  }

  lemma ByRuleMore(row: seq<Pixel>, ks: seq<Packet>, i: nat, k: Packet)
    requires ByRule(row, ks, i) && Rule(row, i, |Spread(k)|, k.Raw?)
    ensures ByRule(row, ks + [k], i + |Spread(k)|)
  {
    hide Rule, Spread;
    assert (ks + [k])[..|ks|] == ks;
  }

  /** How far the packet at `i` goes, and whether its pixels differ. */
  method PacketAt(row: seq<Pixel>, i: nat) returns (len: nat, diff: bool)
    requires i < |row|
    ensures Rule(row, i, len, diff)
  {
    diff := true;
    len := 1;
    if i < |row| - 1 {
      len := 2;
      diff := row[i] != row[i + 1];
      var k := i + 2;
      if diff {
        var prev := i;
        while k < |row| && len < 128
          invariant i + 2 <= k <= |row| && len == k - i <= 128 && prev == k - 2
          invariant forall t :: i + 2 <= t < k ==> row[t] != row[t - 2]
        {
          if row[prev] != row[k] {
            prev := prev + 1;
            len := len + 1;
          } else {
            len := len - 1;
            break;
          }
          k := k + 1;
        }
      } else {
        while k < |row| && len < 128
          invariant i + 2 <= k <= |row| && len == k - i <= 128
          invariant forall t :: i <= t < k ==> row[t] == row[i]
        {
          if row[i] == row[k] {
            len := len + 1;
          } else {
            break;
          }
          k := k + 1;
        }
      }
    }
  }

  lemma {:induction false} JoinedMore(ps: seq<Pixel>, p: Pixel)
    ensures Joined(ps + [p]) == Joined(ps) + p
    decreases |ps|
  {
    if ps == [] {
      assert ps + [p] == [p] && [p][1..] == [];
    } else {
      assert (ps + [p])[1..] == ps[1..] + [p];
      JoinedMore(ps[1..], p);
    }
  }

  lemma {:induction false} MorePackets(ks: seq<Packet>, k: Packet, comp: nat)
    requires PacketsOk(ks, comp) && PacketOk(k, comp)
    ensures PacketsOk(ks + [k], comp) && SpreadAll(ks + [k]) == SpreadAll(ks) + Spread(k)
    ensures AllBytes(ks + [k], comp) == AllBytes(ks, comp) + PacketBytes(k)
    decreases |ks|
  {
    hide Spread, PacketBytes, PacketOk;
    if ks == [] {
      assert ks + [k] == [k] && [k][1..] == [];
    } else {
      assert (ks + [k])[1..] == ks[1..] + [k];
      MorePackets(ks[1..], k, comp);
    }
  }

  /** One packet's bytes. */
  method WritePacket(s: Context, comp: nat, has_alpha: bool, row: seq<Pixel>, i: nat, len: nat, diff: bool)
    returns (ghost k: Packet)
    requires s.Valid() && 1 <= comp <= 4 && has_alpha == (comp == 2 || comp == 4) && Pixels(row, comp)
    requires 1 <= len <= 128 && i + len <= |row| && (!diff ==> forall t :: i <= t < i + len ==> row[t] == row[i])
    modifies s`buf_used, s`given, s.buffer
    ensures PacketOk(k, comp) && Spread(k) == AllSwapped(row[i..i + len]) && k.Raw? == diff
    ensures s.Valid() && s.Contents() == old(s.Contents()) + PacketBytes(k)
  {
    hide Swapped, Context.Contents;
    if diff {
      ghost var ps := AllSwapped(row[i..i + len]);
      s.Write1(len - 1);
      for t := 0 to len
        invariant s.Valid() && s.Contents() == old(s.Contents()) + ([len - 1] + Joined(ps[..t]))
      {
        WritePixel(s, comp, has_alpha, row[i + t]);
        JoinedMore(ps[..t], ps[t]);
        assert ps[..t + 1] == ps[..t] + [ps[t]];
      }
      assert ps[..len] == ps;
      k := Raw(ps);
    } else {
      s.Write1(len + 127);
      WritePixel(s, comp, has_alpha, row[i]);
      k := Run(len, Swapped(row[i]));
      assert Repeat(Swapped(row[i]), len) == AllSwapped(row[i..i + len]);
    }
  }

  /** The packets of one row: they cover it exactly. */
  method WriteRow(s: Context, comp: nat, has_alpha: bool, row: seq<Pixel>, ghost head: seq<byte>, ghost ks0: seq<Packet>)
    returns (ghost mine: seq<Packet>)
    requires s.Valid() && 1 <= comp <= 4 && has_alpha == (comp == 2 || comp == 4) && Pixels(row, comp)
    requires PacketsOk(ks0, comp) && s.Contents() == head + AllBytes(ks0, comp)
    modifies s`buf_used, s`given, s.buffer
    ensures ByRule(row, mine, |row|)
    ensures PacketsOk(ks0 + mine, comp) && SpreadAll(ks0 + mine) == SpreadAll(ks0) + AllSwapped(row)
    ensures s.Valid() && s.Contents() == head + AllBytes(ks0 + mine, comp)
  {
    hide Context.Contents, SpreadAll, AllBytes, PacketBytes, PacketsOk, PacketOk, Spread, AllSwapped, Rule;
    mine := [];
    NoneSwapped();
    assert ks0 + mine == ks0;
    var i := 0;
    while i < |row|
      invariant i <= |row| && s.Valid() && PacketsOk(ks0 + mine, comp) && ByRule(row, mine, i)
      invariant s.Contents() == head + AllBytes(ks0 + mine, comp)
      invariant SpreadAll(ks0 + mine) == SpreadAll(ks0) + AllSwapped(row[..i])
    {
      var len, diff := PacketAt(row, i);
      RuleOpen(row, i, len, diff);
      ghost var k := WritePacket(s, comp, has_alpha, row, i, len, diff);
      MorePackets(ks0 + mine, k, comp);
      ByRuleMore(row, mine, i, k);
      assert ks0 + mine + [k] == ks0 + (mine + [k]);
      mine := mine + [k];
      assert row[..i + len] == row[..i] + row[i..i + len];
      SwappedSum(row[..i], row[i..i + len]);
      i := i + len;
    }
    assert row[..i] == row;
  }

  lemma RuleOpen(row: seq<Pixel>, i: nat, len: nat, diff: bool)
    requires Rule(row, i, len, diff)
    ensures 1 <= len <= 128 && i + len <= |row| && (!diff ==> forall t :: i <= t < i + len ==> row[t] == row[i])
    ensures |AllSwapped(row[i..i + len])| == len
  {
  }

  lemma NoneSwapped()
    ensures AllSwapped([]) == []
  {
  }

  lemma SwappedSum(a: seq<Pixel>, b: seq<Pixel>)
    ensures AllSwapped(a + b) == AllSwapped(a) + AllSwapped(b)
  {
  }

  // ---------------------------------------------------------------- the image

  /** `x * y` pixels, top row first. */
  ghost predicate Picture(data: seq<Pixel>, x: nat, y: nat, comp: nat) {
    |data| == y * x && Pixels(data, comp)
  }

  ghost function RowOf(data: seq<Pixel>, x: nat, y: nat, j: nat): (r: seq<Pixel>)
    requires |data| == y * x && j < y
    ensures |r| == x
  {
    RowFits(x, y, j);
    data[j * x..j * x + x]
  }

  lemma RowFits(x: nat, y: nat, j: nat)
    requires j < y
    ensures j * x + x <= y * x
  {
    Mono(j + 1, y, x);
    Step(j + 1, x);
  }

  /** The row written as number `k`: from the bottom up, unless flipping is on. */
  function WrittenRow(y: nat, k: nat, flip: bool): (r: nat)
    requires k < y
    ensures r < y
  {
    if flip then k else y - 1 - k
  }

  /** The first `k` rows in the order of the file. */
  ghost function FilePixels(data: seq<Pixel>, x: nat, y: nat, flip: bool, k: nat): (ps: seq<Pixel>)
    requires |data| == y * x && k <= y
    ensures |ps| == k * x
  {
    if k == 0 then []
    else
      Step(k, x);
      FilePixels(data, x, y, flip, k - 1) + RowOf(data, x, y, WrittenRow(y, k - 1, flip))
  }

  lemma {:induction false} FilePixelAt(data: seq<Pixel>, x: nat, y: nat, flip: bool, k: nat, r: nat, c: nat)
    requires |data| == y * x && r < k <= y && c < x
    ensures Place(x, r, c) < k * x && Place(x, WrittenRow(y, r, flip), c) < |data|
    ensures FilePixels(data, x, y, flip, k)[Place(x, r, c)] == data[Place(x, WrittenRow(y, r, flip), c)]
    decreases k
  {
    hide Place, WrittenRow;
    PlaceBound(x, k, r, c);
    PlaceBound(x, y, WrittenRow(y, r, flip), c);
    NextRow(data, x, y, flip, k - 1);
    var before := FilePixels(data, x, y, flip, k - 1);
    if r < k - 1 {
      FilePixelAt(data, x, y, flip, k - 1, r, c);
    } else {
      RowAt(data, x, y, WrittenRow(y, r, flip), c);
      PlaceIs(x, r, c);
    }
  }

  lemma PlaceIs(w: nat, r: nat, c: nat)
    ensures Place(w, r, c) == r * w + c
  {
  }

  lemma RowAt(data: seq<Pixel>, x: nat, y: nat, j: nat, c: nat)
    requires |data| == y * x && j < y && c < x
    ensures Place(x, j, c) < |data| && RowOf(data, x, y, j)[c] == data[Place(x, j, c)]
  {
    RowFits(x, y, j);
  }

  function LE16(v: nat): (b: seq<byte>)
    requires v < 65536
    ensures |b| == 2
  {
    [v % 256, v / 256]
  }

  function HasAlpha(comp: nat): bool {
    comp == 2 || comp == 4
  }

  function Header(x: nat, y: nat, comp: nat): (h: seq<byte>)
    requires x < 65536 && y < 65536 && 1 <= comp <= 4
    ensures |h| == 18
  {
    [0, 0, if comp <= 2 then 11 else 10, 0, 0, 0, 0, 0, 0, 0, 0, 0] + LE16(x) + LE16(y) +
    [comp * 8, if HasAlpha(comp) then 8 else 0]
  }

  ghost function Flat(rows: seq<seq<Packet>>): seq<Packet> {
    if rows == [] then [] else Flat(rows[..|rows| - 1]) + rows[|rows| - 1]
  }

  /** The packets of the first `k` rows of the file, each row by the rule. */
  ghost predicate RowsByRule(rows: seq<seq<Packet>>, data: seq<Pixel>, x: nat, y: nat, flip: bool, k: nat)
    requires |data| == y * x && k <= y
  {
    |rows| == k && forall t :: 0 <= t < k ==> ByRule(RowOf(data, x, y, WrittenRow(y, t, flip)), rows[t], x)
  }

  /** `stbi_write_tga_core` with run lengths. */
  method WriteTga(s: Context, x: nat, y: nat, comp: nat, data: seq<Pixel>, flip: bool)
    returns (ghost ks: seq<Packet>, ghost rows: seq<seq<Packet>>)
    requires s.Valid() && s.Contents() == [] && s.buf_used == 0 && 1 <= comp <= 4
    requires x < 65536 && y < 65536 && Picture(data, x, y, comp)
    modifies s, s.buffer
    ensures PacketsOk(ks, comp) && SpreadAll(ks) == AllSwapped(FilePixels(data, x, y, flip, y))
    ensures ks == Flat(rows) && RowsByRule(rows, data, x, y, flip, y)
    ensures s.Valid() && s.given == Header(x, y, comp) + AllBytes(ks, comp)
  {
    hide Context.Contents, SpreadAll, AllBytes, PacketsOk, Header, FilePixels, AllSwapped, RowsByRule, ByRule;
    NoneSwapped();
    var has_alpha := comp == 2 || comp == 4;
    s.Pass(Header(x, y, comp));
    ks, rows := [], [];
    Nothing(data, x, y, flip, comp);
    var j: int, jend: int, jdir: int := y - 1, -1, -1;
    if flip { j, jend, jdir := 0, y, 1; }
    ghost var k := 0;
    while j != jend
      invariant k <= y && s.Valid() && PacketsOk(ks, comp) && jdir == (if flip then 1 else -1) && jend == (if flip then y else -1)
      invariant j == if flip then k else y - 1 - k
      invariant s.Contents() == Header(x, y, comp) + AllBytes(ks, comp)
      invariant SpreadAll(ks) == AllSwapped(FilePixels(data, x, y, flip, k))
      invariant ks == Flat(rows) && RowsByRule(rows, data, x, y, flip, k)
      decreases y - k
    {
      RowFits(x, y, j);
      var row := data[j * x..j * x + x];
      ghost var mine := WriteRow(s, comp, has_alpha, row, Header(x, y, comp), ks);
      NextRow(data, x, y, flip, k);
      SwappedSum(FilePixels(data, x, y, flip, k), row);
      RowsMore(rows, mine, data, x, y, flip, k);
      ks, rows := ks + mine, rows + [mine];
      j := j + jdir;
      k := k + 1;
    }
    s.Flush();
  }

  lemma RowsMore(rows: seq<seq<Packet>>, mine: seq<Packet>, data: seq<Pixel>, x: nat, y: nat, flip: bool, k: nat)
    requires |data| == y * x && k < y && RowsByRule(rows, data, x, y, flip, k)
    requires ByRule(RowOf(data, x, y, WrittenRow(y, k, flip)), mine, x)
    ensures Flat(rows + [mine]) == Flat(rows) + mine && RowsByRule(rows + [mine], data, x, y, flip, k + 1)
  {
    hide ByRule, RowOf, WrittenRow;
    assert (rows + [mine])[..|rows|] == rows;
  }

  lemma Nothing(data: seq<Pixel>, x: nat, y: nat, flip: bool, comp: nat)
    requires |data| == y * x
    ensures FilePixels(data, x, y, flip, 0) == [] && SpreadAll([]) == [] && PacketsOk([], comp) && AllBytes([], comp) == []
    ensures RowsByRule([], data, x, y, flip, 0)
  {
  }

  lemma NextRow(data: seq<Pixel>, x: nat, y: nat, flip: bool, k: nat)
    requires |data| == y * x && k < y
    ensures FilePixels(data, x, y, flip, k + 1) ==
            FilePixels(data, x, y, flip, k) + RowOf(data, x, y, WrittenRow(y, k, flip))
  {
  }
}
