/** Run-length coded scanlines of Radiance HDR images: `stbiw__write_hdr_scanline` behind the conversion of
    the pixels, and the scanline loop of `stbi__hdr_load` in front of it.  A scanline is four planes of
    bytes: red, green, blue and exponent. */
module HdrRle {
  import opened Basics
  import opened Bits
  import opened Streams
  import opened WriteContext

  // ---------------------------------------------------------------- segments

  /** Up to 128 bytes as they are, or one byte up to 127 times. */
  datatype Segment = Dump(bytes: seq<byte>) | Run(n: nat, value: byte)

  ghost predicate SegmentOk(g: Segment) {
    match g case Dump(b) => 1 <= |b| <= 128 case Run(n, _) => 1 <= n <= 127
  }

  ghost predicate SegmentsOk(gs: seq<Segment>) {
    forall i :: 0 <= i < |gs| ==> SegmentOk(gs[i])
  }

  ghost function Spread(g: Segment): seq<byte> {
    match g case Dump(b) => b case Run(n, v) => Repeat(v, n)
  }

  ghost function SpreadAll(gs: seq<Segment>): seq<byte> {
    if gs == [] then [] else Spread(gs[0]) + SpreadAll(gs[1..])
  }

  ghost function SegmentBytes(g: Segment): seq<byte>
    requires SegmentOk(g)
  {
    match g case Dump(b) => [|b|] + b case Run(n, v) => [n + 128, v]
  }

  ghost function AllBytes(gs: seq<Segment>): seq<byte>
    requires SegmentsOk(gs)
  {
    if gs == [] then [] else SegmentBytes(gs[0]) + AllBytes(gs[1..])
  }

  lemma More(gs: seq<Segment>, g: Segment)
    requires SegmentsOk(gs) && SegmentOk(g)
    ensures SegmentsOk(gs + [g]) && SpreadAll(gs + [g]) == SpreadAll(gs) + Spread(g)
    ensures AllBytes(gs + [g]) == AllBytes(gs) + SegmentBytes(g)
  {
    hide Spread, SegmentBytes, SegmentOk, SpreadAll, AllBytes;
    MoreSpread(gs, g);
    MoreBytes(gs, g);
  }

  lemma {:induction false} MoreSpread(gs: seq<Segment>, g: Segment)
    ensures SpreadAll(gs + [g]) == SpreadAll(gs) + Spread(g)
    decreases |gs|
  {
    hide Spread;
    if gs == [] {
      assert gs + [g] == [g] && [g][1..] == [];
    } else {
      assert (gs + [g])[1..] == gs[1..] + [g];
      MoreSpread(gs[1..], g);
    }
  }

  lemma {:induction false} MoreBytes(gs: seq<Segment>, g: Segment)
    requires SegmentsOk(gs) && SegmentOk(g)
    ensures SegmentsOk(gs + [g]) && AllBytes(gs + [g]) == AllBytes(gs) + SegmentBytes(g)
    decreases |gs|
  {
    hide SegmentBytes, SegmentOk;
    if gs == [] {
      assert gs + [g] == [g] && [g][1..] == [];
    } else {
      assert (gs + [g])[1..] == gs[1..] + [g];
      MoreBytes(gs[1..], g);
    }
  }

  // ---------------------------------------------------------------- writing

  /** What a plane's segments so far spell, and what they have put out. */
  ghost predicate Written(s: Context, head: seq<byte>, gs: seq<Segment>, plane: seq<byte>, x: nat)
    reads s, s.buffer
  {
    && s.Valid() && s.buf_used == 0 && SegmentsOk(gs) && x <= |plane| && SpreadAll(gs) == plane[..x]
    && s.Contents() == head + AllBytes(gs)
  }

  /** Three equal bytes at `t`. */
  ghost predicate Triple(comp: seq<byte>, t: nat) {
    t + 2 < |comp| && comp[t] == comp[t + 1] == comp[t + 2]
  }

  /** The first three equal bytes from `x` on, or the width. */
  ghost function NextRun(comp: seq<byte>, x: nat): (r: nat)
    requires x <= |comp|
    ensures x <= r <= |comp| && (r < |comp| ==> Triple(comp, r)) && forall t :: x <= t < r ==> !Triple(comp, t)
    decreases |comp| - x
  {
    if x == |comp| || Triple(comp, x) then x else NextRun(comp, x + 1)
  }

  /** How far the byte at `x` goes on. */
  ghost function RunEnd(comp: seq<byte>, x: nat, r: nat): (e: nat)
    requires x < r <= |comp| && forall t :: x <= t < r ==> comp[t] == comp[x]
    ensures r <= e <= |comp| && (forall t :: x <= t < e ==> comp[t] == comp[x]) && (e < |comp| ==> comp[e] != comp[x])
    decreases |comp| - r
  {
    if r < |comp| && comp[r] == comp[x] then RunEnd(comp, x, r + 1) else r
  }

  ghost function Dumps(comp: seq<byte>, x: nat, r: nat): seq<Segment>
    requires x <= r <= |comp|
    decreases r - x
  {
    if x == r then []
    else var len := if r - x > 128 then 128 else r - x; [Dump(comp[x..x + len])] + Dumps(comp, x + len, r)
  }

  ghost function Runs(v: byte, n: nat): seq<Segment> {
    if n == 0 then [] else var len := if n > 127 then 127 else n; [Run(len, v)] + Runs(v, n - len)
  }

  /** The segments of a plane from `x` on: runs just where three equal bytes begin, and dumps between. */
  ghost function Plan(comp: seq<byte>, x: nat): seq<Segment>
    requires x <= |comp|
    decreases |comp| - x
  {
    var r := NextRun(comp, x);
    Dumps(comp, x, r) +
    if r == |comp| then []
    else var e := RunEnd(comp, r, r + 1); Runs(comp[r], e - r) + Plan(comp, e)
  }

  method FindRun(comp: seq<byte>, x: nat) returns (r: nat)
    requires x < |comp|
    ensures r == NextRun(comp, x)
  {
    r := x;
    while r + 2 < |comp|
      invariant x <= r < |comp| && NextRun(comp, x) == NextRun(comp, r)
    {
      if comp[r] == comp[r + 1] && comp[r] == comp[r + 2] { break; }
      r := r + 1;
    }
    if r + 2 >= |comp| { r := |comp|; }
  }

  method WriteDumps(s: Context, comp: seq<byte>, x0: nat, r: nat, ghost head: seq<byte>, ghost gs0: seq<Segment>)
    returns (ghost gs: seq<Segment>)
    requires x0 <= r <= |comp| && Written(s, head, gs0, comp, x0)
    modifies s`given
    ensures Written(s, head, gs, comp, r) && gs == gs0 + Dumps(comp, x0, r)
  {
    hide SpreadAll, AllBytes, SegmentsOk;
    gs := gs0;
    var x := x0;
    while x < r
      invariant x <= r && Written(s, head, gs, comp, x) && gs + Dumps(comp, x, r) == gs0 + Dumps(comp, x0, r)
    {
      var len := r - x;
      if len > 128 { len := 128; }
      s.Pass([len]);
      s.Pass(comp[x..x + len]);
      More(gs, Dump(comp[x..x + len]));
      gs := gs + [Dump(comp[x..x + len])];
      assert comp[..x + len] == comp[..x] + comp[x..x + len];
      x := x + len;
    }
  }

  method WriteRuns(s: Context, comp: seq<byte>, x0: nat, r: nat, ghost head: seq<byte>, ghost gs0: seq<Segment>)
    returns (ghost gs: seq<Segment>)
    requires x0 < r <= |comp| && Written(s, head, gs0, comp, x0)
    requires forall t :: x0 <= t < r ==> comp[t] == comp[x0]
    modifies s`given
    ensures Written(s, head, gs, comp, r) && gs == gs0 + Runs(comp[x0], r - x0)
  {
    hide SpreadAll, AllBytes, SegmentsOk;
    gs := gs0;
    var x := x0;
    while x < r
      invariant x0 <= x <= r && Written(s, head, gs, comp, x)
      invariant gs + Runs(comp[x0], r - x) == gs0 + Runs(comp[x0], r - x0)
    {
      var len := r - x;
      if len > 127 { len := 127; }
      s.Pass([len + 128]);
      s.Pass([comp[x]]);
      More(gs, Run(len, comp[x]));
      gs := gs + [Run(len, comp[x])];
      assert comp[x..x + len] == Repeat(comp[x], len);
      assert comp[..x + len] == comp[..x] + comp[x..x + len];
      x := x + len;
    }
  }

  /** The end of the run at `x`. */
  method EndOfRun(comp: seq<byte>, x: nat) returns (r: nat)
    requires x < |comp|
    ensures r == RunEnd(comp, x, x + 1)
  {
    r := x;
    while r < |comp| && comp[r] == comp[x]
      invariant x <= r <= |comp| && forall t :: x <= t < r ==> comp[t] == comp[x]
      invariant r > x ==> RunEnd(comp, x, r) == RunEnd(comp, x, x + 1)
    {
      r := r + 1;
    }
  }

  /** One plane: dumps up to the next run, and the run.  Each round gets further. */
  method WritePlane(s: Context, comp: seq<byte>, ghost head: seq<byte>) returns (ghost gs: seq<Segment>)
    requires s.Valid() && s.buf_used == 0 && s.Contents() == head
    modifies s`given
    ensures s.Valid() && s.buf_used == 0 && SegmentsOk(gs) && SpreadAll(gs) == comp && s.Contents() == head + AllBytes(gs)
    ensures gs == Plan(comp, 0)
  {
    hide Context.Contents, Dumps, Runs, SegmentsOk, SegmentOk, Plan, NextRun, RunEnd, Written, SpreadAll, AllBytes;
    gs := [];
    WrittenNone(s, head, comp);
    var x := 0;
    while x < |comp|
      invariant x <= |comp| && Written(s, head, gs, comp, x) && gs + Plan(comp, x) == Plan(comp, 0)
      decreases |comp| - x
    {
      PlanStep(comp, x, gs);
      var r := FindRun(comp, x);
      gs := WriteDumps(s, comp, x, r, head, gs);
      x := r;
      if r + 2 < |comp| {
        r := EndOfRun(comp, x);
        gs := WriteRuns(s, comp, x, r, head, gs);
        x := r;
      }
    }
    WrittenAll(s, head, gs, comp);
  }

  lemma WrittenNone(s: Context, head: seq<byte>, comp: seq<byte>)
    requires s.Valid() && s.buf_used == 0 && s.Contents() == head
    ensures Written(s, head, [], comp, 0)
  {
    hide Context.Contents;
    assert comp[..0] == [] && head + [] == head;
  }

  lemma WrittenAll(s: Context, head: seq<byte>, gs: seq<Segment>, comp: seq<byte>)
    requires Written(s, head, gs, comp, |comp|)
    ensures s.Valid() && s.buf_used == 0 && SegmentsOk(gs) && SpreadAll(gs) == comp && s.Contents() == head + AllBytes(gs)
    ensures gs + Plan(comp, |comp|) == gs
  {
    hide Context.Contents, SpreadAll, AllBytes;
    assert comp[..|comp|] == comp && Plan(comp, |comp|) == [];
  }

  /** One round of the plan, behind the segments so far. */
  lemma PlanStep(comp: seq<byte>, x: nat, gs: seq<Segment>)
    requires x < |comp|
    ensures var r := NextRun(comp, x);
      if r == |comp| then gs + Plan(comp, x) == gs + Dumps(comp, x, r) + Plan(comp, r)
      else
        && r + 2 < |comp|
        && var e := RunEnd(comp, r, r + 1);
           e > r && gs + Plan(comp, x) == gs + Dumps(comp, x, r) + Runs(comp[r], e - r) + Plan(comp, e)
  {
    hide Dumps, Runs, NextRun, RunEnd;
    var r := NextRun(comp, x);
    var d := Dumps(comp, x, r);
    if r == |comp| {
      assert Plan(comp, r) == Dumps(comp, r, r) + [] == [] by { NoDumps(comp); }
      assert Plan(comp, x) == d + [];
    } else {
      var e := RunEnd(comp, r, r + 1);
      Regroup(gs, d, Runs(comp[r], e - r), Plan(comp, e));
    }
  }

  lemma Regroup(a: seq<Segment>, b: seq<Segment>, c: seq<Segment>, d: seq<Segment>)
    ensures a + (b + (c + d)) == a + b + c + d
  {
  }

  lemma NoDumps(comp: seq<byte>)
    ensures NextRun(comp, |comp|) == |comp| && Dumps(comp, |comp|, |comp|) == []
  {
  }

  /** The lists of segments of four planes. */
  ghost predicate PlanesOk(planes: seq<seq<byte>>, width: nat) {
    |planes| == 4 && forall c :: 0 <= c < 4 ==> |planes[c]| == width
  }

  ghost predicate Spells(gss: seq<seq<Segment>>, planes: seq<seq<byte>>) {
    |gss| <= |planes| && forall c :: 0 <= c < |gss| ==> SegmentsOk(gss[c]) && SpreadAll(gss[c]) == planes[c]
  }

  ghost function PlaneBytes(gss: seq<seq<Segment>>): seq<byte>
    requires AllOk(gss)
  {
    if gss == [] then [] else AllBytes(gss[0]) + PlaneBytes(gss[1..])
  }

  lemma {:induction false} MorePlanes(gss: seq<seq<Segment>>, gs: seq<Segment>)
    requires AllOk(gss) && SegmentsOk(gs)
    ensures AllOk(gss + [gs]) && PlaneBytes(gss + [gs]) == PlaneBytes(gss) + AllBytes(gs)
    decreases |gss|
  {
    hide SegmentsOk, AllBytes;
    if gss == [] {
      assert gss + [gs] == [gs] && [gs][1..] == [];
    } else {
      assert (gss + [gs])[1..] == gss[1..] + [gs];
      MorePlanes(gss[1..], gs);
    }
  }

  ghost predicate AllOk(gss: seq<seq<Segment>>) {
    forall c :: 0 <= c < |gss| ==> SegmentsOk(gss[c])
  }

  lemma NoPlanes(planes: seq<seq<byte>>)
    ensures Spells([], planes) && PlaneBytes([]) == []
  {
  }

  lemma SpellsMore(gss: seq<seq<Segment>>, planes: seq<seq<byte>>, gs: seq<Segment>)
    requires Spells(gss, planes) && |gss| < |planes| && SegmentsOk(gs) && SpreadAll(gs) == planes[|gss|]
    ensures Spells(gss + [gs], planes)
  {
    hide SegmentsOk, SpreadAll;
  }

  function LineHeader(width: nat): (h: seq<byte>)
    requires width < 32768
    ensures |h| == 4
  {
    [2, 2, width / 256, width % 256]
  }

  /** A scanline of 8 to 32767 pixels: a header and four planes. */
  method WriteScanline(s: Context, width: nat, planes: seq<seq<byte>>) returns (ghost gss: seq<seq<Segment>>)
    requires s.Valid() && s.buf_used == 0 && 8 <= width < 32768 && PlanesOk(planes, width)
    modifies s`given
    ensures s.Valid() && s.buf_used == 0 && |gss| == 4 && Spells(gss, planes)
    ensures forall c :: 0 <= c < 4 ==> gss[c] == Plan(planes[c], 0)
    ensures s.Contents() == old(s.Contents()) + (LineHeader(width) + PlaneBytes(gss))
  {
    hide Context.Contents, AllBytes, SpreadAll, SegmentsOk, LineHeader, PlaneBytes, Spells, Plan;
    NoPlanes(planes);
    ghost var head := s.Contents();
    s.Pass(LineHeader(width));
    gss := [];
    for c := 0 to 4
      invariant s.Valid() && s.buf_used == 0 && |gss| == c && Spells(gss, planes) && AllOk(gss)
      invariant forall t :: 0 <= t < c ==> gss[t] == Plan(planes[t], 0)
      invariant s.Contents() == head + (LineHeader(width) + PlaneBytes(gss))
    {
      ghost var gs := WritePlane(s, planes[c], s.Contents());
      MorePlanes(gss, gs);
      SpellsMore(gss, planes, gs);
      gss := gss + [gs];
    }
  }

  // ---------------------------------------------------------------- reading

  /** The scanline holds the first `i` bytes of plane `k`. */
  ghost predicate HasPlane(scan: seq<byte>, width: nat, k: nat, plane: seq<byte>, i: nat) {
    |scan| == 4 * width && i <= width == |plane| && k < 4 && forall t :: 0 <= t < i ==> scan[t * 4 + k] == plane[t]
  }

  /** Only bytes of plane `k` differ. */
  ghost predicate OnlyPlane(was: seq<byte>, now: seq<byte>, k: nat) {
    |now| == |was| && forall p :: 0 <= p < |was| && p % 4 != k ==> now[p] == was[p]
  }

  /** What is left of a plane's segments. */
  ghost predicate Ahead(rest: seq<byte>, gs: seq<Segment>, tail: seq<byte>, left: seq<byte>) {
    SegmentsOk(gs) && rest == AllBytes(gs) + tail && SpreadAll(gs) == left
  }

  lemma Open(rest: seq<byte>, gs: seq<Segment>, tail: seq<byte>, left: seq<byte>)
    requires Ahead(rest, gs, tail, left) && left != []
    ensures gs != [] && SegmentOk(gs[0]) && |Spread(gs[0])| <= |left| && left[..|Spread(gs[0])|] == Spread(gs[0])
    ensures var after := AllBytes(gs[1..]) + tail;
      && rest == SegmentBytes(gs[0]) + after
      && Ahead(after, gs[1..], tail, left[|Spread(gs[0])|..])
  {
    var a, b := SegmentBytes(gs[0]), AllBytes(gs[1..]);
    assert a + b + tail == a + (b + tail);
  }

  /** What the next byte of a known plane says, and what follows it. */
  lemma OpenAt(rest: seq<byte>, gs: seq<Segment>, tail: seq<byte>, plane: seq<byte>, i: nat)
    requires i < |plane| && Ahead(rest, gs, tail, plane[i..])
    ensures gs != [] && rest != [] && rest[0] != 0
    ensures rest[0] > 128 ==>
      var n := rest[0] - 128;
      && i + n <= |plane| && rest[1..] != [] && plane[i..i + n] == Repeat(rest[1..][0], n)
      && Ahead(rest[1..][1..], gs[1..], tail, plane[i + n..])
    ensures rest[0] <= 128 ==>
      var n := rest[0];
      && i + n <= |plane| && |rest[1..]| >= n && rest[1..][..n] == plane[i..i + n]
      && Ahead(rest[1..][n..], gs[1..], tail, plane[i + n..])
  {
    hide Ahead, AllBytes, Repeat, Spread, SegmentBytes, SegmentOk;
    Open(rest, gs, tail, plane[i..]);
    var n := |Spread(gs[0])|;
    var after := AllBytes(gs[1..]) + tail;
    SliceOf(plane, i, n);
    FirstByte(gs[0], after, rest);
  }

  lemma SliceOf(plane: seq<byte>, i: nat, n: nat)
    requires i + n <= |plane|
    ensures plane[i..][n..] == plane[i + n..] && plane[i..][..n] == plane[i..i + n]
  {
  }

  /** A segment's bytes in front of others. */
  lemma FirstByte(g: Segment, after: seq<byte>, rest: seq<byte>)
    requires SegmentOk(g) && rest == SegmentBytes(g) + after
    ensures rest != [] && rest[0] != 0
    ensures rest[0] > 128 ==>
      && |Spread(g)| == rest[0] - 128 && rest[1..] != [] && Spread(g) == Repeat(rest[1..][0], rest[0] - 128)
      && rest[1..][1..] == after
    ensures rest[0] <= 128 ==>
      |Spread(g)| == rest[0] && |rest[1..]| >= rest[0] && rest[1..][..rest[0]] == Spread(g) && rest[1..][rest[0]..] == after
  {
    hide Repeat;
    match g
    case Run(m, v) => assert rest[1..] == [v] + after;
    case Dump(b) => assert rest[1..] == b + after;
  }

  /** A byte stored in plane `k`. */
  lemma StoreOne(was: seq<byte>, now: seq<byte>, width: nat, k: nat, plane: seq<byte>, i: nat, v: byte)
    requires HasPlane(was, width, k, plane, i) && i < width && v == plane[i]
    requires i * 4 + k < |was| && now == was[i * 4 + k := v]
    ensures HasPlane(now, width, k, plane, i + 1)
  {
  }

  /** A run or a dump of `count` bytes into plane `k`. */
  method Fill(s: ByteStream, scanline: array<byte>, width: nat, k: nat, i0: nat, count: nat, run: bool, value: byte,
              ghost plane: seq<byte>, ghost known: bool)
    requires s.Valid() && scanline.Length == 4 * width && k < 4 && i0 + count <= width
    requires known ==> HasPlane(scanline[..], width, k, plane, i0)
    requires known && run ==> plane[i0..i0 + count] == Repeat(value, count)
    requires known && !run ==> |s.Rest()| >= count && s.Rest()[..count] == plane[i0..i0 + count]
    modifies s, scanline
    ensures s.Valid() && OnlyPlane(old(scanline[..]), scanline[..], k)
    ensures known ==> HasPlane(scanline[..], width, k, plane, i0 + count)
    ensures known ==> s.Rest() == if run then old(s.Rest()) else old(s.Rest())[count..]
  {
    hide HasPlane, OnlyPlane, Repeat, ByteStream.Valid;
    ghost var was, r := scanline[..], s.Rest();
    SamePlanes(was, k);
    var i := i0;
    for z := 0 to count
      invariant s.Valid() && i == i0 + z && OnlyPlane(was, scanline[..], k)
      invariant known ==> HasPlane(scanline[..], width, k, plane, i)
      invariant known ==> s.Rest() == if run then r else r[z..]
    {
      var v := value;
      PlaneSize(scanline[..], width, k, plane, i, known);
      if known { assert plane[i0..i0 + count][z] == plane[i]; }
      if !run {
        if known { assert r[..count][z] == r[z]; }
        v := s.Get8();
      }
      StoreByte(scanline, width, k, i, v, was, plane, known);
      i := i + 1;
    }
  }

  method StoreByte(scanline: array<byte>, width: nat, k: nat, i: nat, v: byte, ghost was: seq<byte>, ghost plane: seq<byte>,
                   ghost known: bool)
    requires scanline.Length == 4 * width && k < 4 && i < width && OnlyPlane(was, scanline[..], k)
    requires known ==> HasPlane(scanline[..], width, k, plane, i) && |plane| == width && v == plane[i]
    modifies scanline
    ensures OnlyPlane(was, scanline[..], k) && (known ==> HasPlane(scanline[..], width, k, plane, i + 1))
  {
    hide HasPlane, OnlyPlane;
    ghost var now := scanline[..];
    scanline[i * 4 + k] := v;
    assert scanline[..] == now[i * 4 + k := v];
    OtherPlanes(was, now, i * 4 + k, v, k);
    if known { StoreOne(now, scanline[..], width, k, plane, i, v); }
  }

  lemma SamePlanes(was: seq<byte>, k: nat)
    ensures OnlyPlane(was, was, k)
  {
  }

  lemma PlaneSize(scan: seq<byte>, width: nat, k: nat, plane: seq<byte>, i: nat, known: bool)
    requires known ==> HasPlane(scan, width, k, plane, i)
    ensures known ==> |plane| == width
  {
  }

  lemma OtherPlanes(was: seq<byte>, now: seq<byte>, p: nat, v: byte, k: nat)
    requires OnlyPlane(was, now, k) && p < |now| && p % 4 == k
    ensures OnlyPlane(was, now[p := v], k)
  {
  }

  /** One plane of a scanline: segments until it is full, none of them longer than what is left. */
  method ReadPlane(s: ByteStream, scanline: array<byte>, width: nat, k: nat, ghost gs0: seq<Segment>, ghost tail: seq<byte>,
                   ghost plane: seq<byte>, ghost known: bool) returns (ok: bool)
    requires s.Valid() && scanline.Length == 4 * width && k < 4
    requires known ==> |plane| == width && Ahead(s.Rest(), gs0, tail, plane)
    modifies s, scanline
    ensures s.Valid() && OnlyPlane(old(scanline[..]), scanline[..], k)
    ensures known ==> ok && HasPlane(scanline[..], width, k, plane, width) && s.Rest() == tail
  {
    hide HasPlane, OnlyPlane, Ahead;
    ghost var was, gs := scanline[..], gs0;
    SamePlanes(was, k);
    NoneStored(scanline[..], width, k, plane, known);
    assert known ==> plane[0..] == plane;
    var i := 0;
    while i < width
      invariant i <= width && s.Valid() && OnlyPlane(was, scanline[..], k)
      invariant known ==> Ahead(s.Rest(), gs, tail, plane[i..]) && HasPlane(scanline[..], width, k, plane, i)
      decreases width - i
    {
      var nleft := width - i;
      ghost var mid := scanline[..];
      if known {
        OpenAt(s.Rest(), gs, tail, plane, i);
        gs := gs[1..];
      }
      var count := s.Get8();
      if count > 128 {
        var value := s.Get8();
        var n := count - 128;
        if n == 0 || n > nleft {
          return false;
        }
        Fill(s, scanline, width, k, i, n, true, value, plane, known);
        i := i + n;
      } else {
        if count == 0 || count > nleft {
          return false;
        }
        Fill(s, scanline, width, k, i, count, false, 0, plane, known);
        i := i + count;
      }
      OnlyTwice(was, mid, scanline[..], k);
    }
    if known { Done(s.Rest(), gs, tail, plane[i..]); }
    ok := true;
  }

  lemma NoneStored(scan: seq<byte>, width: nat, k: nat, plane: seq<byte>, known: bool)
    requires |scan| == 4 * width && k < 4
    ensures known && |plane| == width ==> HasPlane(scan, width, k, plane, 0)
  {
  }

  lemma OnlyTwice(a: seq<byte>, b: seq<byte>, c: seq<byte>, k: nat)
    requires OnlyPlane(a, b, k) && OnlyPlane(b, c, k)
    ensures OnlyPlane(a, c, k)
  {
  }

  lemma Done(rest: seq<byte>, gs: seq<Segment>, tail: seq<byte>, left: seq<byte>)
    requires Ahead(rest, gs, tail, left) && left == []
    ensures rest == tail
  {
    NotEmpty(gs);
  }

  lemma NotEmpty(gs: seq<Segment>)
    ensures SegmentsOk(gs) && SpreadAll(gs) == [] ==> gs == []
  {
    if gs != [] && SegmentsOk(gs) {
      assert SegmentOk(gs[0]);
    }
  }

  datatype Outcome = Decoded | NotRunLength | Corrupt

  /** One scanline.  Another start of line means pixels without run lengths. */
  method ReadScanline(s: ByteStream, scanline: array<byte>, width: nat, ghost gss: seq<seq<Segment>>, ghost tail: seq<byte>,
                      ghost planes: seq<seq<byte>>)
    returns (r: Outcome)
    requires s.Valid() && scanline.Length == 4 * width
    modifies s, scanline
    ensures s.Valid()
    ensures LineComes(old(s.Rest()), width, gss, tail, planes) ==>
      && r == Decoded && s.Rest() == tail
      && forall i, k :: 0 <= i < width && 0 <= k < 4 ==> scanline[i * 4 + k] == planes[k][i]
  {
    hide HasPlane, OnlyPlane, Ahead, LineComes, PlanesAhead;
    ghost var known := LineComes(s.Rest(), width, gss, tail, planes);
    if known { StartOfLine(s.Rest(), width, gss, tail, planes); }
    ghost var rest := s.Rest();
    var c1 := s.Get8();
    var c2 := s.Get8();
    var len: nat := s.Get8();
    if c1 != 2 || c2 != 2 || len >= 128 {
      return NotRunLength;
    }
    var low := s.Get8();
    if len * 256 + low != width {
      return Corrupt;
    }
    for k := 0 to 4
      invariant s.Valid() && (known ==> |planes| == |gss| == 4 && forall c :: 0 <= c < 4 ==> |planes[c]| == width)
      invariant known ==> forall c :: 0 <= c < k ==> HasPlane(scanline[..], width, c, planes[c], width)
      invariant known ==> PlanesAhead(s.Rest(), gss, k, tail, planes)
    {
      ghost var was, plane, gs, after := scanline[..], [], [], [];
      if known {
        after := NextPlane(s.Rest(), gss, k, tail, planes);
        plane, gs := planes[k], gss[k];
      }
      var ok := ReadPlane(s, scanline, width, k, gs, after, plane, known);
      if !ok {
        return Corrupt;
      }
      if known {
        forall c | 0 <= c < k ensures HasPlane(scanline[..], width, c, planes[c], width) {
          KeepPlane(was, scanline[..], width, c, planes[c], k);
        }
      }
    }
    if known {
      LastPlane(s.Rest(), gss, tail, planes);
      forall i, k | 0 <= i < width && 0 <= k < 4 ensures scanline[i * 4 + k] == planes[k][i] {
        ByteOf(scanline[..], width, k, planes[k], i);
      }
    }
    r := Decoded;
  }

  /** A written scanline comes next. */
  ghost predicate LineComes(rest: seq<byte>, width: nat, gss: seq<seq<Segment>>, tail: seq<byte>, planes: seq<seq<byte>>) {
    && 8 <= width < 32768 && PlanesOk(planes, width) && |gss| == 4 && Spells(gss, planes)
    && rest == LineHeader(width) + PlaneBytes(gss) + tail
  }

  ghost predicate PlanesAhead(rest: seq<byte>, gss: seq<seq<Segment>>, k: nat, tail: seq<byte>, planes: seq<seq<byte>>) {
    && k <= |gss| && Spells(gss, planes) && rest == PlaneBytes(gss[k..]) + tail
  }

  lemma StartOfLine(rest: seq<byte>, width: nat, gss: seq<seq<Segment>>, tail: seq<byte>, planes: seq<seq<byte>>)
    requires LineComes(rest, width, gss, tail, planes)
    ensures |rest| >= 4 && rest[0] == 2 && rest[1] == 2 && rest[2] < 128 && rest[2] as int * 256 + rest[3] == width
    ensures PlanesAhead(rest[4..], gss, 0, tail, planes)
    ensures |planes| == |gss| == 4 && forall c :: 0 <= c < 4 ==> |planes[c]| == width
    ensures rest[4..] == rest[1..][1..][1..][1..]
  {
    hide PlaneBytes, SegmentsOk;
    assert gss[0..] == gss;
    var more := PlaneBytes(gss) + tail;
    assert rest == LineHeader(width) + more;
    assert rest[4..] == more;
  }

  lemma NextPlane(rest: seq<byte>, gss: seq<seq<Segment>>, k: nat, tail: seq<byte>, planes: seq<seq<byte>>)
    returns (after: seq<byte>)
    requires PlanesAhead(rest, gss, k, tail, planes) && k < |gss|
    ensures Ahead(rest, gss[k], after, planes[k]) && PlanesAhead(after, gss, k + 1, tail, planes)
  {
    assert gss[k..][0] == gss[k] && gss[k..][1..] == gss[k + 1..];
    after := PlaneBytes(gss[k + 1..]) + tail;
    assert rest == AllBytes(gss[k]) + after;
  }

  lemma LastPlane(rest: seq<byte>, gss: seq<seq<Segment>>, tail: seq<byte>, planes: seq<seq<byte>>)
    requires PlanesAhead(rest, gss, |gss|, tail, planes)
    ensures rest == tail
  {
    assert gss[|gss|..] == [];
  }

  lemma KeepPlane(was: seq<byte>, now: seq<byte>, width: nat, c: nat, plane: seq<byte>, k: nat)
    requires HasPlane(was, width, c, plane, width) && OnlyPlane(was, now, k) && c < k < 4
    ensures HasPlane(now, width, c, plane, width)
  {
    forall t | 0 <= t < width ensures now[t * 4 + c] == plane[t] {
      assert (t * 4 + c) % 4 == c;
    }
  }

  lemma ByteOf(scan: seq<byte>, width: nat, k: nat, plane: seq<byte>, i: nat)
    requires HasPlane(scan, width, k, plane, width) && i < width
    ensures i * 4 + k < |scan| && scan[i * 4 + k] == plane[i]
  {
  }

  /** Writing a scanline and reading it: the bytes of each pixel, side by side. */
  method WriteThenRead(width: nat, planes: seq<seq<byte>>, scanline: array<byte>) returns (r: Outcome)
    requires 8 <= width < 32768 && PlanesOk(planes, width) && scanline.Length == 4 * width
    modifies scanline
    ensures r == Decoded
    ensures forall i, k :: 0 <= i < width && 0 <= k < 4 ==> scanline[i * 4 + k] == planes[k][i]
  {
    hide Spells, LineHeader, PlaneBytes, Context.Contents;
    var w := new Context();
    ghost var gss := WriteScanline(w, width, planes);
    w.Flush();
    var s := new ByteStream(w.given);
    Comes(s.Rest(), width, gss, planes);
    r := ReadScanline(s, scanline, width, gss, [], planes);
  }

  lemma Comes(rest: seq<byte>, width: nat, gss: seq<seq<Segment>>, planes: seq<seq<byte>>)
    requires 8 <= width < 32768 && PlanesOk(planes, width) && |gss| == 4 && Spells(gss, planes)
    requires rest == [] + (LineHeader(width) + PlaneBytes(gss))
    ensures LineComes(rest, width, gss, [], planes)
  {
    assert rest == LineHeader(width) + PlaneBytes(gss) + [];
  }
}
