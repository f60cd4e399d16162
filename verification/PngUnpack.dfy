/** Samples of 1, 2 and 4 bits, unpacked where they lie: the last part of `stbi__create_png_image_raw`.  The
    packed bytes stand at the right end of the row that the samples will fill from the left. */
module PngUnpack {
  import opened Bits

  /** Samples to a byte. */
  function PerByte(depth: nat): (s: nat)
    ensures s == 2 || s == 4 || s == 8
  {
    match depth case 1 => 8 case 2 => 4 case _ => 2
  }

  predicate DepthOk(depth: nat) {
    depth == 1 || depth == 2 || depth == 4
  }

  /** Grey samples are stretched to 0..255, palette indices are kept. */
  function Scaled(depth: nat, grey: bool, v: nat): nat {
    if !grey then v else match depth case 1 => 255 * v case 2 => 85 * v case _ => 17 * v
  }

  /** Sample `t` of a byte, counted from its high end. */
  function Sample(b: byte, depth: nat, grey: bool, t: nat): (r: byte)
    requires DepthOk(depth) && t < PerByte(depth)
  {
    var shift := 8 - depth * (t + 1);
    TakeBound(Drop(b, shift), depth);
    Pow2Values();
    Scaled(depth, grey, Take(Drop(b, shift), depth))
  }

  /** Stretching is division of the whole range: 2^depth - 1 goes to 255. */
  lemma ScaleIsExact(depth: nat, v: nat)
    requires DepthOk(depth) && v < Pow2(depth)
    ensures Scaled(depth, true, v) * (Pow2(depth) - 1) == 255 * v
  {
    Pow2Values();
  }

  function Samples(b: byte, depth: nat, grey: bool, n: nat): (r: seq<byte>)
    requires DepthOk(depth) && n <= PerByte(depth)
    ensures |r| == n
  {
    seq(n, t requires 0 <= t < n => Sample(b, depth, grey, t))
  }

  /** `n` samples need these many bytes. */
  predicate Holds(bytes: nat, depth: nat, n: nat) {
    match depth
    case 1 => 8 * bytes - 8 < n <= 8 * bytes
    case 2 => 4 * bytes - 4 < n <= 4 * bytes
    case _ => 2 * bytes - 2 < n <= 2 * bytes
  }

  /** Section 2.3 of RFC 2083: the first `n` samples of packed bytes, the high end of each byte first. */
  function Unpacked(packed: seq<byte>, depth: nat, grey: bool, n: nat): (r: seq<byte>)
    requires DepthOk(depth) && Holds(|packed|, depth, n)
    ensures |r| == n
    decreases |packed|
  {
    if n == 0 then []
    else if n <= PerByte(depth) then Samples(packed[0], depth, grey, n)
    else Samples(packed[0], depth, grey, PerByte(depth)) + Unpacked(packed[1..], depth, grey, n - PerByte(depth))
  }

  lemma UnpackNext(packed: seq<byte>, depth: nat, grey: bool, n: nat)
    requires DepthOk(depth) && Holds(|packed|, depth, n) && n > 0
    ensures packed != []
    ensures n > PerByte(depth) ==>
      && Holds(|packed[1..]|, depth, n - PerByte(depth))
      && Unpacked(packed, depth, grey, n) ==
           Samples(packed[0], depth, grey, PerByte(depth)) + Unpacked(packed[1..], depth, grey, n - PerByte(depth))
    ensures n <= PerByte(depth) ==> |packed| == 1 && Unpacked(packed, depth, grey, n) == Samples(packed[0], depth, grey, n)
  {
  }

  /** `img_width_bytes` */
  function PackedLength(n: nat, depth: nat): (b: nat)
    requires DepthOk(depth)
    ensures Holds(b, depth, n)
  {
    (n * depth + 7) / 8
  }

  /** The bytes of one packed byte: the byte is read again for each of them, and none is written over it
      before its last sample. */
  method UnpackByte(a: array<byte>, inp: nat, cur0: nat, depth: nat, grey: bool, n: nat)
    requires DepthOk(depth) && 1 <= n <= PerByte(depth) && inp < a.Length && cur0 + n <= inp + 1
    modifies a
    ensures a[cur0..cur0 + n] == Samples(old(a[inp]), depth, grey, n)
    ensures forall p :: 0 <= p < a.Length && !(cur0 <= p < cur0 + n) ==> a[p] == old(a[p])
  {
    hide Sample;
    ghost var b := a[inp];
    for t := 0 to n
      invariant t < n ==> a[inp] == b
      invariant a[cur0..cur0 + t] == Samples(b, depth, grey, t)
      invariant forall p :: 0 <= p < a.Length && !(cur0 <= p < cur0 + t) ==> a[p] == old(a[p])
    {
      a[cur0 + t] := Sample(a[inp], depth, grey, t);
    }
  }

  /** What the next packed byte gives. */
  lemma NextByte(packed: seq<byte>, depth: nat, grey: bool, k: nat, left: seq<byte>, gap: int) returns (n: nat)
    requires DepthOk(depth) && k > 0 && Holds(|packed|, depth, k) && left == Unpacked(packed, depth, grey, k)
    requires gap + |packed| >= k
    ensures n == (if k < PerByte(depth) then k else PerByte(depth)) && 1 <= n <= gap + 1 && packed != []
    ensures Holds(|packed[1..]|, depth, k - n) && left[..n] == Samples(packed[0], depth, grey, n)
    ensures left[n..] == Unpacked(packed[1..], depth, grey, k - n)
  {
    hide Unpacked, Samples, Sample;
    Room(|packed|, depth, k, gap);
    UnpackNext(packed, depth, grey, k);
    n := if k < PerByte(depth) then k else PerByte(depth);
    if n == k { NoneLeft(packed[1..], depth, grey); }
  }

  /** The samples up to `cur` are in place, and the bytes from there on are still as they were. */
  ghost predicate Moved(now: seq<byte>, was: seq<byte>, row: nat, cur: nat, goal: seq<byte>) {
    && |now| == |was| && row <= cur <= |now| && cur - row <= |goal|
    && (forall p :: row <= p < cur ==> now[p] == goal[p - row])
    && forall p :: 0 <= p < |now| && !(row <= p < cur) ==> now[p] == was[p]
  }

  lemma MovedOn(now: seq<byte>, now': seq<byte>, was: seq<byte>, row: nat, cur: nat, goal: seq<byte>, n: nat)
    requires Moved(now, was, row, cur, goal) && |now'| == |now| && cur + n <= |now| && cur + n - row <= |goal|
    requires now'[cur..cur + n] == goal[cur - row..][..n]
    requires forall p :: 0 <= p < |now| && !(cur <= p < cur + n) ==> now'[p] == now[p]
    ensures Moved(now', was, row, cur + n, goal)
  {
    forall p | cur <= p < cur + n ensures now'[p] == goal[p - row] {
      assert now'[p] == now'[cur..cur + n][p - cur];
    }
  }

  /** A row of `width` bytes at `row`: its samples come from the packed bytes at its right end.  The loop and
      the statements behind it, for a byte that is not full, take the same step. */
  method UnpackRow(a: array<byte>, row: nat, width: nat, n: nat, depth: nat, grey: bool)
    requires DepthOk(depth) && n <= width && row + width <= a.Length && PackedLength(n, depth) <= width
    modifies a
    ensures a[row..row + n] == Unpacked(old(a[row + width - PackedLength(n, depth)..row + width]), depth, grey, n)
    ensures forall p :: 0 <= p < a.Length && !(row <= p < row + n) ==> a[p] == old(a[p])
  {
    hide Unpacked, Samples, PackedLength, Holds, PerByte, Moved;
    var ibw, end := PackedLength(n, depth), row + width;
    var cur: nat, inp: nat, k: nat := row, end - ibw, n;
    ghost var was, goal := a[..], Unpacked(a[inp..end], depth, grey, n);
    FirstRoom(ibw, depth, n, width);
    NotYet(was, row, goal);
    while k > 0
      invariant row <= cur <= inp <= end && cur + k == row + n && Holds(end - inp, depth, k)
      invariant goal[cur - row..] == Unpacked(was[inp..end], depth, grey, k) && Moved(a[..], was, row, cur, goal)
    {
      var s := UnpackNextByte(a, inp, cur, end, depth, grey, k, row, was, goal);
      cur, inp, k := cur + s, inp + 1, k - s;
    }
    AllMoved(a[..], was, row, cur, goal);
  }

  /** One packed byte, whose samples are `goal` from `cur` on. */
  method UnpackNextByte(a: array<byte>, inp: nat, cur: nat, end: nat, depth: nat, grey: bool, k: nat, ghost row: nat,
                        ghost was: seq<byte>, ghost goal: seq<byte>) returns (n: nat)
    requires DepthOk(depth) && k > 0 && row <= cur <= inp <= end <= a.Length == |was| && cur + k <= end
    requires Holds(end - inp, depth, k) && Moved(a[..], was, row, cur, goal) && |goal| == cur - row + k
    requires goal[cur - row..] == Unpacked(was[inp..end], depth, grey, k)
    modifies a
    ensures 1 <= n <= k && inp + 1 <= end && cur + n <= inp + 1 && Holds(end - inp - 1, depth, k - n)
    ensures Moved(a[..], was, row, cur + n, goal)
    ensures goal[cur + n - row..] == Unpacked(was[inp + 1..end], depth, grey, k - n)
  {
    hide Unpacked, Samples, Holds, Moved;
    ghost var now := a[..];
    ghost var m := NextByte(was[inp..end], depth, grey, k, goal[cur - row..], inp - cur);
    n := if k < PerByte(depth) then k else PerByte(depth);
    StillThere(now, was, row, cur, goal, inp);
    assert was[inp..end][1..] == was[inp + 1..end] && was[inp..end][0] == was[inp];
    UnpackByte(a, inp, cur, depth, grey, n);
    MovedOn(now, a[..], was, row, cur, goal, n);
    assert goal[cur - row..][n..] == goal[cur + n - row..];
  }

  lemma NotYet(was: seq<byte>, row: nat, goal: seq<byte>)
    requires row <= |was|
    ensures Moved(was, was, row, row, goal) && goal[0..] == goal
  {
  }

  lemma StillThere(now: seq<byte>, was: seq<byte>, row: nat, cur: nat, goal: seq<byte>, inp: nat)
    requires Moved(now, was, row, cur, goal) && cur <= inp < |now|
    ensures now[inp] == was[inp]
  {
  }

  lemma AllMoved(now: seq<byte>, was: seq<byte>, row: nat, cur: nat, goal: seq<byte>)
    requires Moved(now, was, row, cur, goal) && cur - row == |goal|
    ensures now[row..cur] == goal
    ensures forall p :: 0 <= p < |now| && !(row <= p < cur) ==> now[p] == was[p]
  {
  }

  lemma FirstRoom(ibw: nat, depth: nat, n: nat, width: nat)
    requires DepthOk(depth) && ibw == PackedLength(n, depth) && ibw <= width
    ensures Holds(ibw, depth, n)
  {
  }

  lemma NoneLeft(packed: seq<byte>, depth: nat, grey: bool)
    requires DepthOk(depth) && Holds(|packed|, depth, 0)
    ensures Unpacked(packed, depth, grey, 0) == []
  {
  }

  /** The bytes still to be read leave room for the samples of the next one. */
  lemma Room(bytes: nat, depth: nat, k: nat, gap: int)
    requires DepthOk(depth) && Holds(bytes, depth, k) && k > 0 && gap + bytes >= k
    ensures bytes >= 1 && gap + 1 >= if k < PerByte(depth) then k else PerByte(depth)
  {
  }

  // ---------------------------------------------------------------- alpha

  /** The source's loop for one channel: from the right, so that no sample is lost. */
  method InsertAlpha1(a: array<byte>, cur: nat, x: nat)
    requires cur + 2 * x <= a.Length
    modifies a
    ensures forall q :: 0 <= q < x ==> a[cur + q * 2] == old(a[cur + q]) && a[cur + q * 2 + 1] == 255
    ensures forall p :: 0 <= p < a.Length && !(cur <= p < cur + 2 * x) ==> a[p] == old(a[p])
  {
    var q := x;
    while q > 0
      invariant 0 <= q <= x
      invariant forall t :: q <= t < x ==> a[cur + t * 2] == old(a[cur + t]) && a[cur + t * 2 + 1] == 255
      invariant forall p :: 0 <= p < a.Length && !(cur + 2 * q <= p < cur + 2 * x) ==> a[p] == old(a[p])
    {
      q := q - 1;
      a[cur + q * 2 + 1] := 255;
      a[cur + q * 2] := a[cur + q];
    }
  }

  /** And for three. */
  method InsertAlpha3(a: array<byte>, cur: nat, x: nat)
    requires cur + 4 * x <= a.Length
    modifies a
    ensures forall q :: 0 <= q < x ==>
      && a[cur + q * 4] == old(a[cur + q * 3]) && a[cur + q * 4 + 1] == old(a[cur + q * 3 + 1])
      && a[cur + q * 4 + 2] == old(a[cur + q * 3 + 2]) && a[cur + q * 4 + 3] == 255
    ensures forall p :: 0 <= p < a.Length && !(cur <= p < cur + 4 * x) ==> a[p] == old(a[p])
  {
    var q := x;
    while q > 0
      invariant 0 <= q <= x
      invariant forall t :: q <= t < x ==>
        && a[cur + t * 4] == old(a[cur + t * 3]) && a[cur + t * 4 + 1] == old(a[cur + t * 3 + 1])
        && a[cur + t * 4 + 2] == old(a[cur + t * 3 + 2]) && a[cur + t * 4 + 3] == 255
      invariant forall p :: 0 <= p < a.Length && !(cur + 4 * q <= p < cur + 4 * x) ==> a[p] == old(a[p])
    {
      q := q - 1;
      a[cur + q * 4 + 3] := 255;
      a[cur + q * 4 + 2] := a[cur + q * 3 + 2];
      a[cur + q * 4 + 1] := a[cur + q * 3 + 1];
      a[cur + q * 4] := a[cur + q * 3];
    }
  }

  /** A row of `x` grey or palette samples with alpha, in place: unpacked and then spread. */
  method ExpandRow1(a: array<byte>, row: nat, x: nat, depth: nat, grey: bool)
    requires DepthOk(depth) && row + 2 * x <= a.Length
    modifies a
    ensures PackedLength(x, depth) <= x
    ensures var us := Unpacked(old(a[row + 2 * x - PackedLength(x, depth)..row + 2 * x]), depth, grey, x);
      forall q :: 0 <= q < x ==> a[row + q * 2] == us[q] && a[row + q * 2 + 1] == 255
    ensures forall p :: 0 <= p < a.Length && !(row <= p < row + 2 * x) ==> a[p] == old(a[p])
  {
    hide Unpacked;
    UnpackRow(a, row, 2 * x, x, depth, grey);
    ghost var us := a[row..row + x];
    assert forall q :: 0 <= q < x ==> a[row + q] == us[q];
    InsertAlpha1(a, row, x);
  }

  /** A row of `x` pixels of three samples, when the packed row is not longer than `x` bytes, which the
      reader checks. */
  method ExpandRow3(a: array<byte>, row: nat, x: nat, depth: nat) returns (ok: bool)
    requires DepthOk(depth) && row + 4 * x <= a.Length
    modifies a
    ensures ok <==> PackedLength(3 * x, depth) <= x
    ensures ok ==>
      var us := Unpacked(old(a[row + 4 * x - PackedLength(3 * x, depth)..row + 4 * x]), depth, false, 3 * x);
      forall q :: 0 <= q < x ==>
        && a[row + q * 4] == us[q * 3] && a[row + q * 4 + 1] == us[q * 3 + 1] && a[row + q * 4 + 2] == us[q * 3 + 2]
        && a[row + q * 4 + 3] == 255
    ensures !ok ==> a[..] == old(a[..])
    ensures forall p :: 0 <= p < a.Length && !(row <= p < row + 4 * x) ==> a[p] == old(a[p])
  {
    hide Unpacked, PackedLength;
    if PackedLength(3 * x, depth) > x {
      return false;
    }
    UnpackRow(a, row, 4 * x, 3 * x, depth, false);
    ghost var us := a[row..row + 3 * x];
    assert forall m :: 0 <= m < 3 * x ==> a[row + m] == us[m];
    InsertAlpha3(a, row, x);
    ok := true;
  }
}
