/** `stbi__tga_load` for run-length coded grey and true-colour images, and reading back what is written. */
module TgaReader {
  import opened Arith
  import opened Basics
  import opened Bits
  import opened Streams
  import opened WriteContext
  import opened TgaRle

  datatype Loaded = Image(x: nat, y: nat, comp: nat, pixels: seq<Pixel>) | Corrupt | OutsideModel

  // ---------------------------------------------------------------- one pixel of the loop

  /** What the loop has still to give: pixels left over from a raw packet, and the packets to come. */
  datatype Todo = Todo(comp: nat, raw: seq<Pixel>, ks: seq<Packet>, tail: seq<byte>)

  /** The bytes and the pixels of the packets to come. */
  ghost function Ahead(t: Todo): seq<byte>
    requires PacketsOk(t.ks, t.comp)
  {
    AllBytes(t.ks, t.comp) + t.tail
  }

  /** The loop's variables and the input match what is to come; `want` are the pixels still to be given. */
  ghost predicate Pending(t: Todo, count: nat, repeating: bool, raw_data: Pixel, rest: seq<byte>, want: seq<Pixel>) {
    && PacketsOk(t.ks, t.comp) && Pixels(t.raw, t.comp)
    && if count > 0 && repeating then rest == Ahead(t) && want == Repeat(raw_data, count) + SpreadAll(t.ks)
       else |t.raw| == count && rest == Joined(t.raw) + Ahead(t) && want == t.raw + SpreadAll(t.ks)
  }

  lemma FirstPacket(t: Todo) returns (t': Todo)
    requires PacketsOk(t.ks, t.comp) && SpreadAll(t.ks) != []
    ensures t.ks != [] && PacketOk(t.ks[0], t.comp) && t' == t.(ks := t.ks[1..]) && PacketsOk(t'.ks, t'.comp)
    ensures Ahead(t) == PacketBytes(t.ks[0]) + Ahead(t') && SpreadAll(t.ks) == Spread(t.ks[0]) + SpreadAll(t'.ks)
  {
    t' := t.(ks := t.ks[1..]);
    var a, b := PacketBytes(t.ks[0]), AllBytes(t.ks[1..], t.comp);
    assert AllBytes(t.ks, t.comp) + t.tail == a + (b + t.tail);
  }

  /** The command of the next packet. */
  lemma OpenPacket(t: Todo, repeating: bool, rest: seq<byte>, want: seq<Pixel>, raw_data: Pixel) returns (t': Todo)
    requires Pending(t, 0, repeating, raw_data, rest, want) && want != []
    ensures rest != [] && t'.comp == t.comp
    ensures rest[0] < 128 ==> Pending(t', 1 + rest[0], false, raw_data, rest[1..], want)
    ensures rest[0] >= 128 ==>
      && PacketsOk(t'.ks, t'.comp) && t'.raw == [] && |rest[1..]| >= t.comp && rest[1..][t.comp..] == Ahead(t')
      && want == Repeat(rest[1..][..t.comp], rest[0] - 127) + SpreadAll(t'.ks)
  {
    hide PacketsOk, AllBytes, SpreadAll, Repeat, Ahead, PacketBytes, Spread, PacketOk;
    assert Joined(t.raw) == [] && t.raw == [];
    var u := FirstPacket(t);
    if t.ks[0].Raw? {
      t' := u.(raw := t.ks[0].ps);
      SameTail(u, t');
      RawPacket(t.ks[0], t.comp, Ahead(u), rest);
    } else {
      t' := u;
      RunPacket(t.ks[0], t.comp, Ahead(u), rest);
    }
  }

  lemma RawPacket(k: Packet, comp: nat, ahead: seq<byte>, rest: seq<byte>)
    requires PacketOk(k, comp) && k.Raw? && rest == PacketBytes(k) + ahead
    ensures rest != [] && rest[0] < 128 && |k.ps| == 1 + rest[0] && Pixels(k.ps, comp)
    ensures rest[1..] == Joined(k.ps) + ahead && Spread(k) == k.ps
  {
  }

  lemma RunPacket(k: Packet, comp: nat, ahead: seq<byte>, rest: seq<byte>)
    requires PacketOk(k, comp) && k.Run? && rest == PacketBytes(k) + ahead
    ensures rest != [] && rest[0] >= 128 && |rest[1..]| >= comp
    ensures rest[1..][..comp] == k.p && rest[1..][comp..] == ahead && Spread(k) == Repeat(k.p, rest[0] - 127)
  {
    assert rest[1..] == k.p + ahead;
  }

  /** One pixel is given out of a run, or out of a raw packet. */
  lemma GiveRun(t: Todo, count: nat, raw_data: Pixel, rest: seq<byte>, want: seq<Pixel>)
    requires count > 0 && Pending(t, count, true, raw_data, rest, want) && t.raw == []
    ensures want != [] && want[0] == raw_data && Pending(t, count - 1, true, raw_data, rest, want[1..])
  {
    hide PacketsOk, AllBytes, SpreadAll, Ahead;
    assert Repeat(raw_data, count)[1..] == Repeat(raw_data, count - 1);
    assert Joined([]) == [];
    assert want[1..] == Repeat(raw_data, count - 1) + SpreadAll(t.ks);
  }

  lemma GiveRaw(t: Todo, count: nat, raw_data: Pixel, rest: seq<byte>, want: seq<Pixel>) returns (t': Todo)
    requires count > 0 && Pending(t, count, false, raw_data, rest, want)
    ensures t'.comp == t.comp && want != [] && |rest| >= t.comp && want[0] == rest[..t.comp]
    ensures Pending(t', count - 1, false, want[0], rest[t.comp..], want[1..])
  {
    hide PacketsOk, AllBytes, SpreadAll, Ahead;
    t' := t.(raw := t.raw[1..]);
    SameTail(t, t');
    assert Joined(t.raw) == t.raw[0] + Joined(t.raw[1..]);
    assert rest == t.raw[0] + (Joined(t.raw[1..]) + Ahead(t'));
  }

  lemma SameTail(t: Todo, t': Todo)
    requires t'.ks == t.ks && t'.comp == t.comp && t'.tail == t.tail && PacketsOk(t.ks, t.comp)
    ensures Ahead(t') == Ahead(t)
  {
  }

  /** `n` bytes one by one; past the end of the input they are 0. */
  method ReadBytes(s: ByteStream, n: nat) returns (p: seq<byte>)
    requires s.Valid()
    modifies s
    ensures s.Valid() && |p| == n
    ensures |old(s.Rest())| >= n ==> p == old(s.Rest())[..n] && s.Rest() == old(s.Rest())[n..]
  {
    ghost var r := s.Rest();
    p := [];
    for j := 0 to n
      invariant s.Valid() && |p| == j
      invariant |r| >= n ==> p == r[..j] && s.Rest() == r[j..]
    {
      var b := s.Get8();
      p := p + [b];
    }
  }

  /** The body of the pixel loop in run-length mode. */
  method NextPixel(s: ByteStream, comp: nat, count0: nat, repeating0: bool, raw0: Pixel, ghost t: Todo, ghost want: seq<Pixel>,
                   ghost known: bool)
    returns (count: nat, repeating: bool, raw_data: Pixel, ghost t': Todo)
    requires s.Valid() && |raw0| == comp
    requires known ==> t.comp == comp && want != [] && Pending(t, count0, repeating0, raw0, s.Rest(), want)
    requires known && count0 > 0 && repeating0 ==> t.raw == []
    modifies s
    ensures s.Valid() && |raw_data| == comp
    ensures known ==>
      && t'.comp == comp && raw_data == want[0] && Pending(t', count, repeating, raw_data, s.Rest(), want[1..])
      && (count > 0 && repeating ==> t'.raw == [])
  {
    hide Pending, PacketsOk, AllBytes, SpreadAll, Ahead, Repeat, Joined;
    t', count, repeating, raw_data := t, count0, repeating0, raw0;
    var read_next_pixel := false;
    if count == 0 {
      if known { t' := OpenPacket(t, repeating, s.Rest(), want, raw0); }
      var cmd := s.Get8();
      count := 1 + cmd % 128;
      repeating := cmd / 128 == 1;
      read_next_pixel := true;
    } else if !repeating {
      read_next_pixel := true;
    }
    if read_next_pixel {
      ghost var rest := s.Rest();
      raw_data := ReadBytes(s, comp);
      if known && repeating {
        StartRun(t', count, raw_data, s.Rest(), want);
        GiveRun(t', count, raw_data, s.Rest(), want);
      } else if known {
        t' := GiveRaw(t', count, raw0, rest, want);
        EndOfRaw(t', count - 1, raw_data, s.Rest(), want[1..]);
      }
    } else if known {
      GiveRun(t, count, raw_data, s.Rest(), want);
    }
    count := count - 1;
  }

  /** A run whose pixel has been read. */
  lemma StartRun(t: Todo, count: nat, p: Pixel, rest: seq<byte>, want: seq<Pixel>)
    requires PacketsOk(t.ks, t.comp) && t.raw == [] && rest == Ahead(t) && count > 0
    requires want == Repeat(p, count) + SpreadAll(t.ks)
    ensures Pending(t, count, true, p, rest, want)
  {
  }

  /** In a raw packet the last pixel read does not matter. */
  lemma EndOfRaw(t: Todo, count: nat, p: Pixel, rest: seq<byte>, want: seq<Pixel>)
    requires Pending(t, count, false, p, rest, want)
    ensures count == 0 ==> t.raw == []
  {
  }

  // ---------------------------------------------------------------- the image

  /** The pixels are those of `data`, upside down when it was flipped. */
  ghost predicate Shows(ps: seq<Pixel>, data: seq<Pixel>, x: nat, y: nat, flip: bool) {
    && |ps| == |data| == y * x
    && forall i: nat, c: nat :: i < y && c < x ==> At(ps, x, y, i, c) == At(data, x, y, if flip then y - 1 - i else i, c)
  }

  lemma SamePicture(a: seq<Pixel>, b: seq<Pixel>, w: nat, h: nat)
    requires |a| == |b| == h * w && forall r: nat, c: nat :: r < h && c < w ==> At(a, w, h, r, c) == At(b, w, h, r, c)
    ensures a == b
  {
    forall p | 0 <= p < |a| ensures a[p] == b[p] {
      var r, c := PlaceExists(w, h, p);
      assert At(a, w, h, r, c) == At(b, w, h, r, c);
    }
  }

  /** Two stretches of `w` elements change places, one element after the other. */
  method SwapRuns(a: array<Pixel>, p0: nat, q0: nat, w: nat)
    requires p0 == q0 || p0 + w <= q0
    requires q0 + w <= a.Length
    modifies a
    ensures forall p :: p0 <= p < p0 + w ==> a[p] == old(a[..])[p - p0 + q0]
    ensures forall p :: q0 <= p < q0 + w ==> a[p] == old(a[..])[p - q0 + p0]
    ensures forall p :: 0 <= p < a.Length && !(p0 <= p < p0 + w) && !(q0 <= p < q0 + w) ==> a[p] == old(a[..])[p]
  {
    ghost var was := a[..];
    var index1, index2 := p0, q0;
    for i := 0 to w
      invariant forall p :: p0 <= p < p0 + i ==> a[p] == was[p - p0 + q0]
      invariant forall p :: q0 <= p < q0 + i ==> a[p] == was[p - q0 + p0]
      invariant forall p :: 0 <= p < a.Length && !(p0 <= p < p0 + i) && !(q0 <= p < q0 + i) ==> a[p] == was[p]
      invariant index1 == p0 + i && index2 == q0 + i
    {
      a[index1], a[index2] := a[index2], a[index1];
      index1, index2 := index1 + 1, index2 + 1;
    }
  }

  /** Two rows change places. */
  method SwapRows(a: array<Pixel>, w: nat, h: nat, j: nat)
    requires a.Length == h * w && 2 * j < h
    modifies a
    ensures forall r: nat, c: nat :: r < h && c < w ==>
      At(a[..], w, h, r, c) == At(old(a[..]), w, h, if r == j || r == h - 1 - j then h - 1 - r else r, c)
  {
    hide At;
    ghost var was := a[..];
    RowsApart(w, h, j);
    var p0, q0 := j * w, (h - 1 - j) * w;
    SwapRuns(a, p0, q0, w);
    ghost var now := a[..];
    forall r: nat, c: nat | r < h && c < w
      ensures At(now, w, h, r, c) == At(was, w, h, if r == j || r == h - 1 - j then h - 1 - r else r, c)
    {
      RowSwapped(was, now, w, h, j, p0, q0, r, c);
    }
  }

  lemma RowSwapped(was: seq<Pixel>, now: seq<Pixel>, w: nat, h: nat, j: nat, p0: nat, q0: nat, r: nat, c: nat)
    requires |was| == |now| == h * w && 2 * j < h && r < h && c < w
    requires p0 == j * w && q0 == (h - 1 - j) * w && q0 + w <= |now| && p0 + w <= |now|
    requires forall p :: p0 <= p < p0 + w ==> now[p] == was[p - p0 + q0]
    requires forall p :: q0 <= p < q0 + w ==> now[p] == was[p - q0 + p0]
    requires forall p :: 0 <= p < |now| && !(p0 <= p < p0 + w) && !(q0 <= p < q0 + w) ==> now[p] == was[p]
    ensures At(now, w, h, r, c) == At(was, w, h, if r == j || r == h - 1 - j then h - 1 - r else r, c)
  {
    hide Place;
    InRow(w, h, r, c, j);
    InRow(w, h, r, c, h - 1 - j);
    InRow(w, h, h - 1 - r, c, h - 1 - r);
    PlaceBound(w, h, r, c);
    PlaceBound(w, h, h - 1 - r, c);
  }

  lemma RowsApart(w: nat, h: nat, j: nat)
    requires 2 * j < h
    ensures (h - 1 - j) * w + w <= h * w && j * w + w <= h * w && (j == h - 1 - j || j * w + w <= (h - 1 - j) * w)
  {
    RowFits(w, h, h - 1 - j);
    if j < h - 1 - j { RowFits(w, h - 1 - j, j); }
  }

  /** A position lies in row `j` only if that is its row. */
  lemma InRow(w: nat, h: nat, r: nat, c: nat, j: nat)
    requires r < h && c < w && j < h
    ensures j * w <= Place(w, r, c) < j * w + w <==> r == j
    ensures r == j ==> Place(w, r, c) == j * w + c
  {
    if r < j {
      RowFits(w, j, r);
    } else if j < r {
      RowFits(w, r, j);
    }
  }

  /** The inversion of an image that starts at the bottom. */
  method InvertRows(a: array<Pixel>, w: nat, h: nat)
    requires a.Length == h * w
    modifies a
    ensures forall r: nat, c: nat :: r < h && c < w ==> At(a[..], w, h, r, c) == At(old(a[..]), w, h, h - 1 - r, c)
  {
    hide At, Inverted;
    ghost var was := a[..];
    var j := 0;
    NotInverted(was, w, h);
    while j * 2 < h
      invariant 2 * j <= h + 1 && Inverted(a[..], was, w, h, j)
    {
      ghost var now := a[..];
      SwapRows(a, w, h, j);
      MoreInverted(now, a[..], was, w, h, j);
      j := j + 1;
    }
    AllInverted(a[..], was, w, h, j);
  }

  /** The first and the last `j` rows have changed places. */
  ghost predicate Inverted(now: seq<Pixel>, was: seq<Pixel>, w: nat, h: nat, j: nat) {
    && |now| == |was| == h * w
    && forall r: nat, c: nat :: r < h && c < w ==>
         At(now, w, h, r, c) == At(was, w, h, if r < j || r > h - 1 - j then h - 1 - r else r, c)
  }

  lemma NotInverted(was: seq<Pixel>, w: nat, h: nat)
    requires |was| == h * w
    ensures Inverted(was, was, w, h, 0)
  {
    hide At;
  }

  lemma MoreInverted(now: seq<Pixel>, now': seq<Pixel>, was: seq<Pixel>, w: nat, h: nat, j: nat)
    requires Inverted(now, was, w, h, j) && |now'| == |now| && 2 * j < h
    requires forall r: nat, c: nat :: r < h && c < w ==>
      At(now', w, h, r, c) == At(now, w, h, if r == j || r == h - 1 - j then h - 1 - r else r, c)
    ensures Inverted(now', was, w, h, j + 1)
  {
    hide At;
    forall r: nat, c: nat | r < h && c < w
      ensures At(now', w, h, r, c) == At(was, w, h, if r < j + 1 || r > h - 1 - (j + 1) then h - 1 - r else r, c)
    {
      var r' := if r == j || r == h - 1 - j then h - 1 - r else r;
      assert At(now', w, h, r, c) == At(now, w, h, r', c);
    }
  }

  lemma AllInverted(now: seq<Pixel>, was: seq<Pixel>, w: nat, h: nat, j: nat)
    requires Inverted(now, was, w, h, j) && h <= 2 * j
    ensures forall r: nat, c: nat :: r < h && c < w ==> At(now, w, h, r, c) == At(was, w, h, h - 1 - r, c)
  {
    hide At;
  }

  lemma SameSizes(was: seq<Pixel>, now: seq<Pixel>, w: nat, h: nat, comp: nat)
    requires |was| == |now| == h * w && Pixels(was, comp)
    requires forall r: nat, c: nat :: r < h && c < w ==> At(now, w, h, r, c) == At(was, w, h, h - 1 - r, c)
    ensures Pixels(now, comp)
  {
    forall p | 0 <= p < |now| ensures |now[p]| == comp {
      var r, c := PlaceExists(w, h, p);
      assert At(now, w, h, r, c) == At(was, w, h, h - 1 - r, c);
    }
  }

  /** Red and blue change places. */
  method SwapChannels(a: array<Pixel>, comp: nat)
    requires Pixels(a[..], comp)
    modifies a
    ensures a[..] == if comp >= 3 then AllSwapped(old(a[..])) else old(a[..])
  {
    if comp >= 3 {
      ghost var was := a[..];
      for i := 0 to a.Length
        invariant forall p :: 0 <= p < a.Length ==> a[p] == if p < i then Swapped(was[p]) else was[p]
      {
        var p := a[i];
        a[i] := [p[2], p[1], p[0]] + p[3..];
      }
      assert a[..] == AllSwapped(was);
    }
  }

  /** The fields of the header that are used; the others are read over. */
  datatype Head = Head(offset: nat, indexed: nat, kind: nat, width: nat, height: nat, bits: nat, desc: nat)

  ghost function HeadOf(b: seq<byte>): Head
    requires |b| >= 18
  {
    Head(b[0], b[1], b[2], b[12] + 256 * b[13] as int, b[14] + 256 * b[15] as int, b[16], b[17])
  }

  method ReadHead(s: ByteStream) returns (h: Head)
    requires s.Valid()
    modifies s
    ensures s.Valid() && h.width < 65536 && h.height < 65536 && h.offset < 256
    ensures |old(s.Rest())| >= 18 ==> h == HeadOf(old(s.Rest())) && s.Rest() == old(s.Rest())[18..]
  {
    ghost var b := s.Rest();
    var offset, indexed, imageType := ReadKind(s);
    var width, height, bits, descriptor := ReadSize(s);
    assert |b| >= 18 ==> b[12..][6..] == b[18..];
    h := Head(offset, indexed, imageType, width, height, bits, descriptor);
  }

  /** Up to the origin. */
  method ReadKind(s: ByteStream) returns (offset: byte, indexed: byte, imageType: byte)
    requires s.Valid()
    modifies s
    ensures s.Valid()
    ensures var b := old(s.Rest());
      |b| >= 12 ==> offset == b[0] && indexed == b[1] && imageType == b[2] && s.Rest() == b[12..]
  {
    ghost var b := s.Rest();
    offset := s.Get8();
    indexed := s.Get8();
    imageType := s.Get8();
    assert |b| >= 12 ==> s.Rest() == b[3..];
    var paletteStart := s.Get16le();
    var paletteLen := s.Get16le();
    var paletteBits := s.Get8();
    assert |b| >= 12 ==> s.Rest() == b[8..];
    var xOrigin := s.Get16le();
    var yOrigin := s.Get16le();
    assert |b| >= 12 ==> s.Rest() == b[12..];
  }

  method ReadSize(s: ByteStream) returns (width: nat, height: nat, bits: byte, descriptor: byte)
    requires s.Valid()
    modifies s
    ensures s.Valid() && width < 65536 && height < 65536
    ensures var b := old(s.Rest());
      |b| >= 6 ==>
        && width == b[0] + 256 * b[1] as int && height == b[2] + 256 * b[3] as int && bits == b[4] && descriptor == b[5]
        && s.Rest() == b[6..]
  {
    ghost var b := s.Rest();
    width := s.Get16le();
    height := s.Get16le();
    assert |b| >= 6 ==> s.Rest() == b[4..];
    bits := s.Get8();
    descriptor := s.Get8();
    assert |b| >= 6 ==> s.Rest() == b[6..];
  }

  /** `stbi__tga_get_comp`: 0 for a format that is not known; 16-bit colour is outside the model. */
  function CompOf(bits: nat, grey: bool): nat {
    if bits == 8 then 1
    else if bits == 16 && grey then 2
    else if bits == 24 || bits == 32 then bits / 8
    else 0
  }

  predicate Rgb16(bits: nat, grey: bool) {
    bits == 15 || (bits == 16 && !grey)
  }

  /** The pixel loop. */
  method LoadPixels(s: ByteStream, n: nat, comp: nat, ghost t0: Todo, ghost want: seq<Pixel>, ghost known: bool)
    returns (a: array<Pixel>)
    requires s.Valid()
    requires known ==> t0.comp == comp && |want| == n && Pending(t0, 0, false, Zero(comp), s.Rest(), want)
    modifies s
    ensures s.Valid() && a.Length == n && fresh(a) && Pixels(a[..], comp)
    ensures known ==> a[..] == want
  {
    hide Pending;
    a := new Pixel[n](_ => []);
    var count, repeating, raw_data := 0, false, Zero(comp);
    ghost var t := t0;
    for i := 0 to n
      invariant s.Valid() && |raw_data| == comp && Pixels(a[..i], comp)
      invariant known ==> t.comp == comp && Pending(t, count, repeating, raw_data, s.Rest(), want[i..])
      invariant known && count > 0 && repeating ==> t.raw == []
      invariant known ==> a[..i] == want[..i]
    {
      ghost var todo := if known then want[i..] else [];
      count, repeating, raw_data, t := NextPixel(s, comp, count, repeating, raw_data, t, todo, known);
      assert known ==> want[i..][0] == want[i] && want[i..][1..] == want[i + 1..];
      a[i] := raw_data;
      assert a[..i + 1] == a[..i] + [raw_data];
    }
    assert a[..n] == a[..] && (known ==> want[..n] == want);
  }

  function Zero(comp: nat): (p: Pixel)
    ensures |p| == comp
  {
    seq(comp, _ => 0)
  }

  /** What is known of a file: the picture it was written from. */
  ghost predicate Known(bytes: seq<byte>, x: nat, y: nat, comp: nat, data: seq<Pixel>, flip: bool, ks: seq<Packet>) {
    && x < 65536 && y < 65536 && 1 <= comp <= 4 && Picture(data, x, y, comp) && PacketsOk(ks, comp)
    && SpreadAll(ks) == AllSwapped(FilePixels(data, x, y, flip, y)) && bytes == Header(x, y, comp) + AllBytes(ks, comp)
  }

  lemma KnownHead(bytes: seq<byte>, x: nat, y: nat, comp: nat, data: seq<Pixel>, flip: bool, ks: seq<Packet>)
    requires Known(bytes, x, y, comp, data, flip, ks)
    ensures 1 <= comp <= 4 && |bytes| >= 18 && bytes[18..] == AllBytes(ks, comp)
    ensures HeadOf(bytes) == Head(0, 0, if comp <= 2 then 11 else 10, x, y, comp * 8, if HasAlpha(comp) then 8 else 0)
  {
    hide AllBytes;
    var h := Header(x, y, comp);
    assert bytes[..18] == h;
  }

  /** `stbi__tga_load` with no conversion asked for.  Flipping belongs to the writer only, so it turns the
      picture upside down. */
  method LoadTga(bytes: seq<byte>, ghost x: nat, ghost y: nat, ghost comp: nat, ghost data: seq<Pixel>, ghost flip: bool,
                 ghost ks: seq<Packet>) returns (r: Loaded)
    ensures Known(bytes, x, y, comp, data, flip, ks) ==>
      if SizeOk(x, y, comp) then
        r.Image? && r.x == x && r.y == y && r.comp == comp && Shows(r.pixels, data, x, y, flip)
      else r == Corrupt
  {
    hide Known, HeadOf, Shows, AllBytes, Mad3SizesValid, SizeOk, CompOf, Rgb16, HasAlpha;
    ghost var known := Known(bytes, x, y, comp, data, flip, ks);
    if known { KnownHead(bytes, x, y, comp, data, flip, ks); }
    if known { KnownComp(comp); }
    var s := new ByteStream(bytes);
    var h := ReadHead(s);
    var kind, rle := h.kind, false;
    if kind >= 8 { kind, rle := kind - 8, true; }
    var inverted := h.desc / 32 % 2 == 0;
    if h.indexed != 0 || Rgb16(h.bits, kind == 3) {
      return OutsideModel;
    }
    var n := CompOf(h.bits, kind == 3);
    if n == 0 {
      return Corrupt;
    }
    SizeChecked(h.width, h.height, n);
    if !Mad3SizesValid(h.width, h.height, n, 0) {
      return Corrupt;
    }
    s.Skip(h.offset);
    if !rle {
      return OutsideModel;
    }
    var ps := LoadRle(s, h.width, h.height, n, inverted, bytes, data, flip, ks, known);
    r := Image(h.width, h.height, n, ps);
  }

  /** The pixels of a run-length coded image, the right way up and red first. */
  method LoadRle(s: ByteStream, x: nat, y: nat, comp: nat, inverted: bool, ghost bytes: seq<byte>, ghost data: seq<Pixel>,
                 ghost flip: bool, ghost ks: seq<Packet>, ghost known: bool) returns (ps: seq<Pixel>)
    requires s.Valid()
    requires known ==> inverted && Known(bytes, x, y, comp, data, flip, ks) && s.Rest() == AllBytes(ks, comp)
    modifies s
    ensures |ps| == y * x
    ensures known ==> Shows(ps, data, x, y, flip)
  {
    hide Known, At, AllBytes, Pending, SpreadAll, Pixels, AllSwapped;
    ghost var t := Todo(comp, [], ks, []);
    ghost var want: seq<Pixel> := [];
    if known {
      want := SpreadAll(ks);
      ToRead(bytes, x, y, comp, data, flip, ks);
    }
    Commute(x, y);
    var a := LoadPixels(s, x * y, comp, t, want, known);
    ghost var below := a[..];
    if inverted {
      InvertRows(a, x, y);
      SameSizes(below, a[..], x, y, comp);
    }
    ghost var upright := a[..];
    SwapChannels(a, comp);
    ps := a[..];
    if known {
      Restored(bytes, x, y, comp, data, flip, ks, upright, ps);
    }
  }

  /** The size of the picture in bytes is an int. */
  ghost predicate SizeOk(x: nat, y: nat, comp: nat) {
    x * y <= INT_MAX && x * y * comp <= INT_MAX
  }

  lemma SizeChecked(x: nat, y: nat, comp: nat)
    ensures Mad3SizesValid(x, y, comp, 0) <==> SizeOk(x, y, comp)
  {
    SizesFit(x, y, comp, 0);
  }

  lemma KnownComp(comp: nat)
    requires 1 <= comp <= 4
    ensures CompOf(comp * 8, comp <= 2) == comp && !Rgb16(comp * 8, comp <= 2)
    ensures (if HasAlpha(comp) then 8 else 0) / 32 % 2 == 0
  {
  }

  lemma ToRead(bytes: seq<byte>, x: nat, y: nat, comp: nat, data: seq<Pixel>, flip: bool, ks: seq<Packet>)
    requires Known(bytes, x, y, comp, data, flip, ks)
    ensures |SpreadAll(ks)| == y * x
    ensures Pending(Todo(comp, [], ks, []), 0, false, Zero(comp), AllBytes(ks, comp), SpreadAll(ks))
  {
    assert Joined([]) == [];
  }

  lemma Restored(bytes: seq<byte>, x: nat, y: nat, comp: nat, data: seq<Pixel>, flip: bool, ks: seq<Packet>,
                 upright: seq<Pixel>, out: seq<Pixel>)
    requires Known(bytes, x, y, comp, data, flip, ks) && |SpreadAll(ks)| == |upright| == |out| == y * x
    requires forall r: nat, c: nat :: r < y && c < x ==> At(upright, x, y, r, c) == At(SpreadAll(ks), x, y, y - 1 - r, c)
    requires out == if comp >= 3 then AllSwapped(upright) else upright
    ensures Shows(out, data, x, y, flip)
  {
    hide SpreadAll, AllBytes, PacketsOk, FilePixels, Header;
    forall i: nat, c: nat | i < y && c < x
      ensures At(out, x, y, i, c) == At(data, x, y, if flip then y - 1 - i else i, c)
    {
      assert At(upright, x, y, i, c) == At(SpreadAll(ks), x, y, y - 1 - i, c);
      FilePixelAt(data, x, y, flip, y, y - 1 - i, c);
      PlaceBound(x, y, i, c);
      PlaceBound(x, y, y - 1 - i, c);
      var p := data[Place(x, if flip then y - 1 - i else i, c)];
      SwappedTwice(p);
    }
  }

  /** Writing an image with run lengths and loading it. */
  method WriteThenLoad(x: nat, y: nat, comp: nat, data: seq<Pixel>, flip: bool) returns (r: Loaded)
    requires x < 65536 && y < 65536 && 1 <= comp <= 4 && Picture(data, x, y, comp)
    ensures SizeOk(x, y, comp) && !flip ==> r == Image(x, y, comp, data)
    ensures !SizeOk(x, y, comp) ==> r == Corrupt
    ensures r.Image? ==> Shows(r.pixels, data, x, y, flip)
  {
    hide Known, At, AllBytes, SpreadAll, FilePixels, AllSwapped, Header;
    var s := new Context();
    ghost var ks, rows := WriteTga(s, x, y, comp, data, flip);
    Written(s.given, x, y, comp, data, flip, ks);
    r := LoadTga(s.given, x, y, comp, data, flip, ks);
    if r.Image? && !flip {
      SamePicture(r.pixels, data, x, y);
    }
  }

  lemma Written(bytes: seq<byte>, x: nat, y: nat, comp: nat, data: seq<Pixel>, flip: bool, ks: seq<Packet>)
    requires x < 65536 && y < 65536 && 1 <= comp <= 4 && Picture(data, x, y, comp) && PacketsOk(ks, comp)
    requires SpreadAll(ks) == AllSwapped(FilePixels(data, x, y, flip, y)) && bytes == Header(x, y, comp) + AllBytes(ks, comp)
    ensures Known(bytes, x, y, comp, data, flip, ks)
  {
  }
}
