/** `stbi__parse_png_file` for images of 8-bit grey or colour samples, with or without alpha. */
module PngFile {
  import opened Arith
  import opened Basics
  import opened Bits
  import opened Streams
  import opened PngChunks
  import opened PngFilter
  import opened PngReader
  import opened Deflate
  import opened Feeding
  import opened Inflate

  /** What loading gives: an image, an error, or a file outside this model. */
  datatype Loaded = Image(x: nat, y: nat, n: nat, pixels: seq<byte>) | Corrupt | OutsideModel

  const MAX_DIMENSIONS: nat := 0x100_0000
  const MAX_SIZE: nat := 0x4000_0000

  /** The colour type of `n` channels, and the channels of a colour type. */
  function ColorType(n: nat): byte
    requires 1 <= n <= 4
  {
    match n case 1 => 0 case 2 => 4 case 3 => 2 case _ => 6
  }

  function Channels(color: nat): nat {
    (if color / 2 % 2 == 1 then 3 else 1) + (if color / 4 % 2 == 1 then 1 else 0)
  }

  /** The reader's limits on an image's size. */
  predicate WithinLimits(x: nat, y: nat, n: nat)
    requires n >= 1
  {
    1 <= x <= MAX_DIMENSIONS && 1 <= y <= MAX_DIMENSIONS && MAX_SIZE / x / n >= y
  }

  function HeaderData(x: nat, y: nat, n: nat): (d: seq<byte>)
    requires x < TWO32 && y < TWO32 && 1 <= n <= 4
    ensures |d| == 13
  {
    BE32(x) + BE32(y) + [8, ColorType(n), 0, 0, 0]
  }

  // ---------------------------------------------------------------- the files that are understood

  /** A header, chunks of image data and ancillary chunks in any order, and the end. */
  datatype Layout = Layout(x: nat, y: nat, n: nat, crc: seq<byte>, mids: seq<Chunk>)

  ghost predicate Ancillary(c: Chunk) {
    && c.kind != IHDR && c.kind != IDAT && c.kind != IEND && c.kind != PLTE && c.kind != TRNS && c.kind != CGBI
    && c.kind / 0x2000_0000 % 2 == 1 && |c.data| < 0x8000_0000
  }

  ghost predicate MidOk(c: Chunk) {
    ChunkOk(c) && (c.kind == IDAT || Ancillary(c))
  }

  /** The reader refuses a chunk of image data of more than 2^30 bytes. */
  ghost predicate TooLarge(c: Chunk) {
    c.kind == IDAT && |c.data| > MAX_SIZE
  }

  ghost predicate AnyTooLarge(mids: seq<Chunk>) {
    mids != [] && (TooLarge(mids[0]) || AnyTooLarge(mids[1..]))
  }

  ghost predicate MidsOk(mids: seq<Chunk>) {
    forall i :: 0 <= i < |mids| ==> MidOk(mids[i])
  }

  /** The image data of all chunks, joined. */
  ghost function Joined(mids: seq<Chunk>): seq<byte> {
    if mids == [] then [] else (if mids[0].kind == IDAT then mids[0].data else []) + Joined(mids[1..])
  }

  ghost predicate LayoutOk(f: Layout) {
    && 1 <= f.n <= 4 && WithinLimits(f.x, f.y, f.n) && |f.crc| == 4
    && MidsOk(f.mids) && 1 <= |Joined(f.mids)| < 0x8000_0000
  }

  /** The bytes of a file; `rest` starts with the end chunk's checksum. */
  ghost function FileBytes(f: Layout, rest: seq<byte>): seq<byte>
    requires LayoutOk(f)
  {
    SIGNATURE + (ChunkBytes(Chunk(IHDR, HeaderData(f.x, f.y, f.n), f.crc)) +
      AllBytes(f.mids, BE32(0) + (BE32(IEND) + rest)))
  }

  // ---------------------------------------------------------------- reading them

  /** `stbi__check_png_header` */
  method CheckSignature(s: ByteStream) returns (ok: bool)
    requires s.Valid()
    modifies s
    ensures s.Valid() && |s.Rest()| <= |old(s.Rest())|
    ensures |old(s.Rest())| >= 8 && old(s.Rest())[..8] == SIGNATURE ==> ok && s.Rest() == old(s.Rest())[8..]
  {
    ghost var r := s.Rest();
    for i := 0 to 8
      invariant s.Valid() && |s.Rest()| <= |r|
      invariant |r| >= 8 ==> s.Rest() == r[i..]
    {
      var b := s.Get8();
      if b != SIGNATURE[i] {
        assert |r| >= 8 ==> b == r[..8][i];
        return false;
      }
    }
    return true;
  }

  /** What the header chunk says, when it says something that is modelled. */
  datatype Header = Good(x: nat, y: nat, n: nat) | Bad | Other

  /** The three 32-bit and five 8-bit fields of the header chunk. */
  method ReadHeaderFields(s: ByteStream, ghost f: Layout, ghost rest: seq<byte>)
    returns (x: nat, y: nat, tail: seq<byte>)
    requires s.Valid()
    modifies s
    ensures s.Valid() && |s.Rest()| <= |old(s.Rest())| && |tail| == 5 && x < TWO32 && y < TWO32
    ensures 1 <= f.n <= 4 && WithinLimits(f.x, f.y, f.n) && old(s.Rest()) == HeaderData(f.x, f.y, f.n) + rest ==>
      x == f.x && y == f.y && tail == [8, ColorType(f.n), 0, 0, 0] && s.Rest() == rest
  {
    hide BE32, FromBE;
    ghost var t := if 1 <= f.n <= 4 then [8, ColorType(f.n), 0, 0, 0] else [];
    ghost var known := 1 <= f.n <= 4 && WithinLimits(f.x, f.y, f.n) && s.Rest() == HeaderData(f.x, f.y, f.n) + rest;
    if known {
      Read32(f.x, BE32(f.y) + (t + rest));
      Read32(f.y, t + rest);
      assert s.Rest() == BE32(f.x) + (BE32(f.y) + (t + rest));
    }
    x := s.Get32be();
    y := s.Get32be();
    ghost var r := s.Rest();
    tail := ReadBytes(s, 5);
    if known {
      assert r == t + rest && r[..5] == t && r[5..] == rest;
    }
  }

  /** `n` single bytes. */
  method ReadBytes(s: ByteStream, n: nat) returns (b: seq<byte>)
    requires s.Valid()
    modifies s
    ensures s.Valid() && |s.Rest()| <= |old(s.Rest())| && |b| == n
    ensures |old(s.Rest())| >= n ==> b == old(s.Rest())[..n] && s.Rest() == old(s.Rest())[n..]
  {
    ghost var r := s.Rest();
    b := [];
    for i := 0 to n
      invariant s.Valid() && |s.Rest()| <= |r| && |b| == i
      invariant |r| >= n ==> b == r[..i] && s.Rest() == r[i..]
    {
      var c := s.Get8();
      b := b + [c];
    }
  }

  /** The header chunk. */
  method ParseHeader(s: ByteStream, length: nat, ghost f: Layout, ghost rest: seq<byte>) returns (h: Header)
    requires s.Valid()
    modifies s
    ensures s.Valid() && |s.Rest()| <= |old(s.Rest())|
    ensures h.Good? ==> 1 <= h.n <= 4 && WithinLimits(h.x, h.y, h.n)
    ensures 1 <= f.n <= 4 && WithinLimits(f.x, f.y, f.n) && length == 13 &&
            old(s.Rest()) == HeaderData(f.x, f.y, f.n) + rest ==>
      h == Good(f.x, f.y, f.n) && s.Rest() == rest
  {
    hide HeaderData;
    if length != 13 { return Bad; }
    var x, y, tail := ReadHeaderFields(s, f, rest);
    h := CheckHeader(x, y, tail[0], tail[1], tail[2], tail[3], tail[4]);
  }

  /** The checks on the header's fields, in the reader's order. */
  function CheckHeader(x: nat, y: nat, depth: byte, color: byte, comp: byte, filter: byte, interlace: byte): (h: Header)
    ensures h.Good? ==> h.x == x && h.y == y && 1 <= h.n <= 4 && WithinLimits(x, y, h.n)
    ensures forall n :: 1 <= n <= 4 && WithinLimits(x, y, n) ==>
      (depth == 8 && color == ColorType(n) && comp == 0 && filter == 0 && interlace == 0 ==> h == Good(x, y, n))
  {
    if y > MAX_DIMENSIONS || x > MAX_DIMENSIONS then Bad
    else if depth != 1 && depth != 2 && depth != 4 && depth != 8 && depth != 16 then Bad
    else if color > 6 || (color == 3 && depth == 16) || (color != 3 && color % 2 == 1) then Bad
    else if comp != 0 || filter != 0 || interlace > 1 || x == 0 || y == 0 then Bad
    else if color == 3 then Other
    else
      var n := Channels(color);
      if MAX_SIZE / x / n < y then Bad else if depth != 8 || interlace != 0 then Other else Good(x, y, n)
  }

  // ---------------------------------------------------------------- the chunk loop

  ghost function EndBytes(rest: seq<byte>): seq<byte> {
    BE32(0) + (BE32(IEND) + rest)
  }

  datatype Step = Continue | AtEnd | Stop(why: Loaded)

  class Decoder {
    const s: ByteStream
    var first: bool
    var img_x: nat
    var img_y: nat
    var img_n: nat
    var idata: seq<byte>

    ghost predicate Valid()
      reads this, s
    {
      s.Valid() && (!first ==> 1 <= img_n <= 4 && WithinLimits(img_x, img_y, img_n))
    }

    constructor (stream: ByteStream)
      requires stream.Valid()
      ensures s == stream && first && idata == []
    {
      s, first, idata := stream, true, [];
      img_x, img_y, img_n := 0, 0, 0;
    }

    /** What is known to be ahead: the header and all of `todo`, or after the header the chunks `todo`. */
    ghost predicate Ahead(f: Layout, todo: seq<Chunk>, rest: seq<byte>)
      requires s.Valid()
      reads this, s
    {
      && LayoutOk(f) && MidsOk(todo) && Joined(f.mids) == idata + Joined(todo)
      && AnyTooLarge(f.mids) == AnyTooLarge(todo)
      && if first then
           s.Rest() == ChunkBytes(Chunk(IHDR, HeaderData(f.x, f.y, f.n), f.crc)) + AllBytes(todo, EndBytes(rest))
         else
           && img_x == f.x && img_y == f.y && img_n == f.n
           && s.Rest() == AllBytes(todo, EndBytes(rest))
    }

    /** One chunk.  At the end of the input the type reads as zero, which stops the loop. */
    method ParseChunk(ghost f: Layout, ghost todo: seq<Chunk>, ghost rest: seq<byte>, ghost known: bool)
      returns (r: Step, ghost todo': seq<Chunk>)
      requires Valid() && (known ==> Ahead(f, todo, rest))
      modifies this, s
      ensures Valid()
      ensures r == Continue ==> |s.Rest()| < |old(s.Rest())|
      ensures r == AtEnd ==> !first && idata != []
      ensures known && (old(first) || todo != []) ==>
        if !old(first) && TooLarge(todo[0]) then r == Stop(Corrupt) && AnyTooLarge(f.mids)
        else r == Continue && Ahead(f, todo', rest) && !first
      ensures known && !old(first) && todo == [] ==>
        r == AtEnd && idata == Joined(f.mids) && !AnyTooLarge(f.mids)
      ensures known && r == AtEnd ==> img_x == f.x && img_y == f.y && img_n == f.n
    {
      hide BE32, FromBE, HeaderData, WithinLimits;
      ghost var wasFirst := first;
      todo' := if wasFirst || todo == [] then todo else todo[1..];
      ghost var c, more := NextChunk(f, todo, rest, first, s.Rest(), known);
      var length := s.Get32be();
      var kind := s.Get32be();
      ghost var inside := known && (wasFirst || todo != []);
      if inside && !wasFirst {
        JoinedFits(f.mids, todo, idata);
      }
      r := ParseBody(kind, length, f, c, more, inside);
      if r == Continue {
        ghost var tail := s.Rest();
        var _ := s.Get32be();
        if inside {
          assert tail == c.crc + more && tail[4..] == more;
          JoinedStep(f.mids, todo, wasFirst, c, old(idata), idata);
        }
      }
    }

    /** What a chunk does, and where it leaves the input: in front of the checksum. */
    method ParseBody(kind: nat, length: nat, ghost f: Layout, ghost c: Chunk, ghost more: seq<byte>, ghost known: bool)
      returns (r: Step)
      requires Valid()
      requires known ==> BodyKnown(kind, length, f, c, more)
      modifies this, s
      ensures Valid() && |s.Rest()| <= |old(s.Rest())|
      ensures r == Continue ==> kind != 0
      ensures kind != IHDR ==> first == old(first) && img_x == old(img_x) && img_y == old(img_y) && img_n == old(img_n)
      ensures r == AtEnd ==> kind == IEND && !first && idata != []
      ensures kind == IEND && !old(first) && old(idata) != [] ==> r == AtEnd && idata == old(idata)
      ensures known && TooLarge(c) ==> r == Stop(Corrupt)
      ensures known && !TooLarge(c) ==> r == Continue && !first && s.Rest() == c.crc + more
      ensures known && kind == IHDR ==> img_x == f.x && img_y == f.y && img_n == f.n
      ensures known && !TooLarge(c) ==> idata == if kind == IDAT then old(idata) + c.data else old(idata)
    {
      hide BE32, FromBE, HeaderData, WithinLimits;
      if kind == CGBI {
        return Stop(OutsideModel);
      } else if kind == IHDR {
        if !first {
          return Stop(Corrupt);
        }
        var h := ParseHeader(s, length, f, c.crc + more);
        if !h.Good? {
          return Stop(if h.Bad? then Corrupt else OutsideModel);
        }
        first := false;
        img_x, img_y, img_n := h.x, h.y, h.n;
      } else if first {
        return Stop(Corrupt);
      } else if kind == PLTE || kind == TRNS {
        return Stop(OutsideModel);
      } else if kind == IDAT {
        var ok := ParseData(length);
        if !ok {
          return Stop(Corrupt);
        }
        assert known ==> old(s.Rest())[..length] == c.data && old(s.Rest())[length..] == c.crc + more;
      } else if kind == IEND {
        return if idata == [] then Stop(Corrupt) else AtEnd;
      } else {
        if kind / 0x2000_0000 % 2 == 0 {
          return Stop(Corrupt);
        }
        s.Skip(length);
        assert known ==> old(s.Rest())[length..] == c.crc + more;
      }
      r := Continue;
    }

    /** A known chunk's body is in front, and the chunk is one that can come now. */
    ghost predicate BodyKnown(kind: nat, length: nat, f: Layout, c: Chunk, more: seq<byte>)
      requires s.Valid()
      reads this, s
    {
      && LayoutOk(f) && kind == c.kind && length == |c.data| && |c.crc| == 4
      && s.Rest() == c.data + (c.crc + more)
      && if first then kind == IHDR && c.data == HeaderData(f.x, f.y, f.n)
         else MidOk(c) && (kind == IDAT ==> |idata| + |c.data| < 0x8000_0000)
    }

    /** The data of one IDAT chunk joins the rest. */
    method ParseData(length: nat) returns (ok: bool)
      requires Valid()
      modifies this`idata, s
      ensures Valid() && |s.Rest()| <= |old(s.Rest())|
      ensures ok <==> length <= MAX_SIZE && |old(idata)| + length < 0x8000_0000 && length <= |old(s.Rest())|
      ensures ok ==> idata == old(idata) + old(s.Rest())[..length] && s.Rest() == old(s.Rest())[length..]
    {
      if length > MAX_SIZE {
        return false;
      }
      if |idata| + length >= 0x8000_0000 {
        return false;
      }
      var b;
      ok, b := s.Getn(length);
      if ok {
        idata := idata + b;
      }
    }
  }

  lemma JoinedFits(mids: seq<Chunk>, todo: seq<Chunk>, idata: seq<byte>)
    requires Joined(mids) == idata + Joined(todo) && todo != [] && |Joined(mids)| < 0x8000_0000
    ensures todo[0].kind == IDAT ==> |idata| + |todo[0].data| < 0x8000_0000
  {
  }

  /** How the joined data moves from the chunks to come to the chunks read. */
  lemma JoinedStep(mids: seq<Chunk>, todo: seq<Chunk>, first: bool, c: Chunk, idata: seq<byte>, idata': seq<byte>)
    requires Joined(mids) == idata + Joined(todo)
    requires !first ==> todo != [] && c == todo[0]
    requires idata' == if !first && c.kind == IDAT then idata + c.data else idata
    ensures Joined(mids) == idata' + Joined(if first then todo else todo[1..])
  {
  }

  /** The chunk that comes next in a known file: its bytes stand in front. */
  lemma NextChunk(f: Layout, todo: seq<Chunk>, rest: seq<byte>, first: bool, bytes: seq<byte>, known: bool)
    returns (c: Chunk, more: seq<byte>)
    requires known ==> LayoutOk(f) && MidsOk(todo)
    requires known && first ==>
      bytes == ChunkBytes(Chunk(IHDR, HeaderData(f.x, f.y, f.n), f.crc)) + AllBytes(todo, EndBytes(rest))
    requires known && !first ==> bytes == AllBytes(todo, EndBytes(rest))
    ensures known && first ==> more == AllBytes(todo, EndBytes(rest))
    ensures known && !first && todo != [] ==> c == todo[0] && MidsOk(todo[1..]) && more == AllBytes(todo[1..], EndBytes(rest))
    ensures known && (first || todo != []) ==>
      && (first ==> c == Chunk(IHDR, HeaderData(f.x, f.y, f.n), f.crc))
      && |bytes| >= 8 && FromBE(bytes[..4]) == |c.data| && FromBE(bytes[4..][..4]) == c.kind
      && bytes[4..][4..] == c.data + (c.crc + more) && |c.crc| == 4
    ensures known && !first && todo == [] ==>
      |bytes| >= 8 && FromBE(bytes[..4]) == 0 && FromBE(bytes[4..][..4]) == IEND
  {
    hide BE32, FromBE, HeaderData;
    c, more := Chunk(0, [], []), [];
    if known {
      if first {
        c, more := Chunk(IHDR, HeaderData(f.x, f.y, f.n), f.crc), AllBytes(todo, EndBytes(rest));
        FrontChunk(c, more);
      } else if todo != [] {
        c, more := todo[0], AllBytes(todo[1..], EndBytes(rest));
        FrontChunk(c, more);
      } else {
        Read32(0, BE32(IEND) + rest);
        Read32(IEND, rest);
      }
    }
  }

  lemma FrontChunk(c: Chunk, more: seq<byte>)
    requires ChunkOk(c)
    ensures var bytes := ChunkBytes(c) + more;
      && |bytes| >= 8 && FromBE(bytes[..4]) == |c.data| && FromBE(bytes[4..][..4]) == c.kind
      && bytes[4..][4..] == c.data + (c.crc + more)
  {
    hide BE32, FromBE;
    var tail := c.data + (c.crc + more);
    assert ChunkBytes(c) + more == BE32(|c.data|) + (BE32(c.kind) + tail);
    Read32(|c.data|, BE32(c.kind) + tail);
    Read32(c.kind, tail);
  }

  // ---------------------------------------------------------------- loading a file

  /** The limits keep the image below 2^30 bytes. */
  lemma SizeBound(x: nat, y: nat, n: nat)
    requires 1 <= n <= 4 && WithinLimits(x, y, n)
    ensures 1 <= y * (x * n + 1) <= MAX_SIZE + MAX_DIMENSIONS
    ensures x * y * n + y == y * (x * n + 1) && x * n >= n
  {
    DivBound(y, n, MAX_SIZE / x);
    DivBound(y * n, x, MAX_SIZE);
    Regroup(x, y, n);
    Mono(1, x, n);
  }

  lemma Regroup(x: nat, y: nat, n: nat)
    ensures y * n * x == x * y * n && x * y * n + y == y * (x * n + 1)
  {
    assert y * n * x == x * (y * n) == x * y * n == y * (x * n);
  }

  /** What image data loads as, when it has been inflated to `raw`. */
  ghost function Result(raw: seq<byte>, x: nat, y: nat, n: nat): Loaded {
    if |raw| < y * (x * n + 1) then Corrupt
    else
      var r := UnfilterRows(raw, Zeros(x * n), n, y);
      if r.0 then Image(x, y, n, r.1) else Corrupt
  }

  ghost predicate KnownFile(bytes: seq<byte>, f: Layout, rest: seq<byte>, raw: seq<byte>) {
    LayoutOk(f) && bytes == FileBytes(f, rest) && Accepted(Joined(f.mids), true, raw) && |raw| <= ROOM
  }

  /** `stbi__parse_png_file` with no conversion asked for.  However the image data is cut into chunks, and
      whatever ancillary chunks stand between them, the result is the unfiltered inflated data, unless one
      of the chunks is too large. */
  method LoadPng(bytes: seq<byte>, ghost f: Layout, ghost rest: seq<byte>, ghost raw: seq<byte>) returns (r: Loaded)
    ensures KnownFile(bytes, f, rest, raw) ==>
      r == if AnyTooLarge(f.mids) then Corrupt else Result(raw, f.x, f.y, f.n)
    ensures r.Image? ==> 1 <= r.n <= 4 && WithinLimits(r.x, r.y, r.n) && |r.pixels| == r.y * (r.x * r.n)
  {
    hide FileBytes, Accepted, Result, WithinLimits, BE32, HeaderData, AllBytes, ChunkBytes, Joined;
    var s := new ByteStream(bytes);
    ghost var known := KnownFile(bytes, f, rest, raw);
    if known {
      AfterSignature(f, rest);
    }
    var ok := CheckSignature(s);
    if !ok {
      return Corrupt;
    }
    var d := new Decoder(s);
    ghost var todo := f.mids;
    assert known ==> d.Ahead(f, todo, rest) by {
      NoneJoined(f.mids);
    }
    var step := Continue;
    while step == Continue
      invariant d.Valid() && d.s == s && (step == AtEnd ==> !d.first && d.idata != [])
      invariant known && step == Continue ==> d.Ahead(f, todo, rest)
      invariant known && step.Stop? ==> step.why == Corrupt && AnyTooLarge(f.mids)
      invariant known && step == AtEnd ==> d.idata == Joined(f.mids) && !AnyTooLarge(f.mids)
      invariant known && step == AtEnd ==> d.img_x == f.x && d.img_y == f.y && d.img_n == f.n
      decreases step == Continue, |s.Rest()|
    {
      step, todo := d.ParseChunk(f, todo, rest, known);
    }
    if step.Stop? {
      return if step.why.Image? then Corrupt else step.why;
    }
    r := FinishImage(d.idata, d.img_x, d.img_y, d.img_n, raw);
  }

  lemma AfterSignature(f: Layout, rest: seq<byte>)
    requires LayoutOk(f)
    ensures var b := FileBytes(f, rest);
      && |b| >= 8 && b[..8] == SIGNATURE
      && b[8..] == ChunkBytes(Chunk(IHDR, HeaderData(f.x, f.y, f.n), f.crc)) + AllBytes(f.mids, EndBytes(rest))
  {
    hide BE32, HeaderData, AllBytes, ChunkBytes;
    var tail := ChunkBytes(Chunk(IHDR, HeaderData(f.x, f.y, f.n), f.crc)) + AllBytes(f.mids, EndBytes(rest));
    assert FileBytes(f, rest) == SIGNATURE + tail;
  }

  lemma NoneJoined(mids: seq<Chunk>)
    ensures Joined(mids) == [] + Joined(mids)
  {
  }

  /** The end chunk: inflate the joined data and unfilter the rows. */
  method FinishImage(idata: seq<byte>, x: nat, y: nat, n: nat, ghost raw: seq<byte>) returns (r: Loaded)
    requires 1 <= n <= 4 && WithinLimits(x, y, n)
    ensures Accepted(idata, true, raw) && |raw| <= ROOM ==> r == Result(raw, x, y, n)
    ensures r.Image? ==> r.x == x && r.y == y && r.n == n && |r.pixels| == y * (x * n)
  {
    hide InflatesWithRoom, InflatesTo, InflatesNear, Accepted, UnfilterRows;
    SizeBound(x, y, n);
    var bpl := (x * 8 + 7) / 8;
    var raw_len := bpl * y * n + y;
    assert bpl == x && raw_len == y * (x * n + 1);
    var expanded := DecodeMalloc(idata, raw_len, true, raw);
    if expanded.None? {
      return Corrupt;
    }
    var ok, out := CreateImageRaw(expanded.value, x, y, n);
    if !ok {
      return Corrupt;
    }
    Commute(x * n, y);
    r := Image(x, y, n, out[..]);
  }
}
