/** `stbi_write_png_to_mem`, and reading back what it writes. */
module PngRoundTrip {
  import opened Arith
  import opened Bits
  import opened Deflate
  import opened Feeding
  import opened ZlibCompress
  import opened PngFilter
  import opened PngWriter
  import opened Streams
  import opened PngChunks
  import opened PngFile

  /** A 32-bit checksum of a chunk's type and data; which one makes no difference to the reader. */
  type Checksum = seq<byte> -> word

  /** The chunk of this kind and data with its checksum, as `stbiw__wpcrc` places it. */
  ghost function Sealed(kind: nat, data: seq<byte>, sum: Checksum): Chunk
    requires kind < TWO32
  {
    Chunk(kind, data, BE32(sum(BE32(kind) + data)))
  }

  /** The three chunks of a written file. */
  ghost function Written(x: nat, y: nat, n: nat, z: seq<byte>, sum: Checksum): seq<byte>
    requires x < TWO32 && y < TWO32 && 1 <= n <= 4 && |z| < TWO32
  {
    SIGNATURE + ChunkBytes(Sealed(IHDR, HeaderData(x, y, n), sum)) + ChunkBytes(Sealed(IDAT, z, sum)) +
    ChunkBytes(Sealed(IEND, [], sum))
  }

  /** The data of the second chunk: between 41 bytes in front and 16 behind. */
  ghost function DataOf(file: seq<byte>): seq<byte>
    requires |file| >= 57
  {
    file[41..|file| - 16]
  }

  lemma DataWritten(x: nat, y: nat, n: nat, z: seq<byte>, sum: Checksum)
    requires x < TWO32 && y < TWO32 && 1 <= n <= 4 && |z| < TWO32
    ensures |Written(x, y, n, z, sum)| == |z| + 57 && DataOf(Written(x, y, n, z, sum)) == z
  {
    hide BE32, HeaderData;
    var h, e := SIGNATURE + ChunkBytes(Sealed(IHDR, HeaderData(x, y, n), sum)), ChunkBytes(Sealed(IEND, [], sum));
    var front := h + BE32(|z|) + BE32(IDAT);
    var crc := Sealed(IDAT, z, sum).crc;
    assert |front| == 41;
    assert Written(x, y, n, z, sum) == front + z + (crc + e);
  }

  function Stride(stride_bytes: nat, w: nat): nat {
    if stride_bytes == 0 then w else stride_bytes
  }

  /** The bytes of one chunk. */
  method WriteChunk(kind: nat, data: seq<byte>, sum: Checksum) returns (o: seq<byte>)
    requires kind < TWO32 && |data| < TWO32
    ensures o == ChunkBytes(Sealed(kind, data, sum))
  {
    hide BE32;
    o := BE32(|data|) + BE32(kind) + data;
    o := o + BE32(sum(o[4..]));
    assert (BE32(|data|) + BE32(kind) + data)[4..] == BE32(kind) + data;
  }

  /** `stbi_write_png_to_mem`: the filtered rows, compressed, in one chunk between header and end. */
  method WritePng(pixels: seq<byte>, stride_bytes: nat, x: nat, y: nat, n: nat, force_filter: int, level: int, flip: bool,
                  sum: Checksum)
    returns (out: seq<byte>, ghost z: seq<byte>, ghost filt: seq<byte>, ghost fs: seq<nat>)
    requires 1 <= x < TWO32 && 1 <= y < TWO32 && 1 <= n <= 4 && y * (x * n + 1) < 0x8000_0000
    requires Holds(pixels, Stride(stride_bytes, x * n), y, x * n)
    ensures |z| <= |filt| + 6 + 5 * Ceil(|filt|) < TWO32 && out == Written(x, y, n, z, sum)
    ensures |out| >= 57 && out == Written(x, y, n, DataOf(out), sum) && z == DataOf(out)
    ensures InflatesWithRoom(z, true, filt) && |filt| == y * (x * n + 1)
    ensures Filtered(filt, fs, pixels, Stride(stride_bytes, x * n), x * n, y, n, force_filter, flip)
  {
    hide Chosen, Filtered, InflatesWithRoom, ChunkBytes, HeaderData, Ceil, Holds, UnfilterRows, Lines,
      Flatten, BE32, Parse, Zeros;
    var w := x * n;
    Arith.Step(x, n);
    var stride := if stride_bytes == 0 then w else stride_bytes;
    var f;
    f, fs := EncodeLines(pixels, stride, w, y, n, force_filter, flip);
    filt := f;
    FilteredUndone(filt, fs, pixels, stride, w, y, n, force_filter, flip);
    Arith.Step(y, w + 1);
    CeilOpen(|filt|);
    var zlib := Compress(f, level);
    z := zlib;
    var header := WriteChunk(IHDR, HeaderData(x, y, n), sum);
    var body := WriteChunk(IDAT, zlib, sum);
    var end := WriteChunk(IEND, [], sum);
    out := SIGNATURE + header + body + end;
    DataWritten(x, y, n, z, sum);
  }

  /** Unfiltering such rows gives the lines of the image back. */
  lemma FilteredUndone(filt: seq<byte>, fs: seq<nat>, pixels: seq<byte>, stride: nat, w: nat, y: nat, n: nat,
                       force_filter: int, flip: bool)
    requires Filtered(filt, fs, pixels, stride, w, y, n, force_filter, flip)
    ensures Holds(pixels, stride, y, w) && n >= 1
    ensures |filt| == y * (w + 1)
    ensures UnfilterRows(filt, Zeros(w), n, y) == (true, Flatten(Lines(pixels, stride, y, w, flip)))
  {
    hide FilterRows, Lines, Picked, Line, Above, Holds;
    UnfilterFilterRows(Lines(pixels, stride, y, w, flip), fs, Zeros(w), n);
  }

  /** A written file is one the reader knows. */
  lemma WrittenIsKnown(x: nat, y: nat, n: nat, z: seq<byte>, sum: Checksum, raw: seq<byte>)
    returns (f: Layout, rest: seq<byte>)
    requires 1 <= n <= 4 && WithinLimits(x, y, n) && 1 <= |z| < 0x8000_0000
    requires InflatesWithRoom(z, true, raw) && |raw| < 0x8000_0000
    ensures KnownFile(Written(x, y, n, z, sum), f, rest, raw)
    ensures f.x == x && f.y == y && f.n == n && AnyTooLarge(f.mids) == (|z| > MAX_SIZE)
  {
    hide InflatesWithRoom, Accepted, HeaderData;
    RoomIsAccepted(z, true, raw);
    var idat := Sealed(IDAT, z, sum);
    f := Layout(x, y, n, Sealed(IHDR, HeaderData(x, y, n), sum).crc, [idat]);
    rest := Sealed(IEND, [], sum).crc;
    OneChunk(idat, EndBytes(rest));
    var a, b := ChunkBytes(Sealed(IHDR, HeaderData(x, y, n), sum)), ChunkBytes(idat);
    assert ChunkBytes(Sealed(IEND, [], sum)) == EndBytes(rest);
    assert SIGNATURE + a + b + EndBytes(rest) == SIGNATURE + (a + (b + EndBytes(rest)));
  }

  lemma OneChunk(c: Chunk, rest: seq<byte>)
    requires ChunkOk(c) && c.kind == IDAT
    ensures AllBytes([c], rest) == ChunkBytes(c) + rest && Joined([c]) == c.data
    ensures AnyTooLarge([c]) == TooLarge(c)
  {
    assert [c][1..] == [];
    assert Joined([c][1..]) == [] && c.data + [] == c.data;
  }

  /** `z` decompresses to the filtered lines of an image. */
  ghost predicate Packs(z: seq<byte>, pixels: seq<byte>, stride: nat, w: nat, y: nat, n: nat, force_filter: int,
                        flip: bool)
  {
    exists filt, fs :: InflatesTo(z, true, filt) && Filtered(filt, fs, pixels, stride, w, y, n, force_filter, flip)
  }

  /** Writing an image and loading the file: the same size, the same channels and, row by row in output
      order, the same pixels; unless the compressed data is over the reader's limit on one chunk. */
  method WriteThenLoad(pixels: seq<byte>, stride_bytes: nat, x: nat, y: nat, n: nat, force_filter: int, level: int,
                       flip: bool, sum: Checksum)
    returns (r: Loaded, ghost z: seq<byte>)
    requires 1 <= n <= 4 && WithinLimits(x, y, n) && Holds(pixels, Stride(stride_bytes, x * n), y, x * n)
    ensures |z| <= MAX_SIZE ==>
      r == Image(x, y, n, Flatten(Lines(pixels, Stride(stride_bytes, x * n), y, x * n, flip)))
    ensures |z| > MAX_SIZE ==> r == Corrupt
    ensures r.Image? && !flip && Stride(stride_bytes, x * n) == x * n && |pixels| == x * n * y ==> r.pixels == pixels
    ensures |z| <= x * y * n + y + 6 + 5 * Ceil(x * y * n + y)
    ensures Packs(z, pixels, Stride(stride_bytes, x * n), x * n, y, n, force_filter, flip)
  {
    hide Filtered, Lines, FilterRows, UnfilterRows, InflatesWithRoom, InflatesTo, Accepted, Ceil, Written;
    SizeBound(x, y, n);
    var out;
    ghost var filt, fs;
    out, z, filt, fs := WritePng(pixels, stride_bytes, x, y, n, force_filter, level, flip, sum);
    CeilOpen(|filt|);
    SomeBytes(z, filt);
    assert Packs(z, pixels, Stride(stride_bytes, x * n), x * n, y, n, force_filter, flip);
    ghost var f, rest := WrittenIsKnown(x, y, n, z, sum, filt);
    FilteredUndone(filt, fs, pixels, Stride(stride_bytes, x * n), x * n, y, n, force_filter, flip);
    r := LoadPng(out, f, rest, filt);
    if Stride(stride_bytes, x * n) == x * n && |pixels| == x * n * y {
      TightRows(pixels, y, x * n, 0);
      assert pixels[0..] == pixels;
      WholeSeq(Lines(pixels, x * n, y, x * n, false));
    }
  }

  lemma WholeSeq(rows: seq<seq<byte>>)
    ensures rows[0..] == rows
  {
  }

  lemma SomeBytes(z: seq<byte>, raw: seq<byte>)
    requires InflatesWithRoom(z, true, raw)
    ensures |z| >= 1 && InflatesTo(z, true, raw)
  {
  }

  /** The rows of a tight image, top row first, are its pixels. */
  lemma {:induction false} TightRows(pixels: seq<byte>, h: nat, w: nat, y: nat)
    requires y <= h && |pixels| == w * h && Holds(pixels, w, h, w)
    ensures w * y <= |pixels|
    ensures Flatten(Lines(pixels, w, h, w, false)[y..]) == pixels[w * y..]
    decreases h - y
  {
    hide Line, Lines, Flatten;
    var rows := Lines(pixels, w, h, w, false);
    if y == h {
      assert rows[y..] == [];
      NoRowsFlat();
    } else {
      var at, next := w * y, w * (y + 1);
      Arith.Step(y + 1, w);
      TightRows(pixels, h, w, y + 1);
      LineIs(pixels, h, w, y);
      Peel(rows, y, pixels, at, next);
    }
  }

  lemma NoRowsFlat()
    ensures Flatten([]) == []
  {
  }

  lemma LineIs(pixels: seq<byte>, h: nat, w: nat, y: nat)
    requires y < h && Holds(pixels, w, h, w)
    ensures w * y + w <= |pixels| && Lines(pixels, w, h, w, false)[y] == pixels[w * y..w * y + w]
  {
  }

  lemma Peel(rows: seq<seq<byte>>, y: nat, pixels: seq<byte>, at: nat, next: nat)
    requires y < |rows| && at <= next <= |pixels| && rows[y] == pixels[at..next]
    requires Flatten(rows[y + 1..]) == pixels[next..]
    ensures Flatten(rows[y..]) == pixels[at..]
  {
    assert rows[y..][0] == rows[y] && rows[y..][1..] == rows[y + 1..];
    assert pixels[at..] == pixels[at..next] + pixels[next..];
  }
}
