/** Images within the reader's limits whose files it does not read. */
module PngTooLarge {
  import opened Bits
  import opened Deflate
  import opened Counting
  import opened PngFilter
  import opened PngWriter
  import opened PngFile
  import opened PngRoundTrip

  /** What filtered data stands for; shorter data stands for nothing. */
  ghost function Pixels(filt: seq<byte>, w: nat, n: nat, y: nat): seq<byte> {
    if |filt| >= y * (w + 1) then UnfilterRows(filt, Zeros(w), n, y).1 else []
  }

  /** Of any size there is an image that no filters and no stream pack into fewer bytes than it has. */
  lemma SomeImageGrows(w: nat, y: nat, n: nat) returns (pixels: seq<byte>)
    ensures |pixels| == w * y
    ensures forall z, force_filter :: Packs(z, pixels, w, w, y, n, force_filter, false) ==> |z| > |pixels|
  {
    hide Yields;
    var g := (filt: seq<byte>) => Pixels(filt, w, n, y);
    pixels := TooFewStreams(w * y, g);
    forall z, force_filter | Packs(z, pixels, w, w, y, n, force_filter, false) ensures Yields(z, g, pixels) {
      PacksYields(z, pixels, w, y, n, force_filter, g);
    }
  }

  lemma PacksYields(z: seq<byte>, pixels: seq<byte>, w: nat, y: nat, n: nat, force_filter: int, g: seq<byte> -> seq<byte>)
    requires |pixels| == w * y && Packs(z, pixels, w, w, y, n, force_filter, false)
    requires forall filt :: g(filt) == Pixels(filt, w, n, y)
    ensures Yields(z, g, pixels)
  {
    hide InflatesTo, Filtered, UnfilterRows, Lines, Flatten, Holds;
    var filt, fs :| InflatesTo(z, true, filt) && Filtered(filt, fs, pixels, w, w, y, n, force_filter, false);
    FilteredUndone(filt, fs, pixels, w, w, y, n, force_filter, false);
    TightRows(pixels, y, w, 0);
    assert pixels[0..] == pixels;
    WholeSeq(Lines(pixels, w, y, w, false));
    assert g(filt) == pixels;
  }

  /** A grey image of 32768 rows and columns is within the limits, but however it is filtered and compressed, some
      do not fit into one chunk that the reader takes. */
  lemma SomeImageIsTooLarge() returns (pixels: seq<byte>)
    ensures WithinLimits(32768, 32768, 1) && Holds(pixels, 32768, 32768, 32768)
    ensures forall z, force_filter :: Packs(z, pixels, 32768, 32768, 32768, 1, force_filter, false) ==> |z| > MAX_SIZE
  {
    hide Packs;
    pixels := SomeImageGrows(32768, 32768, 1);
  }
}
