# Models of the SOD image codecs, the INI parser and the recorder's audio timestamps

The repository carries its own image reader and writer (`include/sod/sod_img_reader.h`,
`include/sod/sod_img_writer.h`), an INI parser (`external/inih/ini.c`) and an RTSP recorder
(`rtsp_recorder.c`).  This project models their algorithms and proves what they are for:

* **zlib and PNG.** `stbi_zlib_compress` and the inflater are modelled statement by statement: hash chains,
  fixed-code bit packing, the stored fallback and Adler-32 on one side; canonical tables, the bit buffer,
  overlapping copies, the growing output and all three block types on the other.  The inflater is proved against a
  specification of DEFLATE (RFC 1951) in both directions: what it returns is what the bytes encode, and what the
  bytes encode it returns, exactly as long as its guard on the end of the input lets the symbols pass.  With the
  filters and the chunks on top, a written PNG file loads as the image it was made of.
* **JPEG entropy coding.** Coefficients written as Huffman codes, magnitude bits and stuffed bytes come back times
  the quantisers in their places, through the nine-bit tables of the reader: in any canonical tables, and in the
  standard ones that the source writes out.
* **TGA and HDR run lengths.** Images and scanlines come back; the packets written are those of the encoders' rules.
* **GIF.** The LZW decoder is proved against a specification that works with whole strings instead of links, and the
  raster against the order of interlaced rows.
* **INI.** Strings are cut into lines, lines parsed inside their buffer, and rendered values parsed back.
* **Audio timestamps.** The repaired decoding times are the least that can be, and the exact condition is given
  under which presentation times rise.

A bit stream is a natural number, the next bit lowest; reading `n` bits takes the rest of a division by 2^n
(`Bits.dfy` does without multiplication by variables).  Objects whose fields the source updates are classes with
ghost functions for the bits still to come (`Stream`) or the bytes already out (`Contents`).  Methods that read have
ghost parameters that say what the caller knows to be ahead, so that one contract states both what is read in general
(soundness) and that known input is read back (completeness).

## Where the code differs from what one would expect

* Of no data `stbi_zlib_compress` makes a header and a trailer with no block between them.  No inflater accepts that
  (`ZlibRoundTrip.EmptyStreamIsMalformed`); all other data comes back.
* A PNG whose compressed data is longer than 2^30 bytes is written in one chunk and rejected by the reader
  (include/sod/sod_img_reader.h:5255); `PngRoundTrip.WriteThenLoad` says so exactly.  Within the limits on the size
  there are images for which no filters and no compression avoid that (`PngTooLarge.SomeImageIsTooLarge`).
* A JPEG table with 256 symbols whose last one has at most nine bits collides with the mark for "not in the fast
  table" (`JpegReader.MistakenTable` is such a table; `JpegReader.NeverMistaken` says which are, and
  `JpegReader.MistakenSlot` what is decoded instead).
* The check of a product of two shorts is right for factors that are not negative and wrong for two negative ones
  (`JpegDecode.MulExact` says for which), although its comment promises both.  Quantisers of 16 bits reach it as
  negative numbers (`JpegDecode.DcAcceptedExact`).
* A GIF with a code size of 0 starts with codes too short for its table (`GifLzw.StartIsWide`).
* At every symbol the inflater wants 16 bits in its buffer or input that is not at its end, however short the code
  (include/sod/sod_img_reader.h:4290-4293).  So a stream that ends before its last code does can be accepted, because
  zeros past the end may be in the buffer already (`EndOfInput.TruncatedIsAccepted`), and a complete raw stream can be
  rejected (`EndOfInput.CompleteIsRejected`).  A stream has one reading, and it is accepted exactly when the guard lets
  each of its symbols pass (`OneReading.AcceptedExactly`, `Inflate.DecodeMalloc`).  Two bytes behind the blocks are
  always enough (`Feeding.RoomIsAccepted`), and no stream is accepted that ends far before its blocks do
  (`Feeding.AcceptedIsNear`).
* Flipping on write turns a TGA picture upside down, because the reader has no such setting
  (`TgaReader.WriteThenLoad`).
* The search for the end of a raw TGA packet compares pixels that are two apart (`TgaRle.Rule`).
* The comment in the recorder promises monotonic audio timestamps.  Decoding times are; presentation times are exactly
  as long as no packet with one is directly followed by one without (`AudioTimestamps.PtsRisesByPattern`).

## Model

| member | source | states |
|---|---|---|
| `Canonical.FitsLevels` | include/sod/sod_img_reader.h:4169-4214 | the Kraft sum is at most 1 exactly when no length has more codes than are left for it, which is what the builder checks level by level |
| `Canonical.StartsUnique` | include/sod/sod_img_reader.h:4268-4304 | of codes that fit, at most one starts a given bit stream (section 3.2.2 of RFC 1951) |
| `Canonical.WindowSymbol` | include/sod/sod_img_reader.h:4268-4285 | a 16-bit window between two levels' limits starts with exactly the code that its offset selects, in the slot of that symbol |
| `ZHuffman.BitReverse16IsRev` | include/sod/sod_img_reader.h:4152-4159 | the four mask-and-shift lines reverse sixteen bits |
| `ZHuffman.BitReverse` | include/sod/sod_img_reader.h:4161-4167 | reversing any number of bits up to 16 by way of sixteen |
| `ZHuffman.HuffTable.Build` | include/sod/sod_img_reader.h:4169-4214 | for lengths 0 to 15 the table is built exactly when the Kraft sum is at most 1, and then its limits, slots and fast entries are those of the canonical code |
| `ZHuffman.HuffTable.FillFast` | include/sod/sod_img_reader.h:4203-4208 | the stride through the fast table reaches just the entries whose low bits are the code, and no others change |
| `BitReader.ZBuf.FillBits` | include/sod/sod_img_reader.h:4246-4256 | filling the code buffer changes no bit of the stream still to come and leaves more than 24 bits in it |
| `BitReader.ZBuf.Receive` | include/sod/sod_img_reader.h:4258-4266 | the next bits of the stream, which loses exactly them |
| `BitReader.ZBuf.HuffmanDecode` | include/sod/sod_img_reader.h:4287-4304 | the symbol returned is the one whose code starts the stream, and its length is consumed; -1 comes exactly at the end of data with fewer than 16 bits buffered, or when no code starts the stream |
| `BitReader.ZBuf.HuffmanDecodeSlow` | include/sod/sod_img_reader.h:4268-4285 | the same for codes over nine bits |
| `BitReader.ZBuf.FastMeans` | include/sod/sod_img_reader.h:4296-4302 | an empty fast entry means that no code of at most nine bits comes next, any other names the code that does |
| `BitReader.ZBuf.SlotMeans` | include/sod/sod_img_reader.h:4276-4284 | the slot computed in the slow path is in range and its size is the code's length, so neither of the two guards fires |
| `DeflateTables.LengthTables` | include/sod/sod_img_reader.h:4328-4334 | the length bases and extra bits of the specification are those of the source's tables |
| `DeflateTables.DistTables` | include/sod/sod_img_reader.h:4336-4340 | the same for distances |
| `DeflateTables.OrderTable` | include/sod/sod_img_reader.h:4389-4389 | the order of the code-length code's sizes |
| `Inflate.Inflater.ZExpand` | include/sod/sod_img_reader.h:4306-4326 | doubling ends with enough room and the same contents, exactly when the largest size that doubling reaches is enough, or a fixed buffer is; the loop terminates |
| `Inflate.Inflater.CopyMatch` | include/sod/sod_img_reader.h:4371-4382 | a copy that overlaps itself repeats bytes as RFC 1951 has it; the case of distance 1 is no different |
| `Inflate.Inflater.ReadDist` | include/sod/sod_img_reader.h:4366-4369 | a distance symbol and its extra bits, sound and complete |
| `Inflate.Inflater.ParseToken` | include/sod/sod_img_reader.h:4342-4385 | one round reads exactly one token or the end-of-block symbol, and known input is read as the token it encodes |
| `Inflate.Inflater.ParseHuffmanBlock` | include/sod/sod_img_reader.h:4342-4385 | the block loop ends; it reads the tokens that the bits encode and puts out their expansion; known tokens are all read exactly as long as the guard on the end of data lets their symbols pass |
| `DynamicCodes.ReadLengths` | include/sod/sod_img_reader.h:4407-4434 | the instructions for the code lengths, repeats included, give exactly the lengths they stand for, and known ones are all read |
| `DynamicCodes.ComputeHuffmanCodes` | include/sod/sod_img_reader.h:4387-4438 | after a dynamic header both tables hold the codes that the header describes, and the stream is behind it |
| `Inflate.Inflater.ReadStoredHeader` | include/sod/sod_img_reader.h:4447-4458 | the four header bytes come partly out of the code buffer and partly out of the input, in the order of the stream |
| `Inflate.Inflater.ParseUncompressedBlock` | include/sod/sod_img_reader.h:4440-4467 | a stored block: the padding, the two lengths and the bytes, sound and complete |
| `Inflate.Inflater.ParseZlibHeader` | include/sod/sod_img_reader.h:4469-4481 | the header is accepted exactly when its check bits divide, its method is 8 and no dictionary is asked for |
| `Inflate.Inflater.BuildFixed` | include/sod/sod_img_reader.h:4483-4498 | the default lengths make complete tables |
| `Inflate.Inflater.ParseBlocks` | include/sod/sod_img_reader.h:4512-4541 | the stream of blocks up to the last one: what was read is what the bits encode, and known blocks are all read |
| `Inflate.Inflater.ParseZlib` | include/sod/sod_img_reader.h:4512-4541 | the output is certain data if and only if the bytes encode it in blocks whose symbols all pass the guard on the end of data, and there is room for it |
| `Inflate.DecodeMalloc` | include/sod/sod_img_reader.h:4575-4590 | data is returned if and only if the bytes encode it in blocks whose symbols all pass the guard on the end of data, whatever block types, codes and tokens those are, and doubling the buffer reaches its length; two bytes behind the blocks are enough, and blocks that end past the bytes do so by at most a header and an end-of-block code |
| `Inflate.DecodeBuffer` | include/sod/sod_img_reader.h:4592-4601 | the same for a buffer of fixed size, whose length takes the place of what doubling reaches |
| `Feeding.RoomIsAccepted` | include/sod/sod_img_reader.h:4287-4294 | two bytes behind the blocks keep the guard from firing at any symbol, in headers and in blocks of every type |
| `Feeding.AcceptedIsNear` | include/sod/sod_img_reader.h:4246-4294 | what passes the guard ends inside its bytes when its last block is stored bytes, and else at most a header and an end-of-block code behind them |
| `OneReading.InflatesOnce` | include/sod/sod_img_reader.h:4512-4541 | bytes decompress to one thing at most: no two lists of blocks have the same bits (section 3.2 of RFC 1951) |
| `OneReading.AcceptedExactly` | include/sod/sod_img_reader.h:4287-4294 | of bytes that encode certain blocks, what these stand for is accepted if and only if the guard lets all their symbols pass, and nothing else is |
| `EndOfInput.TruncatedIsAccepted` | include/sod/sod_img_reader.h:4246-4294 | three bytes whose only block ends two bits behind them are accepted |
| `EndOfInput.CompleteIsRejected` | include/sod/sod_img_reader.h:4287-4294 | four bytes that hold a whole block are not, because 13 bits are buffered where its last code has 7 |
| `StreamEnd.StreamEndsNear` | include/sod/sod_img_reader.h:4236-4244 | the zeros read past the end of the input cannot be blocks: no stream that does not end in stored bytes goes further past the end than a header and an end-of-block code |
| `BitWriter.Packer.Flush` | include/sod/sod_img_writer.h:869-877 | bytes leave the bit buffer, and the bits written stay the same |
| `BitWriter.Packer.BitRev` | include/sod/sod_img_writer.h:879-887 | the bits of a code reversed |
| `BitWriter.Packer.Huff` | include/sod/sod_img_writer.h:909-919 | the four branches for literals and lengths append exactly the canonical fixed code of the symbol |
| `BitWriter.Packer.HuffDist` | include/sod/sod_img_writer.h:993-994 | a distance symbol's five bits are its canonical fixed code |
| `FixedCodes.LiteralCode` | include/sod/sod_img_writer.h:909-919 | the canonical code that the four ranges of the fixed code amount to |
| `MatchFinder.Countm` | include/sod/sod_img_writer.h:889-895 | how far two positions agree, at most 258 |
| `MatchFinder.MatchLenAgrees` | include/sod/sod_img_writer.h:889-895 | as far as that the bytes are the same |
| `MatchFinder.LongestMatch` | include/sod/sod_img_writer.h:954-962 | the walk along a chain finds the match that the specification names |
| `MatchFinder.BestIsLongest` | include/sod/sod_img_writer.h:954-962 | which is the longest reachable one, the latest of equals, and none when all are below three bytes |
| `MatchFinder.BetterNext` | include/sod/sod_img_writer.h:970-985 | lazy matching: whether a longer match starts one byte on |
| `MatchFinder.EnterKeepsChain` | include/sod/sod_img_writer.h:963-968 | chains keep increasing positions below the current one, and at most 2 * quality of them, when a full one is cut in half |
| `MatchFinder.StepIsBest` | include/sod/sod_img_writer.h:952-1001 | a match that is taken has length 3 to 258 and distance 1 to 32767, equals the earlier bytes, is the longest of its chain and not worse than the next position's; a literal is taken only when there is none like that |
| `MatchFinder.CopyIsData` | include/sod/sod_img_writer.h:987-996 | copying a real match reproduces the data, however much it overlaps itself |
| `MatchFinder.ChooseLength` | include/sod/sod_img_writer.h:990-992 | the length symbol chosen has the length in its range, and its extra bits hold the rest; so decoding gives exactly that length |
| `MatchFinder.ChooseDist` | include/sod/sod_img_writer.h:993-995 | the same for distances |
| `ZlibCompress.FindMatch` | include/sod/sod_img_writer.h:952-985 | the step taken is that of the parse, and the hash table afterwards has the position in its chain and is otherwise the same |
| `ZlibCompress.CompressFixed` | include/sod/sod_img_writer.h:943-1005 | the bits written are a final fixed-code block whose tokens follow the parse from empty chains and expand to the data |
| `ZlibCompress.FinishBlock` | include/sod/sod_img_writer.h:1006-1010 | the end-of-block code and fewer than eight zero bits complete the block to whole bytes |
| `ZlibCompress.StoreBlocks` | include/sod/sod_img_writer.h:1015-1030 | the fallback is stored blocks of 32767 bytes and a last one of 1 to 32767, the last alone marked final, in exactly 5 bytes more each |
| `ZlibCompress.Compress` | include/sod/sod_img_writer.h:925-1053 | for data that is not empty the stream encodes it with the trailer to spare; it is the parse in fixed codes, unless that is longer than the data in stored blocks, and then it is those; it is never longer than data_len + 6 + 5 * ceil(data_len / 32767) and ends with the Adler-32 value |
| `Adler.Adler32` | include/sod/sod_img_writer.h:1032-1042 | the deferred modulo over a short first block and full ones gives the per-byte sums of section 8.2 of RFC 1950 |
| `Adler.NoOverflow` | include/sod/sod_img_writer.h:1036-1041 | no sum before a reduction exceeds 32 bits |
| `ZlibRoundTrip.CompressThenDecode` | include/sod/sod_img_writer.h:925-1053 | every byte string but the empty one comes back, at every quality; the empty one is rejected |
| `Counting.TooFewStreams` | include/sod/sod_img_writer.h:925-1053 | of every length there is data that no zlib stream of at most that length decompresses to, whatever blocks and tokens it is made of |
| `ZlibRoundTrip.EmptyStreamIsMalformed` | include/sod/sod_img_writer.h:1015-1018 | what is written for no data is not a DEFLATE stream of anything |
| `PngFilter.UnfilterFilter` | include/sod/sod_img_writer.h:1130-1156 | unfiltering undoes any filter on any row above (section 6 of RFC 2083) |
| `PngFilter.FilterUnfilter` | include/sod/sod_img_reader.h:4685-4821 | and filtering undoes unfiltering |
| `PngFilter.UnfilterFilterRows` | include/sod/sod_img_writer.h:1177-1206 | whole images come back under any choice of filters row by row |
| `PngWriter.EncodeLine` | include/sod/sod_img_writer.h:1123-1157 | the line filtered as section 6 says, the first line with its variants that do not look up, and flipped order included |
| `PngWriter.EncodeBest` | include/sod/sod_img_writer.h:1184-1202 | for every row: the lowest-numbered filter with the least sum of absolute values if that is below INT_MAX, and else filter 0 |
| `PngWriter.PickedIsCheapest` | include/sod/sod_img_writer.h:1184-1196 | which is the cheapest filter as long as no sum is over INT_MAX |
| `PngWriter.ShortRows` | include/sod/sod_img_writer.h:1189-1192 | and none is for rows of less than 2^24 bytes |
| `PngWriter.EncodeLines` | include/sod/sod_img_writer.h:1177-1206 | the filtered image: forced filters as forced, chosen ones as the search picks them for their row |
| `PngReader.RestoreRow` | include/sod/sod_img_reader.h:4750-4821 | a row is restored in place from the row above it, and nothing else changes |
| `PngReader.CreateImageRaw` | include/sod/sod_img_reader.h:4708-4821 | the output is the unfiltered rows, and fails exactly on too little data or a filter over 4 |
| `Streams.ByteStream.Skip` | include/sod/sod_img_reader.h:1659-1679 | the rest behind the skipped bytes, or nothing when they are more than are left or the length is negative as a signed number |
| `PngFile.CheckHeader` | include/sod/sod_img_reader.h:5179-5201 | the header is accepted only within the limits on size, and an 8-bit header of 1 to 4 channels always is |
| `PngFile.Decoder.ParseChunk` | include/sod/sod_img_reader.h:5168-5335 | one chunk of a known file is read to its end, with the data joined to what was collected |
| `PngFile.LoadPng` | include/sod/sod_img_reader.h:5150-5336 | for every file with an 8-bit header, however its image data is cut into chunks and whatever ancillary chunks stand between, the result is the unfiltered rows of the inflated data, unless a chunk is over the limit |
| `PngRoundTrip.WriteChunk` | include/sod/sod_img_writer.h:1219-1239 | length, type, data and checksum of one chunk |
| `PngRoundTrip.WritePng` | include/sod/sod_img_writer.h:1159-1244 | the file is signature, header, one data chunk and end; the data inflates to the filtered image and is within the size bound |
| `PngRoundTrip.WriteThenLoad` | include/sod/sod_img_writer.h:1159-1244 | writing and loading gives the same size, channels and pixels for every image within the reader's limits, every stride, filter setting and level, exactly unless the compressed data exceeds one chunk's limit |
| `PngTooLarge.SomeImageGrows` | include/sod/sod_img_writer.h:1159-1244 | of every size there is an image that no choice of filters and no stream packs into as few bytes as it has |
| `PngTooLarge.SomeImageIsTooLarge` | include/sod/sod_img_reader.h:5255-5255 | so some grey image of 32768 by 32768 pixels, which is within the limits, has a chunk over the limit however it is written |
| `PngUnpack.UnpackRow` | include/sod/sod_img_reader.h:4838-4888 | unpacking samples of 1, 2 or 4 bits from the right end of their own row equals unpacking out of place, and nothing outside the row changes |
| `PngUnpack.ScaleIsExact` | include/sod/sod_img_reader.h:4844-4844 | stretched grey samples divide the range 0 to 255 evenly |
| `PngUnpack.ExpandRow1` | include/sod/sod_img_reader.h:4838-4909 | a row with one sample a pixel, unpacked and given alpha in place, for every width |
| `PngUnpack.ExpandRow3` | include/sod/sod_img_reader.h:4742-4747 | a row with three samples a pixel in the same way, exactly when the check on the packed width lets it through |
| `PngUnpack.InsertAlpha1` | include/sod/sod_img_reader.h:4889-4898 | inserting alpha from the right loses no sample |
| `PngUnpack.InsertAlpha3` | include/sod/sod_img_reader.h:4899-4907 | the same for three samples |
| `Adam7.PassInRange` | include/sod/sod_img_reader.h:4939-4947 | a pass has exactly the columns and rows that lie in the image |
| `Adam7.PassOnce` | include/sod/sod_img_reader.h:4939-4966 | a pixel of a pass belongs to no other pass and has one column and row there |
| `Adam7.PixelCovered` | include/sod/sod_img_reader.h:4939-4966 | every pixel of the image is in its pass |
| `Adam7.SizesAddUp` | include/sod/sod_img_reader.h:4946-4947 | the seven passes have width * height pixels together |
| `Adam7.Deinterlace` | include/sod/sod_img_reader.h:4939-4966 | after the copying loops every pixel is that of its pass, whatever was there before |
| `GifRaster.RowsOnce` | include/sod/sod_img_reader.h:6786-6795 | every row of an interlaced frame has its turn exactly once, for every height |
| `GifRaster.PaintedPixel` | include/sod/sod_img_reader.h:6771-6795 | each pixel of the frame shows the symbol whose turn it is, if there are that many |
| `GifRaster.MarkedPixel` | include/sod/sod_img_reader.h:6771-6775 | and exactly those pixels are marked as written |
| `GifRaster.OutsideKept` | include/sod/sod_img_reader.h:6771-6795 | pixels outside the frame stay as they were |
| `GifRaster.LateSymbol` | include/sod/sod_img_reader.h:6771-6771 | symbols after the last pixel change nothing |
| `GifRaster.Raster.constructor` | include/sod/sod_img_reader.h:6961-6996 | the image descriptor starts the cursor at the frame's first pixel, with the passes still to come |
| `GifRaster.Raster.Emit` | include/sod/sod_img_reader.h:6771-6795 | the cursor is always where the next symbol in painting order belongs |
| `GifLzw.GoodStep` | include/sod/sod_img_reader.h:6841-6883 | every step keeps the table of strings well formed: single symbols in front, at most 8192 entries, no empty string |
| `GifLzw.WidensWhenFull` | include/sod/sod_img_reader.h:6874-6877 | one data code: the test on the low bits widens codes exactly when the table fills their width, below 4096 entries |
| `GifLzw.StartIsWide` | include/sod/sod_img_reader.h:6841-6847 | the width after a clear code suffices exactly for a code size of 1 or more |
| `GifLzw.StepIsWide` | include/sod/sod_img_reader.h:6841-6883 | every step, clear codes included, keeps the width sufficient |
| `GifLzw.RunIsWide` | include/sod/sod_img_reader.h:6806-6883 | so it suffices after any list of codes, and until the table has 4096 entries every code that can come next fits it, that of the entry being made included |
| `GifLzw.EntryKept` | include/sod/sod_img_reader.h:6859-6868 | a linked entry goes on standing for its string when more entries are made |
| `GifLzw.MoreString` | include/sod/sod_img_reader.h:6854-6880 | what a data code stands for, the entry being made included |
| `GifLzw.Decoder.OutCode` | include/sod/sod_img_reader.h:6761-6769 | the recursion ends because prefixes are smaller than their entry, and puts out exactly the entry's string |
| `GifLzw.Decoder.AddEntry` | include/sod/sod_img_reader.h:6859-6870 | the new entry is the previous string and the first symbol of the code's, also for the code that is just being made, although the test comes after the counter went up |
| `GifLzw.Decoder.DataCode` | include/sod/sod_img_reader.h:6854-6883 | a data code does what one step of the specification does: same output, same table, same width, and failure on the same codes |
| `GifLzw.Decoder.ProcessRaster` | include/sod/sod_img_reader.h:6798-6885 | the symbols painted are the expansion of the code sequence in the sub-blocks, success is that of the specification, and the input is behind its last block then |
| `GifLzw.LoadFrame` | include/sod/sod_img_reader.h:6961-6996 | a frame's pixels show the symbols of the expansion in interlaced or plain order, and only they change |
| `JpegHuffman.JTable.Build` | include/sod/sod_img_reader.h:2019-2062 | a table exactly when there are at most 256 symbols and their Kraft sum is at most 1; it holds the canonical codes of the size list |
| `JpegHuffman.SlotIsIndex` | include/sod/sod_img_reader.h:2024-2041 | symbols listed by size stand in their own slots |
| `JpegFastAc.BuildFastAc` | include/sod/sod_img_reader.h:2066-2089 | each entry is exactly the run, value and length of the code and magnitude within nine bits, or 0 |
| `JpegBits.UnstuffStuffed` | include/sod/sod_img_writer.h:1285-1300 | stuffing a zero behind each 255 is undone by reading, whatever follows |
| `JpegBits.Writer.WriteBits` | include/sod/sod_img_writer.h:1285-1300 | the bits written are those before and the code, most significant first; 255 is stuffed |
| `JpegReader.Reader.Grow` | include/sod/sod_img_reader.h:2091-2107 | growing the buffer changes no bit to come; it ends with over 24 bits or at the end of the data |
| `JpegReader.Reader.HuffDecode` | include/sod/sod_img_reader.h:2113-2162 | the symbol whose code comes next, and its length consumed, or failure when no whole code is left; for the one symbol it mistakes, ten bits are consumed for another symbol, and it fails only with fewer than ten bits left, even if the code's own are there |
| `JpegReader.MistakenTable` | include/sod/sod_img_reader.h:2049-2057 | a table of 256 codes of eight bits is one whose last symbol is mistaken |
| `JpegReader.NeverMistaken` | include/sod/sod_img_reader.h:2049-2057 | a table that fits is mistaken on no stream if and only if it has fewer than 256 symbols or its last one has over nine bits |
| `JpegReader.MistakenSlot` | include/sod/sod_img_reader.h:2129-2161 | what is decoded instead: one of the last four symbols, by the bits behind the code up to the tenth |
| `JpegReader.Reader.ExtendReceive` | include/sod/sod_img_reader.h:2169-2182 | the magnitude bits as a signed value (section F.2.2.1 of ITU-T T.81), or nothing consumed |
| `JpegCoef.CalcBits` | include/sod/sod_img_writer.h:1350-1358 | the category of a value and its magnitude bits |
| `JpegCoef.ExtendMagnitude` | include/sod/sod_img_writer.h:1350-1358 | EXTEND takes them back to the value |
| `JpegCoef.ZigZagDezigzag` | include/sod/sod_img_reader.h:2210-2223 | the writer's order is the inverse of the reader's |
| `JpegCoef.DezigzagZigZag` | include/sod/sod_img_reader.h:2210-2223 | and the reader's of the writer's |
| `JpegDecode.MulValid` | include/sod/sod_img_reader.h:1091-1098 | the check on products of shorts is exact when the second factor is not negative |
| `JpegDecode.MulExact` | include/sod/sod_img_reader.h:1091-1098 | for any two shorts the check is right if and only if one is not negative, or the second is -1 and the first not the least, or the product is the largest multiple that fits |
| `JpegDecode.MulInvalid` | include/sod/sod_img_reader.h:1091-1098 | it rejects -1 times -2 |
| `JpegDecode.DcAcceptedExact` | include/sod/sod_img_reader.h:2240-2243 | the check on the first coefficient is right for quantisers of 15 bits; for wider ones, which turn negative, exactly for 0, for -1 with 32768, and, but for 65535, where it turns a product away |
| `JpegDecode.DcAcceptedWrongly` | include/sod/sod_img_reader.h:2240-2243 | 1 times 65535 is accepted and stored as -1 |
| `JpegDecode.FastAcRefines` | include/sod/sod_img_reader.h:2251-2262 | every entry of the fast table that is not 0 has the run, the value and the number of bits of the slow way |
| `JpegDecode.NextAc` | include/sod/sod_img_reader.h:2246-2278 | one coefficient by either way is the same |
| `JpegDecode.DecodeBlock` | include/sod/sod_img_reader.h:2226-2281 | a written block comes back times the quantiser in its places, its bits and no others are gone, and it is rejected exactly when the check turns its first coefficient away, for quantisers of up to 16 bits |
| `JpegEncode.EncodeBlock` | include/sod/sod_img_writer.h:1387-1428 | the bits of a block: the difference, runs of zeros with their coefficients, runs of 16 zeros and the end of block |
| `JpegScan.EncodeScan` | include/sod/sod_img_writer.h:1387-1428 | blocks of several components one after the other, the fill bits and the end marker |
| `JpegScan.WriteThenRead` | include/sod/sod_img_writer.h:1387-1428 | every scan with coefficients in range comes back times the quantisers, exactly when the check accepts all first coefficients, in any tables that are canonical and have the symbols |
| `JpegCounts.LevelsOf` | include/sod/sod_img_reader.h:2032-2047 | the first code of each length and the number of shorter ones, from the counts (annex C of ITU-T T.81) |
| `JpegTables.StdAcOk` | include/sod/sod_img_writer.h:1435-1495 | every entry of the two AC tables written out in the source is the canonical code of its symbol by the counts and values written out beside it, and all symbols needed are there |
| `JpegTables.StdDcOk` | include/sod/sod_img_writer.h:1433-1459 | the same for the two DC tables |
| `JpegStandard.WriteThenRead` | include/sod/sod_img_writer.h:1431-1636 | in the standard tables every scan of three components comes back, with nothing assumed of tables |
| `WriteContext.Context.Write1` | include/sod/sod_img_writer.h:415-420 | a byte through the 64-byte buffer, flushed in time |
| `WriteContext.Context.Write3` | include/sod/sod_img_writer.h:422-432 | three bytes in the same way |
| `TgaRle.PacketAt` | include/sod/sod_img_writer.h:586-616 | a run as long as it can be, up to 128, or a raw packet up to one pixel before two equal ones that are two apart |
| `TgaRle.WriteRow` | include/sod/sod_img_writer.h:582-630 | the packets of a row are those of the rule, cover it exactly and spell it |
| `TgaRle.WriteTga` | include/sod/sod_img_writer.h:565-635 | the file is the header and the packets of its rows, from the bottom up unless flipping is on |
| `TgaReader.NextPixel` | include/sod/sod_img_reader.h:6064-6120 | the state machine over count and repetition gives the next pixel that the packets spell |
| `TgaReader.InvertRows` | include/sod/sod_img_reader.h:6122-6138 | swapping rows from both ends turns the picture over |
| `TgaReader.SwapChannels` | include/sod/sod_img_reader.h:6146-6157 | red and blue change places |
| `TgaReader.LoadTga` | include/sod/sod_img_reader.h:5961-6170 | a run-length coded file gives the pixels its packets spell, whatever packets they are, or is rejected for its size |
| `TgaReader.WriteThenLoad` | include/sod/sod_img_writer.h:552-635 | an image of any size up to 65535 and 1 to 4 channels comes back if it is not flipped, upside down if it is, and is rejected exactly for its size |
| `HdrRle.WritePlane` | include/sod/sod_img_writer.h:750-786 | a plane's segments are its plan: runs just where three equal bytes begin, dumps between, lengths up to 127 and 128; each round gets further |
| `HdrRle.WriteScanline` | include/sod/sod_img_writer.h:748-786 | the header and the segments of four planes |
| `HdrRle.ReadPlane` | include/sod/sod_img_reader.h:7384-7404 | segments are read until the plane is full, and none is longer than what is left |
| `HdrRle.ReadScanline` | include/sod/sod_img_reader.h:7356-7404 | whatever segments spell four planes, the scanline gets their bytes side by side |
| `HdrRle.WriteThenRead` | include/sod/sod_img_writer.h:748-786 | for every width from 8 to 32767 and every four planes the bytes come back |
| `IniText.RStrip` | external/inih/ini.c:48-54 | the string in the buffer loses its white space at the end, and nothing else in the buffer changes |
| `IniText.LSkip` | external/inih/ini.c:57-62 | a pointer to the string without white space at the front |
| `IniText.FindCharsOrComment` | external/inih/ini.c:67-82 | the first of the characters, or the first comment behind white space, or the end |
| `IniParser.ReadLine` | external/inih/ini.c:277-300 | the next line as the string reader cuts it |
| `IniParser.LinesJoin` | external/inih/ini.c:277-300 | the lines of a string joined are the string, and each fits the buffer |
| `IniParser.ReadItem` | external/inih/ini.c:161-240 | what the line in the buffer says, by cutting it in place: the specification's item |
| `IniParser.ParseString` | external/inih/ini.c:97-253 | the handler calls are those of the lines in turn, and the result is the number of the first line that fails, or 0, for a handler whose answer depends on all calls so far |
| `IniRoundTrip.RenderThenParse` | external/inih/ini.c:97-310 | any list of sections, names and values, short, trimmed and free of delimiters, parses back to exactly those calls; the result tells the first one the handler refuses |
| `AudioTimestamps.Recorder.Audio` | rtsp_recorder.c:272-347 | one packet's times follow from the packets before it as the repair says |
| `AudioTimestamps.Record` | rtsp_recorder.c:272-347 | a whole run is repaired packet by packet, whether or not the muxer takes them |
| `AudioTimestamps.DtsLeast` | rtsp_recorder.c:298-314 | decoding times start at 1, rise strictly, are never below the packet's own time, and are the least such sequence at every packet |
| `AudioTimestamps.PtsNotBeforeDts` | rtsp_recorder.c:316-336 | presentation is never before decoding |
| `AudioTimestamps.PtsRisesByPattern` | rtsp_recorder.c:316-336 | which packets have a presentation time decides: whatever the times are they are repaired to rise, if and only if none with one, behind the first decoding time, is directly followed by one without |
| `AudioTimestamps.BrokenFalls` | rtsp_recorder.c:316-336 | where they break off so, they fall for some value of the presentation time before, all decoding times being as they are |
| `AudioTimestamps.PtsRisesExactly` | rtsp_recorder.c:316-336 | for given times they rise exactly when each packet without one is decoded after the presentation time before it |
| `AudioTimestamps.PtsRises` | rtsp_recorder.c:316-336 | they rise whenever every packet but perhaps the first has one |
| `AudioTimestamps.PtsCanFall` | rtsp_recorder.c:316-336 | and fall on a run of two packets otherwise |
| `AudioTimestamps.PtsLeast` | rtsp_recorder.c:316-330 | where every packet has one they are the least that are good |

## Left out

- CRC-32 (include/sod/sod_img_writer.h:1055-1112): the chunk checksum is a parameter, any function of the chunk; the
  reader skips it, as it does the Adler-32 value, so corruption is not detected.
- PNG files with a palette, transparency, 16-bit samples, fewer than 8 bits or interlacing: their unpacking and
  de-interlacing are modelled row by row and pass by pass, but not the path through the whole file.
- PngFile.LoadPng: says nothing beyond its size limits about files that are not of the modelled kind.
- PngWriter.EncodeBest: sums are whole numbers here; over INT_MAX, which takes rows of 2^24 bytes and more, the
  source's `est` overflows.
- ZlibRoundTrip.CompressThenDecode: for data of less than 2^31 bytes, beyond which its length does not fit an int.
- Inflate.DecodeMalloc: lengths of 2^31 bytes and more, which the buffer can reach, do not fit the source's int.
- `malloc` failures, file and callback input, and the settings kept per thread: input is a sequence of bytes.
- JpegScan.WriteThenRead: covers the entropy coding; the colour conversion, the cosine transform and its rounding, the
  quantiser, the frame headers, progressive scans and restart intervals are not modelled.
- TgaReader.LoadTga: says nothing about files that no packets of an image make up, such as truncated ones.
- HdrRle.ReadScanline: says nothing about malformed scanlines, which end in the two errors of the source.
- TGA without run lengths, with a palette or with 16-bit pixels, and the attribute bits of the descriptor.
- TgaReader.WriteThenLoad: an image without columns or rows is one of no pixels here; in the source it rests on what
  malloc makes of no bytes.
- TgaRle.WriteTga: offsets of rows are whole numbers; in the source they overflow an int for some pictures that the
  reader rejects for their size.
- HDR scanlines without run lengths, the header text, and the conversion to and from floating point.
- GIF headers, extensions, reading palettes and the disposal of frames: a frame starts behind its descriptor.
- GifLzw.LoadFrame: the frame lies inside the image, which the source checks before it gets here.
- The INI parser's other compile-time options, and the file reader: the modelled ones are those of the build; lines
  longer than 199 characters are split there and here.
- The recorder's video timestamps, the segment change, signals and the calls into FFmpeg; whether a packet is taken
  by the muxer is a parameter, and times are integers that do not wrap at 64 bits.
