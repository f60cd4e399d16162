/** Compressing and decompressing with this pair of codecs. */
module ZlibRoundTrip {
  import opened Basics
  import opened Bits
  import opened Deflate
  import opened Inflate
  import opened ZlibCompress

  /** What the writer makes of no data at all is not a deflate stream: the trailer is read as a stored
      block whose two lengths do not match. */
  lemma EmptyStreamIsMalformed(data: seq<byte>)
    ensures !InflatesTo([0x78, 0x5e, 0, 0, 0, 1], true, data)
  {
    hide LE, Put, PutBlock, BlockBytes, PayloadBits, Pow2;
    var bytes: seq<byte> := [0x78, 0x5e, 0, 0, 0, 1];
    if InflatesTo(bytes, true, data) {
      var bs, rest :| Encodes(bytes, true, bs, rest) && BlocksBytes([], bs, 16) == data;
      var b, last := bs[0], |bs| == 1;
      var after := PutBlocks(BlockBytes([], b, 19), bs[1..], After([], b, 16), true, rest);
      assert bytes[2..] == [0, 0, 0, 1];
      var v := LE([0, 0, 0, 1]);
      TrailerBits();
      assert BlockAhead(b, last, 16, v, after, []);
      HeaderWanted(b, last, 16, v, 0, 0, Put(0, 5, Put(0, 16, Put(1, 16, 0))), after, []);
      StoredHeaderWanted(b, 19, Put(0, 5, Put(0, 16, Put(1, 16, 0))), after, 0, 0, 1, 0);
    }
  }

  lemma TrailerBits()
    ensures LE([0, 0, 0, 1]) == Put(0, 1, Put(0, 2, Put(0, 5, Put(0, 16, Put(1, 16, 0)))))
  {
    hide LE, Put, Shl;
    var x := Put(0, 16, Put(1, 16, 0));
    assert [0, 0, 0, 1] == [0] + ([0, 0] + [1]);
    LEAppend([0], [0, 0] + [1]);
    LEAppend([0, 0], [1]);
    TwoBytes(0, 0);
    OneByteBits(0, x);
    OneByteBits(1, 0);
    Alone(1);
  }

  lemma Alone(v: nat)
    ensures Put(v, 16, 0) == v
  {
    ShlZero(16);
  }

  /** Every byte string but the empty one comes back; the empty one is rejected. */
  method CompressThenDecode(data: seq<byte>, quality: int, initial_size: nat) returns (r: Option<seq<byte>>)
    requires |data| < ROOM && 1 <= initial_size < ROOM
    ensures r == if data == [] then None else Some(data)
  {
    hide Chosen, InflatesNear, InflatesWithRoom;
    var z := Compress(data, quality);
    r := DecodeMalloc(z, initial_size, true, data);
    if data == [] && r.Some? {
      EmptyStreamIsMalformed(r.value);
    }
  }
}
