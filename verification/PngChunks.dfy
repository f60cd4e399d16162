/** The chunk layout of a PNG file (section 3 of RFC 2083). */
module PngChunks {
  import opened Bits
  import opened Streams

  const SIGNATURE: seq<byte> := [137, 80, 78, 71, 13, 10, 26, 10]

  const IHDR: nat := 0x49484452
  const IDAT: nat := 0x49444154
  const IEND: nat := 0x49454e44
  const PLTE: nat := 0x504c5445
  const TRNS: nat := 0x74524e53
  const CGBI: nat := 0x43674249

  /** A chunk with whatever checksum it carries. */
  datatype Chunk = Chunk(kind: nat, data: seq<byte>, crc: seq<byte>)

  ghost predicate ChunkOk(c: Chunk) {
    c.kind < TWO32 && |c.data| < TWO32 && |c.crc| == 4
  }

  ghost function ChunkBytes(c: Chunk): seq<byte>
    requires ChunkOk(c)
  {
    BE32(|c.data|) + (BE32(c.kind) + (c.data + c.crc))
  }

  ghost function AllBytes(cs: seq<Chunk>, rest: seq<byte>): seq<byte>
    requires forall i :: 0 <= i < |cs| ==> ChunkOk(cs[i])
  {
    if cs == [] then rest else ChunkBytes(cs[0]) + AllBytes(cs[1..], rest)
  }

  lemma Read32(v: nat, rest: seq<byte>)
    requires v < TWO32
    ensures |BE32(v) + rest| >= 4 && FromBE((BE32(v) + rest)[..4]) == v && (BE32(v) + rest)[4..] == rest
  {
    FromBE32(v);
    assert (BE32(v) + rest)[..4] == BE32(v);
  }
}
