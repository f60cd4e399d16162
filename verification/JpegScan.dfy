/** A baseline scan: blocks of up to four components, written and read back. */
module JpegScan {
  import opened Bits
  import opened Streams
  import opened JpegHuffman
  import opened JpegFastAc
  import opened JpegBits
  import opened JpegReader
  import opened JpegCoef
  import opened JpegEncode
  import opened JpegDecode

  /** A block and the component it belongs to. */
  datatype Part = Part(comp: nat, du: Coefs)

  /** The writer's tables of all components and the codings they stand for. */
  datatype Setup = Setup(dc: seq<CodeTable>, ac: seq<CodeTable>, dcC: seq<Coding>, acC: seq<Coding>)

  ghost predicate SetupOk(t: Setup) {
    && |t.dc| == |t.ac| == |t.dcC| == |t.acC|
    && forall c :: 0 <= c < |t.dc| ==>
      Sane(t.dc[c]) && Sane(t.ac[c]) && DcTable(t.dc[c], t.dcC[c]) && AcTable(t.ac[c], t.acC[c])
  }

  /** Differences in range, each to the block of the same component before. */
  ghost predicate PartsOk(parts: seq<Part>, preds: seq<int>)
    decreases |parts|
  {
    parts != [] ==>
      && parts[0].comp < |preds| && DiffOk(parts[0].du[0] - preds[parts[0].comp])
      && -32768 <= parts[0].du[0] <= 32767
      && PartsOk(parts[1..], preds[parts[0].comp := parts[0].du[0]])
  }

  ghost function PutParts(parts: seq<Part>, preds: seq<int>, t: Setup, rest: nat): nat
    requires PartsOk(parts, preds) && SetupOk(t) && |preds| == |t.dc|
    decreases |parts|
  {
    if parts == [] then rest
    else
      var c, du := parts[0].comp, parts[0].du;
      PutBlock(du, preds[c], t.dc[c], t.ac[c], PutParts(parts[1..], preds[c := du[0]], t, rest))
  }

  ghost function PartsBits(parts: seq<Part>, preds: seq<int>, t: Setup): nat
    requires PartsOk(parts, preds) && SetupOk(t) && |preds| == |t.dc|
    decreases |parts|
  {
    if parts == [] then 0
    else
      var c, du := parts[0].comp, parts[0].du;
      BlockBits(du, preds[c], t.dc[c], t.ac[c]) + PartsBits(parts[1..], preds[c := du[0]], t)
  }

  lemma PartsOpen(parts: seq<Part>, preds: seq<int>, t: Setup)
    requires PartsOk(parts, preds) && SetupOk(t) && |preds| == |t.dc| && parts != []
    ensures var c, du := parts[0].comp, parts[0].du;
      && c < |preds| == |t.ac| == |t.dcC| == |t.acC| && |du| == 64 && DiffOk(du[0] - preds[c]) && -32768 <= du[0] <= 32767
      && PartsOk(parts[1..], preds[c := du[0]])
      && Sane(t.dc[c]) && Sane(t.ac[c]) && DcTable(t.dc[c], t.dcC[c]) && AcTable(t.ac[c], t.acC[c])
      && PartsBits(parts, preds, t) ==
           BlockBits(du, preds[c], t.dc[c], t.ac[c]) + PartsBits(parts[1..], preds[c := du[0]], t)
      && forall rest: nat :: (
           PutParts(parts, preds, t, rest) ==
           PutBlock(du, preds[c], t.dc[c], t.ac[c], PutParts(parts[1..], preds[c := du[0]], t, rest)))
  {
  }

  // ---------------------------------------------------------------- writing

  /** The bits in a writer are no more than it says. */
  lemma ValueBound(w: Writer)
    requires w.Valid()
    ensures w.Value() < Pow2(w.Size())
  {
    hide Rev;
    LEBound(Mirror(w.raw));
    JoinBound(High(w.raw), 8 * |w.raw|, Rev(w.bitBuf, 24), w.bitCnt);
  }

  /** Bytes that hold these blocks, and then something. */
  ghost predicate HoldsParts(bytes: seq<byte>, parts: seq<Part>, preds: seq<int>, t: Setup) {
    && PartsOk(parts, preds) && SetupOk(t) && |preds| == |t.dc|
    && 8 * |Unstuffed(bytes)| >= PartsBits(parts, preds, t)
    && exists rest: nat :: High(Unstuffed(bytes)) == PutParts(parts, preds, t, rest)
  }

  /** The blocks of a scan, the fill bits and the end of the image. */
  method EncodeScan(header: seq<byte>, parts: seq<Part>, preds0: seq<int>, t: Setup) returns (out: seq<byte>)
    requires PartsOk(parts, preds0) && SetupOk(t) && |preds0| == |t.dc|
    ensures header <= out && HoldsParts(out[|header|..], parts, preds0, t)
  {
    hide Put, Rev, PutParts, PartsBits, PutBlock, BlockBits, PartsOk, SetupOk, With, Writer.Value, Writer.Size, Pow2, High, Stuffed,
      Unstuffed, IsCoefs, HoldsParts;
    var w := new Writer(header);
    var preds := preds0;
    var i := 0;
    WithEmpty(w);
    assert parts[0..] == parts;
    while i < |parts|
      invariant i <= |parts| && w.Valid() && w.start == |header| && header <= w.out && |preds| == |t.dc|
      invariant PartsOk(parts[i..], preds)
      invariant w.Size() + PartsBits(parts[i..], preds, t) == PartsBits(parts, preds0, t)
      invariant forall rest: nat :: With(w, PutParts(parts[i..], preds, t, rest)) == PutParts(parts, preds0, t, rest)
    {
      PartsOpen(parts[i..], preds, t);
      assert parts[i..][0] == parts[i] && parts[i..][1..] == parts[i + 1..];
      var c := parts[i].comp;
      var dc0 := EncodeBlock(w, parts[i].du, preds[c], t.dc[c], t.ac[c]);
      preds := preds[c := dc0];
      i := i + 1;
    }
    NoParts(parts[i..], preds, t);
    ghost var v, n := w.Value(), w.Size();
    ValueBound(w);
    assert 0x7f < Pow2(7) by { Pow2Values(); }
    assert forall rest: nat :: PutParts(parts, preds0, t, rest) == Put(v, n, rest) by { WithIs(w); }
    w.WriteBits(0x7f, 7);
    WholeBytes(w, v, n);
    out := w.out + [0xff, 0xd9];
    assert out[|header|..] == w.out[w.start..] + [0xff, 0xd9];
    UnstuffStuffed(w.raw, [0xff, 0xd9]);
    EndMarker();
    assert w.raw + [] == w.raw;
    Held(out[|header|..], parts, preds0, t, Take(Rev(0x7f, 7), 8 * |w.raw| - n));
  }

  lemma Held(bytes: seq<byte>, parts: seq<Part>, preds: seq<int>, t: Setup, rest: nat)
    requires PartsOk(parts, preds) && SetupOk(t) && |preds| == |t.dc|
    requires 8 * |Unstuffed(bytes)| >= PartsBits(parts, preds, t)
    requires High(Unstuffed(bytes)) == PutParts(parts, preds, t, rest)
    ensures HoldsParts(bytes, parts, preds, t)
  {
  }

  lemma WithEmpty(w: Writer)
    requires w.Valid() && w.Value() == 0 && w.Size() == 0
    ensures forall rest: nat :: With(w, rest) == rest
  {
  }

  lemma WithIs(w: Writer)
    requires w.Valid()
    ensures forall rest: nat :: With(w, rest) == Put(w.Value(), w.Size(), rest)
  {
  }

  lemma NoParts(parts: seq<Part>, preds: seq<int>, t: Setup)
    requires PartsOk(parts, preds) && SetupOk(t) && |preds| == |t.dc| && |parts| == 0
    ensures PartsBits(parts, preds, t) == 0 && forall rest: nat :: PutParts(parts, preds, t, rest) == rest
  {
  }

  lemma EndMarker()
    ensures Unstuffed([0xff, 0xd9]) == []
  {
    assert [0xff, 0xd9][1..] == [0xd9];
  }

  /** The bytes that are out have all bits but some of the fill bits. */
  lemma WholeBytes(w: Writer, v: nat, n: nat)
    requires w.Valid() && v < Pow2(n) && w.Size() == n + 7 && w.Value() == Put(v, n, Rev(0x7f, 7))
    ensures w.out[w.start..] == Stuffed(w.raw)
    ensures n <= 8 * |w.raw|
    ensures High(w.raw) == Put(v, n, Take(Rev(0x7f, 7), 8 * |w.raw| - n))
  {
    hide Rev, Put, Take, Drop;
    var k := 8 * |w.raw|;
    LEBound(Mirror(w.raw));
    TakePut(High(w.raw), k, Rev(w.bitBuf, 24));
    TakePut(v, n, Rev(0x7f, 7));
    Split(w.Value(), n, k - n);
  }

  // ---------------------------------------------------------------- reading

  /** The reader's tables of all components. */
  ghost predicate ReaderTables(hdc: seq<JTable>, hac: seq<JTable>, fac: seq<seq<int>>, dq: seq<seq<nat>>, t: Setup)
    reads set h | h in hdc :: h.fast, set h | h in hdc :: h.code, set h | h in hdc :: h.size
    reads set h | h in hdc :: h.maxcode, set h | h in hdc :: h.delta, set h | h in hdc :: h.values
    reads set h | h in hac :: h.fast, set h | h in hac :: h.code, set h | h in hac :: h.size
    reads set h | h in hac :: h.maxcode, set h | h in hac :: h.delta, set h | h in hac :: h.values
  {
    && |hdc| == |hac| == |fac| == |dq| == |t.dcC| == |t.acC|
    && forall c :: 0 <= c < |hdc| ==>
      && Tables(hdc[c], t.dcC[c]) && Tables(hac[c], t.acC[c]) && FacHolds(fac[c], hac[c], t.acC[c].lens)
      && |dq[c]| == 64 && dq[c][0] <= 65535
  }

  /** Every first coefficient is accepted with its quantiser. */
  ghost predicate DcFit(parts: seq<Part>, dq: seq<seq<nat>>) {
    forall i :: 0 <= i < |parts| && parts[i].comp < |dq| && |dq[parts[i].comp]| == 64 ==>
      DcAccepted(parts[i].du[0], dq[parts[i].comp][0])
  }

  ghost predicate AllFilled(blocks: seq<seq<int>>, parts: seq<Part>, dq: seq<seq<nat>>) {
    && |blocks| <= |parts|
    && forall i :: 0 <= i < |blocks| ==>
      && |blocks[i]| == 64 && parts[i].comp < |dq| && |dq[parts[i].comp]| == 64
      && Filled(blocks[i], parts[i].du, dq[parts[i].comp], 64)
  }

  /** What is known of the input: these blocks, for these components. */
  ghost predicate Known(bytes: seq<byte>, comps: seq<nat>, parts: seq<Part>, preds: seq<int>, t: Setup) {
    HoldsParts(bytes, parts, preds, t) && |comps| == |parts| && forall i :: 0 <= i < |parts| ==> comps[i] == parts[i].comp
  }

  /** The reader is at block `i` of known blocks. */
  ghost predicate AtPart(v: nat, left: int, parts: seq<Part>, i: nat, preds: seq<int>, t: Setup, rest: nat) {
    && i <= |parts| && PartsOk(parts[i..], preds) && SetupOk(t) && |preds| == |t.dc|
    && v == PutParts(parts[i..], preds, t, rest) && left >= PartsBits(parts[i..], preds, t)
  }

  lemma AtStart(bytes: seq<byte>, parts: seq<Part>, preds: seq<int>, t: Setup) returns (rest: nat)
    requires HoldsParts(bytes, parts, preds, t)
    ensures AtPart(High(Unstuffed(bytes)), 8 * |Unstuffed(bytes)|, parts, 0, preds, t, rest)
  {
    hide High, Unstuffed, PutParts, PartsBits, PartsOk, SetupOk;
    assert parts[0..] == parts;
    rest :| High(Unstuffed(bytes)) == PutParts(parts, preds, t, rest);
  }

  lemma NextPart(v: nat, left: int, parts: seq<Part>, i: nat, preds: seq<int>, t: Setup, rest: nat) returns (k: Wanted)
    requires AtPart(v, left, parts, i, preds, t, rest) && i < |parts|
    ensures var c, du := parts[i].comp, parts[i].du;
      && c < |preds| == |t.ac| == |t.dcC| == |t.acC| && |du| == 64 && k.Block? && Comes(k, v, left)
      && k.du == du && k.pred == preds[c] && k.dcC == t.dcC[c] && k.acC == t.acC[c]
      && AtPart(k.rest, left - BlockBits(k.du, k.pred, k.dcT, k.acT), parts, i + 1, preds[c := du[0]], t, rest)
  {
    hide PutParts, PartsBits, PartsOk, SetupOk, PutBlock, BlockBits, DiffOk, DcTable, AcTable, IsCoefs;
    assert parts[i..][0] == parts[i] && parts[i..][1..] == parts[i + 1..];
    PartsOpen(parts[i..], preds, t);
    var c, du := parts[i].comp, parts[i].du;
    k := Block(du, preds[c], t.dc[c], t.ac[c], t.dcC[c], t.acC[c],
               PutParts(parts[i + 1..], preds[c := du[0]], t, rest));
  }

  lemma NoneYet(parts: seq<Part>, dq: seq<seq<nat>>)
    ensures DcFit(parts[..0], dq) && AllFilled([], parts, dq)
  {
  }

  lemma NoFit(parts: seq<Part>, i: nat, dq: seq<seq<nat>>)
    requires i < |parts| && parts[i].comp < |dq| && |dq[parts[i].comp]| == 64
    requires !DcAccepted(parts[i].du[0], dq[parts[i].comp][0])
    ensures !DcFit(parts, dq)
  {
  }

  lemma OneMore(blocks: seq<seq<int>>, data: seq<int>, parts: seq<Part>, i: nat, dq: seq<seq<nat>>)
    requires i == |blocks| < |parts| && parts[i].comp < |dq| && |dq[parts[i].comp]| == 64 && |data| == 64
    requires DcFit(parts[..i], dq) && AllFilled(blocks, parts, dq) && Filled(data, parts[i].du, dq[parts[i].comp], 64)
    requires DcAccepted(parts[i].du[0], dq[parts[i].comp][0])
    ensures DcFit(parts[..i + 1], dq) && AllFilled(blocks + [data], parts, dq)
  {
    hide Filled, IsCoefs;
    assert parts[..i + 1] == parts[..i] + [parts[i]];
  }

  /** The blocks of a scan, one after the other. */
  method DecodeScan(s: ByteStream, comps: seq<nat>, preds0: seq<int>, hdc: seq<JTable>, hac: seq<JTable>, fac: seq<seq<int>>,
                    dq: seq<seq<nat>>, ghost parts: seq<Part>, ghost t: Setup)
    returns (ok: bool, blocks: seq<seq<int>>)
    requires s.Valid() && ReaderTables(hdc, hac, fac, dq, t) && |preds0| == |hdc|
    requires forall i :: 0 <= i < |comps| ==> comps[i] < |hdc|
    modifies s
    ensures Known(old(s.Rest()), comps, parts, preds0, t) ==> (ok <==> DcFit(parts, dq))
    ensures Known(old(s.Rest()), comps, parts, preds0, t) && ok ==> |blocks| == |parts| && AllFilled(blocks, parts, dq)
  {
    hide HoldsParts, AtPart, Tables, FacHolds, Reader.Stream, Reader.Valid, Comes, Filled, BlockBits, High, Unstuffed, IsCoefs,
      DcFit, AllFilled, DcAccepted, DiffOk, PutBlock;
    ghost var known := Known(s.Rest(), comps, parts, preds0, t);
    ghost var rest := 0;
    if known {
      rest := AtStart(s.Rest(), parts, preds0, t);
    }
    var j := new Reader(s);
    var preds := preds0;
    blocks := [];
    NoneYet(parts, dq);
    for i := 0 to |comps|
      invariant j.Valid() && j.s == s && |preds| == |hdc| && |blocks| == i && fresh(j)
      invariant ReaderTables(hdc, hac, fac, dq, t)
      invariant known ==> AtPart(j.Stream(), j.left, parts, i, preds, t, rest) && AllFilled(blocks, parts, dq)
      invariant known ==> DcFit(parts[..i], dq)
    {
      ghost var k := Unknown;
      if known {
        k := NextPart(j.Stream(), j.left, parts, i, preds, t, rest);
      }
      var c := comps[i];
      var data := new int[64];
      assert Tables(hdc[c], t.dcC[c]) && Tables(hac[c], t.acC[c]);
      var dc;
      ok, dc := DecodeBlock(j, data, hdc[c], hac[c], fac[c], preds[c], dq[c], t.dcC[c], t.acC[c], k);
      if !ok {
        if known { NoFit(parts, i, dq); }
        return;
      }
      preds := preds[c := dc];
      blocks := blocks + [data[..]];
      if known { OneMore(blocks[..i], data[..], parts, i, dq); }
      assert blocks == blocks[..i] + [data[..]];
    }
    assert known ==> parts[..|comps|] == parts;
    ok := true;
  }

  /** Writing a scan and reading it: the same coefficients, times the quantisers, in their places. */
  method WriteThenRead(parts: seq<Part>, comps: seq<nat>, preds: seq<int>, t: Setup, hdc: seq<JTable>, hac: seq<JTable>,
                       fac: seq<seq<int>>, dq: seq<seq<nat>>)
    returns (ok: bool, blocks: seq<seq<int>>)
    requires PartsOk(parts, preds) && SetupOk(t) && |preds| == |t.dc|
    requires |comps| == |parts| && (forall i :: 0 <= i < |parts| ==> comps[i] == parts[i].comp < |preds|)
    requires ReaderTables(hdc, hac, fac, dq, t)
    ensures ok <==> DcFit(parts, dq)
    ensures ok ==> |blocks| == |parts| && AllFilled(blocks, parts, dq)
  {
    hide PartsOk, HoldsParts, DcFit, AllFilled, Tables, FacHolds;
    var out := EncodeScan([], parts, preds, t);
    assert out[0..] == out;
    var s := new ByteStream(out);
    ok, blocks := DecodeScan(s, comps, preds, hdc, hac, fac, dq, parts, t);
  }
}
