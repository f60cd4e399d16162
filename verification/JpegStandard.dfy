/** A scan in the tables that `stbi_write_jpg_core` uses: one pair for the first component, and another for the
    two behind it. */
module JpegStandard {
  import opened Bits
  import opened Canonical
  import opened JpegHuffman
  import opened JpegFastAc
  import opened JpegCoef
  import opened JpegEncode
  import opened JpegDecode
  import opened JpegScan
  import opened JpegCounts
  import opened JpegTableData
  import opened JpegTables

  /** A table of the reader, built from the counts in the file and filled with the values behind them. */
  method LoadTable(count: seq<nat>, list: seq<byte>, n: nat) returns (h: JTable)
    requires |count| == 16 && |list| == 256 && n <= 256 && |Sizes(count)| <= 256 && Canonical.Fits(Sizes(count))
    ensures fresh(h) && fresh(h.Repr()) && h.Shape() && h.Holds(Sizes(count)) && Loaded(h.values[..], list, n)
  {
    hide JTable.Holds, Sizes, Canonical.Fits;
    h := new JTable();
    var ok := h.Build(count);
    for i := 0 to n
      invariant h.Shape() && h.Holds(Sizes(count)) && h.values[..i] == list[..i] && fresh(h.Repr())
      modifies h.values
    {
      h.values[i] := list[i];
    }
  }

  /** The writer's tables of the three components, and the codings that the reader has with these values. */
  function StdSetup(dcY: seq<byte>, acY: seq<byte>, dcUv: seq<byte>, acUv: seq<byte>): Setup {
    var dy, ay := Coding(Sizes(DcCount(false)), dcY), Coding(Sizes(AcCount(false)), acY);
    var du, au := Coding(Sizes(DcCount(true)), dcUv), Coding(Sizes(AcCount(true)), acUv);
    Setup([StdDc(false), StdDc(true), StdDc(true)], [StdAc(false), StdAc(true), StdAc(true)], [dy, du, du], [ay, au, au])
  }

  lemma StdSetupOk(dcY: seq<byte>, acY: seq<byte>, dcUv: seq<byte>, acUv: seq<byte>)
    requires Loaded(dcY, DcValues(), 12) && Loaded(acY, AcValues(false), 162)
    requires Loaded(dcUv, DcValues(), 12) && Loaded(acUv, AcValues(true), 162)
    ensures SetupOk(StdSetup(dcY, acY, dcUv, acUv))
  {
    hide Sane, DcTable, AcTable, StdAc, StdDc, AcValues, DcValues, AcCount, DcCount, Sizes, Loaded;
    StdDcOk(false, dcY);
    StdAcOk(false, acY);
    StdDcOk(true, dcUv);
    StdAcOk(true, acUv);
  }

  lemma StdFits(uv: bool)
    ensures Canonical.Fits(Sizes(AcCount(uv))) && |Sizes(AcCount(uv))| == 162 && MarkIsFree(Sizes(AcCount(uv)))
    ensures Canonical.Fits(Sizes(DcCount(uv))) && |Sizes(DcCount(uv))| == 12 && MarkIsFree(Sizes(DcCount(uv)))
  {
    hide AcCount, DcCount, FirstOf, CumTo, Sizes, Canonical.Fits;
    AcCounts(uv);
    DcCounts(uv);
    CountsFit(AcCount(uv));
    CountsFit(DcCount(uv));
  }

  /** The table with the coding of its values. */
  method Prepared(uv: bool, ac: bool) returns (h: JTable, fac: seq<int>)
    ensures fresh(h) && fresh(h.Repr()) && h.Shape()
    ensures Loaded(h.values[..], if ac then AcValues(uv) else DcValues(), if ac then 162 else 12)
    ensures var c := Coding(Sizes(if ac then AcCount(uv) else DcCount(uv)), h.values[..]);
      Tables(h, c) && FacHolds(fac, h, c.lens)
  {
    hide JTable.Holds, Sizes, Canonical.Fits, AcCount, DcCount, AcValues, DcValues, FacHolds, Loaded, MarkIsFree;
    StdFits(uv);
    if ac {
      h := LoadTable(AcCount(uv), AcValues(uv), 162);
      fac := BuildFastAc(h, Sizes(AcCount(uv)));
    } else {
      h := LoadTable(DcCount(uv), DcValues(), 12);
      fac := BuildFastAc(h, Sizes(DcCount(uv)));
    }
  }

  /** Whatever the blocks and the quantisers are, what is written in these tables is read back. */
  method WriteThenRead(parts: seq<Part>, comps: seq<nat>, dq: seq<seq<nat>>)
    returns (ok: bool, blocks: seq<seq<int>>)
    requires PartsOk(parts, [0, 0, 0])
    requires |comps| == |parts| && forall i :: 0 <= i < |parts| ==> comps[i] == parts[i].comp < 3
    requires |dq| == 3 && forall c :: 0 <= c < 3 ==> |dq[c]| == 64 && dq[c][0] <= 65535
    ensures ok <==> DcFit(parts, dq)
    ensures ok ==> |blocks| == |parts| && AllFilled(blocks, parts, dq)
  {
    hide JTable.Holds, Sizes, AcCount, DcCount, AcValues, DcValues, FacHolds, Loaded, Tables, StdAc, StdDc, PartsOk, DcFit,
      AllFilled, SetupOk;
    var dcY, none := Prepared(false, false);
    var acY, facY := Prepared(false, true);
    var dcUv, none' := Prepared(true, false);
    var acUv, facUv := Prepared(true, true);
    var t := StdSetup(dcY.values[..], acY.values[..], dcUv.values[..], acUv.values[..]);
    StdSetupOk(dcY.values[..], acY.values[..], dcUv.values[..], acUv.values[..]);
    ok, blocks := StandardRead(parts, comps, dq, dcY, acY, facY, dcUv, acUv, facUv, t);
  }

  method StandardRead(parts: seq<Part>, comps: seq<nat>, dq: seq<seq<nat>>, dcY: JTable, acY: JTable, facY: seq<int>,
                      dcUv: JTable, acUv: JTable, facUv: seq<int>, t: Setup)
    returns (ok: bool, blocks: seq<seq<int>>)
    requires PartsOk(parts, [0, 0, 0]) && SetupOk(t)
    requires |comps| == |parts| && forall i :: 0 <= i < |parts| ==> comps[i] == parts[i].comp < 3
    requires |dq| == 3 && forall c :: 0 <= c < 3 ==> |dq[c]| == 64 && dq[c][0] <= 65535
    requires dcY.Shape() && acY.Shape() && dcUv.Shape() && acUv.Shape()
    requires t == StdSetup(dcY.values[..], acY.values[..], dcUv.values[..], acUv.values[..])
    requires Tables(dcY, t.dcC[0]) && Tables(acY, t.acC[0]) && FacHolds(facY, acY, t.acC[0].lens)
    requires Tables(dcUv, t.dcC[1]) && Tables(acUv, t.acC[1]) && FacHolds(facUv, acUv, t.acC[1].lens)
    ensures ok <==> DcFit(parts, dq)
    ensures ok ==> |blocks| == |parts| && AllFilled(blocks, parts, dq)
  {
    hide JTable.Holds, Sizes, AcCount, DcCount, FacHolds, Tables, StdAc, StdDc, PartsOk, DcFit, AllFilled, SetupOk;
    ok, blocks := JpegScan.WriteThenRead(parts, comps, [0, 0, 0], t, [dcY, dcUv, dcUv], [acY, acUv, acUv],
                                         [facY, facUv, facUv], dq);
  }
}
