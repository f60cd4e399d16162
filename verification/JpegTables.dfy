/** The Huffman tables of `stbi_write_jpg_core` are what a scan needs: every entry is the canonical code of its
    symbol, and all symbols are there. */
module JpegTables {
  import opened Bits
  import opened JpegHuffman
  import opened JpegCoef
  import opened JpegEncode
  import opened JpegCounts
  import opened JpegTableData
  import opened JpegTableRows

  lemma AcFine(uv: bool, rs: nat)
    requires rs < 256
    ensures AcEntry(uv, rs) == (0, 0) || Fine(AcCount(uv), AcValues(uv), AcEntry(uv, rs), rs)
    ensures rs == EOB || rs == ZRL || 1 <= rs % 16 <= 10 ==> Fine(AcCount(uv), AcValues(uv), AcEntry(uv, rs), rs)
  {
    hide AcRow, AcCount, AcValues, Fine;
    YEnds();
    UvEnds();
    AllRows(uv, rs / 16);
    assert 1 <= rs % 16 <= 10 ==> RunCat(rs / 16, rs % 16) == rs;
  }

  lemma YDcFine(rs: nat)
    requires rs < 12
    ensures Fine(DcCount(false), DcValues(), Y_DC[rs], rs)
  {
    hide FirstOf, CumTo, DcCount;
    YDcLevels();
  }

  lemma UvDcFine(rs: nat)
    requires rs < 12
    ensures Fine(DcCount(true), DcValues(), UV_DC[rs], rs)
  {
    hide FirstOf, CumTo, DcCount;
    UvDcLevels();
  }

  /** Values in the reader's 256 places, the first of them from the list. */
  ghost predicate Loaded(v: seq<byte>, list: seq<byte>, n: nat) {
    |v| == 256 == |list| && n <= 256 && v[..n] == list[..n]
  }

  lemma AcCounts(uv: bool)
    ensures CumTo(AcCount(uv), 17) == 162 && FirstOf(AcCount(uv), 17) <= 131072
  {
    hide FirstOf, CumTo, AcCount, Level;
    if uv { UvAcLevels(); } else { YAcLevels(); }
  }

  lemma DcCounts(uv: bool)
    ensures CumTo(DcCount(uv), 17) == 12 && FirstOf(DcCount(uv), 17) <= 131072
  {
    hide FirstOf, CumTo, DcCount, Level;
    if uv { UvDcLevels(); } else { YDcLevels(); }
  }

  lemma StdAcOk(uv: bool, v: seq<byte>)
    requires Loaded(v, AcValues(uv), 162)
    ensures Sane(StdAc(uv)) && AcTable(StdAc(uv), Coding(Sizes(AcCount(uv)), v))
  {
    hide AcEntry, AcCount, AcValues, Fine, FirstOf, CumTo, HasSymbol, Sizes;
    var t, c := StdAc(uv), Coding(Sizes(AcCount(uv)), v);
    AcCounts(uv);
    CountsFit(AcCount(uv));
    Pow2Values();
    forall rs | 0 <= rs < 256
      ensures t[rs].1 <= 16 && t[rs].0 < Pow2(t[rs].1)
      ensures rs == EOB || rs == ZRL || 1 <= rs % 16 <= 10 ==> HasSymbol(t, c, rs)
    {
      AcFine(uv, rs);
      if Fine(AcCount(uv), AcValues(uv), t[rs], rs) {
        OtherValues(AcCount(uv), AcValues(uv), v, 162, t[rs], rs);
        FineHas(t, AcCount(uv), v, rs);
      }
    }
    forall run: nat, cat: nat | run < 16 && 1 <= cat <= MAX_AC ensures HasSymbol(t, c, RunCat(run, cat)) {
      assert RunCat(run, cat) % 16 == cat;
    }
  }

  lemma StdDcOk(uv: bool, v: seq<byte>)
    requires Loaded(v, DcValues(), 12)
    ensures Sane(StdDc(uv)) && DcTable(StdDc(uv), Coding(Sizes(DcCount(uv)), v))
  {
    hide DcCount, DcValues, Fine, FirstOf, CumTo, HasSymbol, Sizes;
    var t, c := StdDc(uv), Coding(Sizes(DcCount(uv)), v);
    DcCounts(uv);
    CountsFit(DcCount(uv));
    Pow2Values();
    forall rs | 0 <= rs < 256
      ensures t[rs].1 <= 16 && t[rs].0 < Pow2(t[rs].1)
      ensures rs < 12 ==> HasSymbol(t, c, rs)
    {
      if rs < 12 {
        if uv { UvDcFine(rs); } else { YDcFine(rs); }
        OtherValues(DcCount(uv), DcValues(), v, 12, t[rs], rs);
        FineHas(t, DcCount(uv), v, rs);
      }
    }
  }
}
