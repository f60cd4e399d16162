/** The rows of the code tables one by one: each entry is the canonical code of its symbol.  Every call names an
    entry, its symbol, where that is among the values, and the level of its code. */
module JpegTableRows {
  import opened Bits
  import opened JpegCoef
  import opened JpegCounts
  import opened JpegTableData

  /** The first code of length `l`, how many codes are shorter, and how many no longer. */
  predicate Level(count: seq<nat>, l: nat, first: nat, cum: nat, next: nat) {
    |count| == 16 && 1 <= l <= 16 && FirstOf(count, l) == first && CumTo(count, l) == cum && CumTo(count, l + 1) == next
  }

  lemma YDcLevels()
    ensures Level(DcCount(false), 2, 0, 0, 1)
    ensures Level(DcCount(false), 3, 2, 1, 6)
    ensures Level(DcCount(false), 4, 14, 6, 7)
    ensures Level(DcCount(false), 5, 30, 7, 8)
    ensures Level(DcCount(false), 6, 62, 8, 9)
    ensures Level(DcCount(false), 7, 126, 9, 10)
    ensures Level(DcCount(false), 8, 254, 10, 11)
    ensures Level(DcCount(false), 9, 510, 11, 12)
    ensures FirstOf(DcCount(false), 17) == 130816 && CumTo(DcCount(false), 17) == 12
  {
    var c := DcCount(false);
    assert FirstOf(c, 1) == 0 && CumTo(c, 1) == 0;
    assert FirstOf(c, 2) == 0 && CumTo(c, 2) == 0;
    assert FirstOf(c, 3) == 2 && CumTo(c, 3) == 1;
    assert FirstOf(c, 4) == 14 && CumTo(c, 4) == 6;
    assert FirstOf(c, 5) == 30 && CumTo(c, 5) == 7;
    assert FirstOf(c, 6) == 62 && CumTo(c, 6) == 8;
    assert FirstOf(c, 7) == 126 && CumTo(c, 7) == 9;
    assert FirstOf(c, 8) == 254 && CumTo(c, 8) == 10;
    assert FirstOf(c, 9) == 510 && CumTo(c, 9) == 11;
    assert FirstOf(c, 10) == 1022 && CumTo(c, 10) == 12;
    assert FirstOf(c, 11) == 2044 && CumTo(c, 11) == 12;
    assert FirstOf(c, 12) == 4088 && CumTo(c, 12) == 12;
    assert FirstOf(c, 13) == 8176 && CumTo(c, 13) == 12;
    assert FirstOf(c, 14) == 16352 && CumTo(c, 14) == 12;
    assert FirstOf(c, 15) == 32704 && CumTo(c, 15) == 12;
    assert FirstOf(c, 16) == 65408 && CumTo(c, 16) == 12;
  }

  lemma YAcLevels()
    ensures Level(AcCount(false), 2, 0, 0, 2)
    ensures Level(AcCount(false), 3, 4, 2, 3)
    ensures Level(AcCount(false), 4, 10, 3, 6)
    ensures Level(AcCount(false), 5, 26, 6, 9)
    ensures Level(AcCount(false), 6, 58, 9, 11)
    ensures Level(AcCount(false), 7, 120, 11, 15)
    ensures Level(AcCount(false), 8, 248, 15, 18)
    ensures Level(AcCount(false), 9, 502, 18, 23)
    ensures Level(AcCount(false), 10, 1014, 23, 28)
    ensures Level(AcCount(false), 11, 2038, 28, 32)
    ensures Level(AcCount(false), 12, 4084, 32, 36)
    ensures Level(AcCount(false), 15, 32704, 36, 37)
    ensures Level(AcCount(false), 16, 65410, 37, 162)
    ensures FirstOf(AcCount(false), 17) == 131070 && CumTo(AcCount(false), 17) == 162
  {
    var c := AcCount(false);
    assert FirstOf(c, 1) == 0 && CumTo(c, 1) == 0;
    assert FirstOf(c, 2) == 0 && CumTo(c, 2) == 0;
    assert FirstOf(c, 3) == 4 && CumTo(c, 3) == 2;
    assert FirstOf(c, 4) == 10 && CumTo(c, 4) == 3;
    assert FirstOf(c, 5) == 26 && CumTo(c, 5) == 6;
    assert FirstOf(c, 6) == 58 && CumTo(c, 6) == 9;
    assert FirstOf(c, 7) == 120 && CumTo(c, 7) == 11;
    assert FirstOf(c, 8) == 248 && CumTo(c, 8) == 15;
    assert FirstOf(c, 9) == 502 && CumTo(c, 9) == 18;
    assert FirstOf(c, 10) == 1014 && CumTo(c, 10) == 23;
    assert FirstOf(c, 11) == 2038 && CumTo(c, 11) == 28;
    assert FirstOf(c, 12) == 4084 && CumTo(c, 12) == 32;
    assert FirstOf(c, 13) == 8176 && CumTo(c, 13) == 36;
    assert FirstOf(c, 14) == 16352 && CumTo(c, 14) == 36;
    assert FirstOf(c, 15) == 32704 && CumTo(c, 15) == 36;
    assert FirstOf(c, 16) == 65410 && CumTo(c, 16) == 37;
  }

  lemma UvDcLevels()
    ensures Level(DcCount(true), 2, 0, 0, 3)
    ensures Level(DcCount(true), 3, 6, 3, 4)
    ensures Level(DcCount(true), 4, 14, 4, 5)
    ensures Level(DcCount(true), 5, 30, 5, 6)
    ensures Level(DcCount(true), 6, 62, 6, 7)
    ensures Level(DcCount(true), 7, 126, 7, 8)
    ensures Level(DcCount(true), 8, 254, 8, 9)
    ensures Level(DcCount(true), 9, 510, 9, 10)
    ensures Level(DcCount(true), 10, 1022, 10, 11)
    ensures Level(DcCount(true), 11, 2046, 11, 12)
    ensures FirstOf(DcCount(true), 17) == 131008 && CumTo(DcCount(true), 17) == 12
  {
    var c := DcCount(true);
    assert FirstOf(c, 1) == 0 && CumTo(c, 1) == 0;
    assert FirstOf(c, 2) == 0 && CumTo(c, 2) == 0;
    assert FirstOf(c, 3) == 6 && CumTo(c, 3) == 3;
    assert FirstOf(c, 4) == 14 && CumTo(c, 4) == 4;
    assert FirstOf(c, 5) == 30 && CumTo(c, 5) == 5;
    assert FirstOf(c, 6) == 62 && CumTo(c, 6) == 6;
    assert FirstOf(c, 7) == 126 && CumTo(c, 7) == 7;
    assert FirstOf(c, 8) == 254 && CumTo(c, 8) == 8;
    assert FirstOf(c, 9) == 510 && CumTo(c, 9) == 9;
    assert FirstOf(c, 10) == 1022 && CumTo(c, 10) == 10;
    assert FirstOf(c, 11) == 2046 && CumTo(c, 11) == 11;
    assert FirstOf(c, 12) == 4094 && CumTo(c, 12) == 12;
    assert FirstOf(c, 13) == 8188 && CumTo(c, 13) == 12;
    assert FirstOf(c, 14) == 16376 && CumTo(c, 14) == 12;
    assert FirstOf(c, 15) == 32752 && CumTo(c, 15) == 12;
    assert FirstOf(c, 16) == 65504 && CumTo(c, 16) == 12;
  }

  lemma UvAcLevels()
    ensures Level(AcCount(true), 2, 0, 0, 2)
    ensures Level(AcCount(true), 3, 4, 2, 3)
    ensures Level(AcCount(true), 4, 10, 3, 5)
    ensures Level(AcCount(true), 5, 24, 5, 9)
    ensures Level(AcCount(true), 6, 56, 9, 13)
    ensures Level(AcCount(true), 7, 120, 13, 16)
    ensures Level(AcCount(true), 8, 246, 16, 20)
    ensures Level(AcCount(true), 9, 500, 20, 27)
    ensures Level(AcCount(true), 10, 1014, 27, 32)
    ensures Level(AcCount(true), 11, 2038, 32, 36)
    ensures Level(AcCount(true), 12, 4084, 36, 40)
    ensures Level(AcCount(true), 14, 16352, 40, 41)
    ensures Level(AcCount(true), 15, 32706, 41, 43)
    ensures Level(AcCount(true), 16, 65416, 43, 162)
    ensures FirstOf(AcCount(true), 17) == 131070 && CumTo(AcCount(true), 17) == 162
  {
    var c := AcCount(true);
    assert FirstOf(c, 1) == 0 && CumTo(c, 1) == 0;
    assert FirstOf(c, 2) == 0 && CumTo(c, 2) == 0;
    assert FirstOf(c, 3) == 4 && CumTo(c, 3) == 2;
    assert FirstOf(c, 4) == 10 && CumTo(c, 4) == 3;
    assert FirstOf(c, 5) == 24 && CumTo(c, 5) == 5;
    assert FirstOf(c, 6) == 56 && CumTo(c, 6) == 9;
    assert FirstOf(c, 7) == 120 && CumTo(c, 7) == 13;
    assert FirstOf(c, 8) == 246 && CumTo(c, 8) == 16;
    assert FirstOf(c, 9) == 500 && CumTo(c, 9) == 20;
    assert FirstOf(c, 10) == 1014 && CumTo(c, 10) == 27;
    assert FirstOf(c, 11) == 2038 && CumTo(c, 11) == 32;
    assert FirstOf(c, 12) == 4084 && CumTo(c, 12) == 36;
    assert FirstOf(c, 13) == 8176 && CumTo(c, 13) == 40;
    assert FirstOf(c, 14) == 16352 && CumTo(c, 14) == 40;
    assert FirstOf(c, 15) == 32706 && CumTo(c, 15) == 41;
    assert FirstOf(c, 16) == 65416 && CumTo(c, 16) == 43;
  }

  /** Symbol `rs` is at place `j` of line `k` of the values, and in all, and `e` is its code. */
  lemma Sym(uv: bool, e: (nat, nat), rs: nat, k: nat, line: seq<byte>, j: nat,
            code: nat, l: nat, i: nat, first: nat, cum: nat, next: nat)
    requires k < 7 && j < 24 && j < |line| && line[j] == rs && line == AcLine(uv, k)
    requires e == (code, l) && Level(AcCount(uv), l, first, cum, next)
    requires cum <= i < next <= 162 && i == 24 * k + j && code + cum == i + first
    ensures Fine(AcCount(uv), AcValues(uv), e, rs)
  {
    hide FirstOf, CumTo, AcLine;
    assert i / 24 == k && i % 24 == j;
  }

  predicate RowFine(uv: bool, row: seq<(nat, nat)>, run: nat) {
    |row| == 10 && forall cat :: 1 <= cat <= 10 ==> Fine(AcCount(uv), AcValues(uv), row[cat - 1], RunCat(run, cat))
  }

  lemma Ten(uv: bool, row: seq<(nat, nat)>, run: nat)
    requires |row| == 10
    requires Fine(AcCount(uv), AcValues(uv), row[0], 16 * run + 1)
    requires Fine(AcCount(uv), AcValues(uv), row[1], 16 * run + 2)
    requires Fine(AcCount(uv), AcValues(uv), row[2], 16 * run + 3)
    requires Fine(AcCount(uv), AcValues(uv), row[3], 16 * run + 4)
    requires Fine(AcCount(uv), AcValues(uv), row[4], 16 * run + 5)
    requires Fine(AcCount(uv), AcValues(uv), row[5], 16 * run + 6)
    requires Fine(AcCount(uv), AcValues(uv), row[6], 16 * run + 7)
    requires Fine(AcCount(uv), AcValues(uv), row[7], 16 * run + 8)
    requires Fine(AcCount(uv), AcValues(uv), row[8], 16 * run + 9)
    requires Fine(AcCount(uv), AcValues(uv), row[9], 16 * run + 10)
    ensures RowFine(uv, row, run)
  {
    hide Fine, AcCount, AcValues;
  }

  lemma YRows0()
    ensures RowFine(false, Y_AC_0, 0)
  {
    hide Level, Fine, RowFine, AcValues, AcCount;
    YAcLevels();
    Sym(false, Y_AC_0[0], 0x01, 0, Y_VALUES_0, 0, 0, 2, 0, 0, 0, 2);
    Sym(false, Y_AC_0[1], 0x02, 0, Y_VALUES_0, 1, 1, 2, 1, 0, 0, 2);
    Sym(false, Y_AC_0[2], 0x03, 0, Y_VALUES_0, 2, 4, 3, 2, 4, 2, 3);
    Sym(false, Y_AC_0[3], 0x04, 0, Y_VALUES_0, 4, 11, 4, 4, 10, 3, 6);
    Sym(false, Y_AC_0[4], 0x05, 0, Y_VALUES_0, 6, 26, 5, 6, 26, 6, 9);
    Sym(false, Y_AC_0[5], 0x06, 0, Y_VALUES_0, 11, 120, 7, 11, 120, 11, 15);
    Sym(false, Y_AC_0[6], 0x07, 0, Y_VALUES_0, 15, 248, 8, 15, 248, 15, 18);
    Sym(false, Y_AC_0[7], 0x08, 0, Y_VALUES_0, 23, 1014, 10, 23, 1014, 23, 28);
    Sym(false, Y_AC_0[8], 0x09, 1, Y_VALUES_1, 13, 65410, 16, 37, 65410, 37, 162);
    Sym(false, Y_AC_0[9], 0x0a, 1, Y_VALUES_1, 14, 65411, 16, 38, 65410, 37, 162);
    Ten(false, Y_AC_0, 0);
  }

  lemma YRows1()
    ensures RowFine(false, Y_AC_1, 1)
  {
    hide Level, Fine, RowFine, AcValues, AcCount;
    YAcLevels();
    Sym(false, Y_AC_1[0], 0x11, 0, Y_VALUES_0, 5, 12, 4, 5, 10, 3, 6);
    Sym(false, Y_AC_1[1], 0x12, 0, Y_VALUES_0, 7, 27, 5, 7, 26, 6, 9);
    Sym(false, Y_AC_1[2], 0x13, 0, Y_VALUES_0, 12, 121, 7, 12, 120, 11, 15);
    Sym(false, Y_AC_1[3], 0x14, 0, Y_VALUES_0, 18, 502, 9, 18, 502, 18, 23);
    Sym(false, Y_AC_1[4], 0x15, 1, Y_VALUES_1, 4, 2038, 11, 28, 2038, 28, 32);
    Sym(false, Y_AC_1[5], 0x16, 1, Y_VALUES_1, 15, 65412, 16, 39, 65410, 37, 162);
    Sym(false, Y_AC_1[6], 0x17, 1, Y_VALUES_1, 16, 65413, 16, 40, 65410, 37, 162);
    Sym(false, Y_AC_1[7], 0x18, 1, Y_VALUES_1, 17, 65414, 16, 41, 65410, 37, 162);
    Sym(false, Y_AC_1[8], 0x19, 1, Y_VALUES_1, 18, 65415, 16, 42, 65410, 37, 162);
    Sym(false, Y_AC_1[9], 0x1a, 1, Y_VALUES_1, 19, 65416, 16, 43, 65410, 37, 162);
    Ten(false, Y_AC_1, 1);
  }

  lemma YRows2()
    ensures RowFine(false, Y_AC_2, 2)
  {
    hide Level, Fine, RowFine, AcValues, AcCount;
    YAcLevels();
    Sym(false, Y_AC_2[0], 0x21, 0, Y_VALUES_0, 8, 28, 5, 8, 26, 6, 9);
    Sym(false, Y_AC_2[1], 0x22, 0, Y_VALUES_0, 16, 249, 8, 16, 248, 15, 18);
    Sym(false, Y_AC_2[2], 0x23, 1, Y_VALUES_1, 0, 1015, 10, 24, 1014, 23, 28);
    Sym(false, Y_AC_2[3], 0x24, 1, Y_VALUES_1, 8, 4084, 12, 32, 4084, 32, 36);
    Sym(false, Y_AC_2[4], 0x25, 1, Y_VALUES_1, 20, 65417, 16, 44, 65410, 37, 162);
    Sym(false, Y_AC_2[5], 0x26, 1, Y_VALUES_1, 21, 65418, 16, 45, 65410, 37, 162);
    Sym(false, Y_AC_2[6], 0x27, 1, Y_VALUES_1, 22, 65419, 16, 46, 65410, 37, 162);
    Sym(false, Y_AC_2[7], 0x28, 1, Y_VALUES_1, 23, 65420, 16, 47, 65410, 37, 162);
    Sym(false, Y_AC_2[8], 0x29, 2, Y_VALUES_2, 0, 65421, 16, 48, 65410, 37, 162);
    Sym(false, Y_AC_2[9], 0x2a, 2, Y_VALUES_2, 1, 65422, 16, 49, 65410, 37, 162);
    Ten(false, Y_AC_2, 2);
  }

  lemma YRows3()
    ensures RowFine(false, Y_AC_3, 3)
  {
    hide Level, Fine, RowFine, AcValues, AcCount;
    YAcLevels();
    Sym(false, Y_AC_3[0], 0x31, 0, Y_VALUES_0, 9, 58, 6, 9, 58, 9, 11);
    Sym(false, Y_AC_3[1], 0x32, 0, Y_VALUES_0, 19, 503, 9, 19, 502, 18, 23);
    Sym(false, Y_AC_3[2], 0x33, 1, Y_VALUES_1, 9, 4085, 12, 33, 4084, 32, 36);
    Sym(false, Y_AC_3[3], 0x34, 2, Y_VALUES_2, 2, 65423, 16, 50, 65410, 37, 162);
    Sym(false, Y_AC_3[4], 0x35, 2, Y_VALUES_2, 3, 65424, 16, 51, 65410, 37, 162);
    Sym(false, Y_AC_3[5], 0x36, 2, Y_VALUES_2, 4, 65425, 16, 52, 65410, 37, 162);
    Sym(false, Y_AC_3[6], 0x37, 2, Y_VALUES_2, 5, 65426, 16, 53, 65410, 37, 162);
    Sym(false, Y_AC_3[7], 0x38, 2, Y_VALUES_2, 6, 65427, 16, 54, 65410, 37, 162);
    Sym(false, Y_AC_3[8], 0x39, 2, Y_VALUES_2, 7, 65428, 16, 55, 65410, 37, 162);
    Sym(false, Y_AC_3[9], 0x3a, 2, Y_VALUES_2, 8, 65429, 16, 56, 65410, 37, 162);
    Ten(false, Y_AC_3, 3);
  }

  lemma YRows4()
    ensures RowFine(false, Y_AC_4, 4)
  {
    hide Level, Fine, RowFine, AcValues, AcCount;
    YAcLevels();
    Sym(false, Y_AC_4[0], 0x41, 0, Y_VALUES_0, 10, 59, 6, 10, 58, 9, 11);
    Sym(false, Y_AC_4[1], 0x42, 1, Y_VALUES_1, 1, 1016, 10, 25, 1014, 23, 28);
    Sym(false, Y_AC_4[2], 0x43, 2, Y_VALUES_2, 9, 65430, 16, 57, 65410, 37, 162);
    Sym(false, Y_AC_4[3], 0x44, 2, Y_VALUES_2, 10, 65431, 16, 58, 65410, 37, 162);
    Sym(false, Y_AC_4[4], 0x45, 2, Y_VALUES_2, 11, 65432, 16, 59, 65410, 37, 162);
    Sym(false, Y_AC_4[5], 0x46, 2, Y_VALUES_2, 12, 65433, 16, 60, 65410, 37, 162);
    Sym(false, Y_AC_4[6], 0x47, 2, Y_VALUES_2, 13, 65434, 16, 61, 65410, 37, 162);
    Sym(false, Y_AC_4[7], 0x48, 2, Y_VALUES_2, 14, 65435, 16, 62, 65410, 37, 162);
    Sym(false, Y_AC_4[8], 0x49, 2, Y_VALUES_2, 15, 65436, 16, 63, 65410, 37, 162);
    Sym(false, Y_AC_4[9], 0x4a, 2, Y_VALUES_2, 16, 65437, 16, 64, 65410, 37, 162);
    Ten(false, Y_AC_4, 4);
  }

  lemma YRows5()
    ensures RowFine(false, Y_AC_5, 5)
  {
    hide Level, Fine, RowFine, AcValues, AcCount;
    YAcLevels();
    Sym(false, Y_AC_5[0], 0x51, 0, Y_VALUES_0, 13, 122, 7, 13, 120, 11, 15);
    Sym(false, Y_AC_5[1], 0x52, 1, Y_VALUES_1, 5, 2039, 11, 29, 2038, 28, 32);
    Sym(false, Y_AC_5[2], 0x53, 2, Y_VALUES_2, 17, 65438, 16, 65, 65410, 37, 162);
    Sym(false, Y_AC_5[3], 0x54, 2, Y_VALUES_2, 18, 65439, 16, 66, 65410, 37, 162);
    Sym(false, Y_AC_5[4], 0x55, 2, Y_VALUES_2, 19, 65440, 16, 67, 65410, 37, 162);
    Sym(false, Y_AC_5[5], 0x56, 2, Y_VALUES_2, 20, 65441, 16, 68, 65410, 37, 162);
    Sym(false, Y_AC_5[6], 0x57, 2, Y_VALUES_2, 21, 65442, 16, 69, 65410, 37, 162);
    Sym(false, Y_AC_5[7], 0x58, 2, Y_VALUES_2, 22, 65443, 16, 70, 65410, 37, 162);
    Sym(false, Y_AC_5[8], 0x59, 2, Y_VALUES_2, 23, 65444, 16, 71, 65410, 37, 162);
    Sym(false, Y_AC_5[9], 0x5a, 3, Y_VALUES_3, 0, 65445, 16, 72, 65410, 37, 162);
    Ten(false, Y_AC_5, 5);
  }

  lemma YRows6()
    ensures RowFine(false, Y_AC_6, 6)
  {
    hide Level, Fine, RowFine, AcValues, AcCount;
    YAcLevels();
    Sym(false, Y_AC_6[0], 0x61, 0, Y_VALUES_0, 14, 123, 7, 14, 120, 11, 15);
    Sym(false, Y_AC_6[1], 0x62, 1, Y_VALUES_1, 10, 4086, 12, 34, 4084, 32, 36);
    Sym(false, Y_AC_6[2], 0x63, 3, Y_VALUES_3, 1, 65446, 16, 73, 65410, 37, 162);
    Sym(false, Y_AC_6[3], 0x64, 3, Y_VALUES_3, 2, 65447, 16, 74, 65410, 37, 162);
    Sym(false, Y_AC_6[4], 0x65, 3, Y_VALUES_3, 3, 65448, 16, 75, 65410, 37, 162);
    Sym(false, Y_AC_6[5], 0x66, 3, Y_VALUES_3, 4, 65449, 16, 76, 65410, 37, 162);
    Sym(false, Y_AC_6[6], 0x67, 3, Y_VALUES_3, 5, 65450, 16, 77, 65410, 37, 162);
    Sym(false, Y_AC_6[7], 0x68, 3, Y_VALUES_3, 6, 65451, 16, 78, 65410, 37, 162);
    Sym(false, Y_AC_6[8], 0x69, 3, Y_VALUES_3, 7, 65452, 16, 79, 65410, 37, 162);
    Sym(false, Y_AC_6[9], 0x6a, 3, Y_VALUES_3, 8, 65453, 16, 80, 65410, 37, 162);
    Ten(false, Y_AC_6, 6);
  }

  lemma YRows7()
    ensures RowFine(false, Y_AC_7, 7)
  {
    hide Level, Fine, RowFine, AcValues, AcCount;
    YAcLevels();
    Sym(false, Y_AC_7[0], 0x71, 0, Y_VALUES_0, 17, 250, 8, 17, 248, 15, 18);
    Sym(false, Y_AC_7[1], 0x72, 1, Y_VALUES_1, 11, 4087, 12, 35, 4084, 32, 36);
    Sym(false, Y_AC_7[2], 0x73, 3, Y_VALUES_3, 9, 65454, 16, 81, 65410, 37, 162);
    Sym(false, Y_AC_7[3], 0x74, 3, Y_VALUES_3, 10, 65455, 16, 82, 65410, 37, 162);
    Sym(false, Y_AC_7[4], 0x75, 3, Y_VALUES_3, 11, 65456, 16, 83, 65410, 37, 162);
    Sym(false, Y_AC_7[5], 0x76, 3, Y_VALUES_3, 12, 65457, 16, 84, 65410, 37, 162);
    Sym(false, Y_AC_7[6], 0x77, 3, Y_VALUES_3, 13, 65458, 16, 85, 65410, 37, 162);
    Sym(false, Y_AC_7[7], 0x78, 3, Y_VALUES_3, 14, 65459, 16, 86, 65410, 37, 162);
    Sym(false, Y_AC_7[8], 0x79, 3, Y_VALUES_3, 15, 65460, 16, 87, 65410, 37, 162);
    Sym(false, Y_AC_7[9], 0x7a, 3, Y_VALUES_3, 16, 65461, 16, 88, 65410, 37, 162);
    Ten(false, Y_AC_7, 7);
  }

  lemma YRows8()
    ensures RowFine(false, Y_AC_8, 8)
  {
    hide Level, Fine, RowFine, AcValues, AcCount;
    YAcLevels();
    Sym(false, Y_AC_8[0], 0x81, 0, Y_VALUES_0, 20, 504, 9, 20, 502, 18, 23);
    Sym(false, Y_AC_8[1], 0x82, 1, Y_VALUES_1, 12, 32704, 15, 36, 32704, 36, 37);
    Sym(false, Y_AC_8[2], 0x83, 3, Y_VALUES_3, 17, 65462, 16, 89, 65410, 37, 162);
    Sym(false, Y_AC_8[3], 0x84, 3, Y_VALUES_3, 18, 65463, 16, 90, 65410, 37, 162);
    Sym(false, Y_AC_8[4], 0x85, 3, Y_VALUES_3, 19, 65464, 16, 91, 65410, 37, 162);
    Sym(false, Y_AC_8[5], 0x86, 3, Y_VALUES_3, 20, 65465, 16, 92, 65410, 37, 162);
    Sym(false, Y_AC_8[6], 0x87, 3, Y_VALUES_3, 21, 65466, 16, 93, 65410, 37, 162);
    Sym(false, Y_AC_8[7], 0x88, 3, Y_VALUES_3, 22, 65467, 16, 94, 65410, 37, 162);
    Sym(false, Y_AC_8[8], 0x89, 3, Y_VALUES_3, 23, 65468, 16, 95, 65410, 37, 162);
    Sym(false, Y_AC_8[9], 0x8a, 4, Y_VALUES_4, 0, 65469, 16, 96, 65410, 37, 162);
    Ten(false, Y_AC_8, 8);
  }

  lemma YRows9()
    ensures RowFine(false, Y_AC_9, 9)
  {
    hide Level, Fine, RowFine, AcValues, AcCount;
    YAcLevels();
    Sym(false, Y_AC_9[0], 0x91, 0, Y_VALUES_0, 21, 505, 9, 21, 502, 18, 23);
    Sym(false, Y_AC_9[1], 0x92, 4, Y_VALUES_4, 1, 65470, 16, 97, 65410, 37, 162);
    Sym(false, Y_AC_9[2], 0x93, 4, Y_VALUES_4, 2, 65471, 16, 98, 65410, 37, 162);
    Sym(false, Y_AC_9[3], 0x94, 4, Y_VALUES_4, 3, 65472, 16, 99, 65410, 37, 162);
    Sym(false, Y_AC_9[4], 0x95, 4, Y_VALUES_4, 4, 65473, 16, 100, 65410, 37, 162);
    Sym(false, Y_AC_9[5], 0x96, 4, Y_VALUES_4, 5, 65474, 16, 101, 65410, 37, 162);
    Sym(false, Y_AC_9[6], 0x97, 4, Y_VALUES_4, 6, 65475, 16, 102, 65410, 37, 162);
    Sym(false, Y_AC_9[7], 0x98, 4, Y_VALUES_4, 7, 65476, 16, 103, 65410, 37, 162);
    Sym(false, Y_AC_9[8], 0x99, 4, Y_VALUES_4, 8, 65477, 16, 104, 65410, 37, 162);
    Sym(false, Y_AC_9[9], 0x9a, 4, Y_VALUES_4, 9, 65478, 16, 105, 65410, 37, 162);
    Ten(false, Y_AC_9, 9);
  }

  lemma YRows10()
    ensures RowFine(false, Y_AC_10, 10)
  {
    hide Level, Fine, RowFine, AcValues, AcCount;
    YAcLevels();
    Sym(false, Y_AC_10[0], 0xa1, 0, Y_VALUES_0, 22, 506, 9, 22, 502, 18, 23);
    Sym(false, Y_AC_10[1], 0xa2, 4, Y_VALUES_4, 10, 65479, 16, 106, 65410, 37, 162);
    Sym(false, Y_AC_10[2], 0xa3, 4, Y_VALUES_4, 11, 65480, 16, 107, 65410, 37, 162);
    Sym(false, Y_AC_10[3], 0xa4, 4, Y_VALUES_4, 12, 65481, 16, 108, 65410, 37, 162);
    Sym(false, Y_AC_10[4], 0xa5, 4, Y_VALUES_4, 13, 65482, 16, 109, 65410, 37, 162);
    Sym(false, Y_AC_10[5], 0xa6, 4, Y_VALUES_4, 14, 65483, 16, 110, 65410, 37, 162);
    Sym(false, Y_AC_10[6], 0xa7, 4, Y_VALUES_4, 15, 65484, 16, 111, 65410, 37, 162);
    Sym(false, Y_AC_10[7], 0xa8, 4, Y_VALUES_4, 16, 65485, 16, 112, 65410, 37, 162);
    Sym(false, Y_AC_10[8], 0xa9, 4, Y_VALUES_4, 17, 65486, 16, 113, 65410, 37, 162);
    Sym(false, Y_AC_10[9], 0xaa, 4, Y_VALUES_4, 18, 65487, 16, 114, 65410, 37, 162);
    Ten(false, Y_AC_10, 10);
  }

  lemma YRows11()
    ensures RowFine(false, Y_AC_11, 11)
  {
    hide Level, Fine, RowFine, AcValues, AcCount;
    YAcLevels();
    Sym(false, Y_AC_11[0], 0xb1, 1, Y_VALUES_1, 2, 1017, 10, 26, 1014, 23, 28);
    Sym(false, Y_AC_11[1], 0xb2, 4, Y_VALUES_4, 19, 65488, 16, 115, 65410, 37, 162);
    Sym(false, Y_AC_11[2], 0xb3, 4, Y_VALUES_4, 20, 65489, 16, 116, 65410, 37, 162);
    Sym(false, Y_AC_11[3], 0xb4, 4, Y_VALUES_4, 21, 65490, 16, 117, 65410, 37, 162);
    Sym(false, Y_AC_11[4], 0xb5, 4, Y_VALUES_4, 22, 65491, 16, 118, 65410, 37, 162);
    Sym(false, Y_AC_11[5], 0xb6, 4, Y_VALUES_4, 23, 65492, 16, 119, 65410, 37, 162);
    Sym(false, Y_AC_11[6], 0xb7, 5, Y_VALUES_5, 0, 65493, 16, 120, 65410, 37, 162);
    Sym(false, Y_AC_11[7], 0xb8, 5, Y_VALUES_5, 1, 65494, 16, 121, 65410, 37, 162);
    Sym(false, Y_AC_11[8], 0xb9, 5, Y_VALUES_5, 2, 65495, 16, 122, 65410, 37, 162);
    Sym(false, Y_AC_11[9], 0xba, 5, Y_VALUES_5, 3, 65496, 16, 123, 65410, 37, 162);
    Ten(false, Y_AC_11, 11);
  }

  lemma YRows12()
    ensures RowFine(false, Y_AC_12, 12)
  {
    hide Level, Fine, RowFine, AcValues, AcCount;
    YAcLevels();
    Sym(false, Y_AC_12[0], 0xc1, 1, Y_VALUES_1, 3, 1018, 10, 27, 1014, 23, 28);
    Sym(false, Y_AC_12[1], 0xc2, 5, Y_VALUES_5, 4, 65497, 16, 124, 65410, 37, 162);
    Sym(false, Y_AC_12[2], 0xc3, 5, Y_VALUES_5, 5, 65498, 16, 125, 65410, 37, 162);
    Sym(false, Y_AC_12[3], 0xc4, 5, Y_VALUES_5, 6, 65499, 16, 126, 65410, 37, 162);
    Sym(false, Y_AC_12[4], 0xc5, 5, Y_VALUES_5, 7, 65500, 16, 127, 65410, 37, 162);
    Sym(false, Y_AC_12[5], 0xc6, 5, Y_VALUES_5, 8, 65501, 16, 128, 65410, 37, 162);
    Sym(false, Y_AC_12[6], 0xc7, 5, Y_VALUES_5, 9, 65502, 16, 129, 65410, 37, 162);
    Sym(false, Y_AC_12[7], 0xc8, 5, Y_VALUES_5, 10, 65503, 16, 130, 65410, 37, 162);
    Sym(false, Y_AC_12[8], 0xc9, 5, Y_VALUES_5, 11, 65504, 16, 131, 65410, 37, 162);
    Sym(false, Y_AC_12[9], 0xca, 5, Y_VALUES_5, 12, 65505, 16, 132, 65410, 37, 162);
    Ten(false, Y_AC_12, 12);
  }

  lemma YRows13()
    ensures RowFine(false, Y_AC_13, 13)
  {
    hide Level, Fine, RowFine, AcValues, AcCount;
    YAcLevels();
    Sym(false, Y_AC_13[0], 0xd1, 1, Y_VALUES_1, 6, 2040, 11, 30, 2038, 28, 32);
    Sym(false, Y_AC_13[1], 0xd2, 5, Y_VALUES_5, 13, 65506, 16, 133, 65410, 37, 162);
    Sym(false, Y_AC_13[2], 0xd3, 5, Y_VALUES_5, 14, 65507, 16, 134, 65410, 37, 162);
    Sym(false, Y_AC_13[3], 0xd4, 5, Y_VALUES_5, 15, 65508, 16, 135, 65410, 37, 162);
    Sym(false, Y_AC_13[4], 0xd5, 5, Y_VALUES_5, 16, 65509, 16, 136, 65410, 37, 162);
    Sym(false, Y_AC_13[5], 0xd6, 5, Y_VALUES_5, 17, 65510, 16, 137, 65410, 37, 162);
    Sym(false, Y_AC_13[6], 0xd7, 5, Y_VALUES_5, 18, 65511, 16, 138, 65410, 37, 162);
    Sym(false, Y_AC_13[7], 0xd8, 5, Y_VALUES_5, 19, 65512, 16, 139, 65410, 37, 162);
    Sym(false, Y_AC_13[8], 0xd9, 5, Y_VALUES_5, 20, 65513, 16, 140, 65410, 37, 162);
    Sym(false, Y_AC_13[9], 0xda, 5, Y_VALUES_5, 21, 65514, 16, 141, 65410, 37, 162);
    Ten(false, Y_AC_13, 13);
  }

  lemma YRows14()
    ensures RowFine(false, Y_AC_14, 14)
  {
    hide Level, Fine, RowFine, AcValues, AcCount;
    YAcLevels();
    Sym(false, Y_AC_14[0], 0xe1, 5, Y_VALUES_5, 22, 65515, 16, 142, 65410, 37, 162);
    Sym(false, Y_AC_14[1], 0xe2, 5, Y_VALUES_5, 23, 65516, 16, 143, 65410, 37, 162);
    Sym(false, Y_AC_14[2], 0xe3, 6, Y_VALUES_6, 0, 65517, 16, 144, 65410, 37, 162);
    Sym(false, Y_AC_14[3], 0xe4, 6, Y_VALUES_6, 1, 65518, 16, 145, 65410, 37, 162);
    Sym(false, Y_AC_14[4], 0xe5, 6, Y_VALUES_6, 2, 65519, 16, 146, 65410, 37, 162);
    Sym(false, Y_AC_14[5], 0xe6, 6, Y_VALUES_6, 3, 65520, 16, 147, 65410, 37, 162);
    Sym(false, Y_AC_14[6], 0xe7, 6, Y_VALUES_6, 4, 65521, 16, 148, 65410, 37, 162);
    Sym(false, Y_AC_14[7], 0xe8, 6, Y_VALUES_6, 5, 65522, 16, 149, 65410, 37, 162);
    Sym(false, Y_AC_14[8], 0xe9, 6, Y_VALUES_6, 6, 65523, 16, 150, 65410, 37, 162);
    Sym(false, Y_AC_14[9], 0xea, 6, Y_VALUES_6, 7, 65524, 16, 151, 65410, 37, 162);
    Ten(false, Y_AC_14, 14);
  }

  lemma YRows15()
    ensures RowFine(false, Y_AC_15, 15)
  {
    hide Level, Fine, RowFine, AcValues, AcCount;
    YAcLevels();
    Sym(false, Y_AC_15[0], 0xf1, 6, Y_VALUES_6, 8, 65525, 16, 152, 65410, 37, 162);
    Sym(false, Y_AC_15[1], 0xf2, 6, Y_VALUES_6, 9, 65526, 16, 153, 65410, 37, 162);
    Sym(false, Y_AC_15[2], 0xf3, 6, Y_VALUES_6, 10, 65527, 16, 154, 65410, 37, 162);
    Sym(false, Y_AC_15[3], 0xf4, 6, Y_VALUES_6, 11, 65528, 16, 155, 65410, 37, 162);
    Sym(false, Y_AC_15[4], 0xf5, 6, Y_VALUES_6, 12, 65529, 16, 156, 65410, 37, 162);
    Sym(false, Y_AC_15[5], 0xf6, 6, Y_VALUES_6, 13, 65530, 16, 157, 65410, 37, 162);
    Sym(false, Y_AC_15[6], 0xf7, 6, Y_VALUES_6, 14, 65531, 16, 158, 65410, 37, 162);
    Sym(false, Y_AC_15[7], 0xf8, 6, Y_VALUES_6, 15, 65532, 16, 159, 65410, 37, 162);
    Sym(false, Y_AC_15[8], 0xf9, 6, Y_VALUES_6, 16, 65533, 16, 160, 65410, 37, 162);
    Sym(false, Y_AC_15[9], 0xfa, 6, Y_VALUES_6, 17, 65534, 16, 161, 65410, 37, 162);
    Ten(false, Y_AC_15, 15);
  }

  lemma UvRows0()
    ensures RowFine(true, UV_AC_0, 0)
  {
    hide Level, Fine, RowFine, AcValues, AcCount;
    UvAcLevels();
    Sym(true, UV_AC_0[0], 0x01, 0, UV_VALUES_0, 1, 1, 2, 1, 0, 0, 2);
    Sym(true, UV_AC_0[1], 0x02, 0, UV_VALUES_0, 2, 4, 3, 2, 4, 2, 3);
    Sym(true, UV_AC_0[2], 0x03, 0, UV_VALUES_0, 3, 10, 4, 3, 10, 3, 5);
    Sym(true, UV_AC_0[3], 0x04, 0, UV_VALUES_0, 5, 24, 5, 5, 24, 5, 9);
    Sym(true, UV_AC_0[4], 0x05, 0, UV_VALUES_0, 6, 25, 5, 6, 24, 5, 9);
    Sym(true, UV_AC_0[5], 0x06, 0, UV_VALUES_0, 9, 56, 6, 9, 56, 9, 13);
    Sym(true, UV_AC_0[6], 0x07, 0, UV_VALUES_0, 13, 120, 7, 13, 120, 13, 16);
    Sym(true, UV_AC_0[7], 0x08, 0, UV_VALUES_0, 20, 500, 9, 20, 500, 20, 27);
    Sym(true, UV_AC_0[8], 0x09, 1, UV_VALUES_1, 3, 1014, 10, 27, 1014, 27, 32);
    Sym(true, UV_AC_0[9], 0x0a, 1, UV_VALUES_1, 12, 4084, 12, 36, 4084, 36, 40);
    Ten(true, UV_AC_0, 0);
  }

  lemma UvRows1()
    ensures RowFine(true, UV_AC_1, 1)
  {
    hide Level, Fine, RowFine, AcValues, AcCount;
    UvAcLevels();
    Sym(true, UV_AC_1[0], 0x11, 0, UV_VALUES_0, 4, 11, 4, 4, 10, 3, 5);
    Sym(true, UV_AC_1[1], 0x12, 0, UV_VALUES_0, 10, 57, 6, 10, 56, 9, 13);
    Sym(true, UV_AC_1[2], 0x13, 0, UV_VALUES_0, 16, 246, 8, 16, 246, 16, 20);
    Sym(true, UV_AC_1[3], 0x14, 0, UV_VALUES_0, 21, 501, 9, 21, 500, 20, 27);
    Sym(true, UV_AC_1[4], 0x15, 1, UV_VALUES_1, 8, 2038, 11, 32, 2038, 32, 36);
    Sym(true, UV_AC_1[5], 0x16, 1, UV_VALUES_1, 13, 4085, 12, 37, 4084, 36, 40);
    Sym(true, UV_AC_1[6], 0x17, 1, UV_VALUES_1, 19, 65416, 16, 43, 65416, 43, 162);
    Sym(true, UV_AC_1[7], 0x18, 1, UV_VALUES_1, 20, 65417, 16, 44, 65416, 43, 162);
    Sym(true, UV_AC_1[8], 0x19, 1, UV_VALUES_1, 21, 65418, 16, 45, 65416, 43, 162);
    Sym(true, UV_AC_1[9], 0x1a, 1, UV_VALUES_1, 22, 65419, 16, 46, 65416, 43, 162);
    Ten(true, UV_AC_1, 1);
  }

  lemma UvRows2()
    ensures RowFine(true, UV_AC_2, 2)
  {
    hide Level, Fine, RowFine, AcValues, AcCount;
    UvAcLevels();
    Sym(true, UV_AC_2[0], 0x21, 0, UV_VALUES_0, 7, 26, 5, 7, 24, 5, 9);
    Sym(true, UV_AC_2[1], 0x22, 0, UV_VALUES_0, 17, 247, 8, 17, 246, 16, 20);
    Sym(true, UV_AC_2[2], 0x23, 1, UV_VALUES_1, 4, 1015, 10, 28, 1014, 27, 32);
    Sym(true, UV_AC_2[3], 0x24, 1, UV_VALUES_1, 14, 4086, 12, 38, 4084, 36, 40);
    Sym(true, UV_AC_2[4], 0x25, 1, UV_VALUES_1, 17, 32706, 15, 41, 32706, 41, 43);
    Sym(true, UV_AC_2[5], 0x26, 1, UV_VALUES_1, 23, 65420, 16, 47, 65416, 43, 162);
    Sym(true, UV_AC_2[6], 0x27, 2, UV_VALUES_2, 0, 65421, 16, 48, 65416, 43, 162);
    Sym(true, UV_AC_2[7], 0x28, 2, UV_VALUES_2, 1, 65422, 16, 49, 65416, 43, 162);
    Sym(true, UV_AC_2[8], 0x29, 2, UV_VALUES_2, 2, 65423, 16, 50, 65416, 43, 162);
    Sym(true, UV_AC_2[9], 0x2a, 2, UV_VALUES_2, 3, 65424, 16, 51, 65416, 43, 162);
    Ten(true, UV_AC_2, 2);
  }

  lemma UvRows3()
    ensures RowFine(true, UV_AC_3, 3)
  {
    hide Level, Fine, RowFine, AcValues, AcCount;
    UvAcLevels();
    Sym(true, UV_AC_3[0], 0x31, 0, UV_VALUES_0, 8, 27, 5, 8, 24, 5, 9);
    Sym(true, UV_AC_3[1], 0x32, 0, UV_VALUES_0, 18, 248, 8, 18, 246, 16, 20);
    Sym(true, UV_AC_3[2], 0x33, 1, UV_VALUES_1, 5, 1016, 10, 29, 1014, 27, 32);
    Sym(true, UV_AC_3[3], 0x34, 1, UV_VALUES_1, 15, 4087, 12, 39, 4084, 36, 40);
    Sym(true, UV_AC_3[4], 0x35, 2, UV_VALUES_2, 4, 65425, 16, 52, 65416, 43, 162);
    Sym(true, UV_AC_3[5], 0x36, 2, UV_VALUES_2, 5, 65426, 16, 53, 65416, 43, 162);
    Sym(true, UV_AC_3[6], 0x37, 2, UV_VALUES_2, 6, 65427, 16, 54, 65416, 43, 162);
    Sym(true, UV_AC_3[7], 0x38, 2, UV_VALUES_2, 7, 65428, 16, 55, 65416, 43, 162);
    Sym(true, UV_AC_3[8], 0x39, 2, UV_VALUES_2, 8, 65429, 16, 56, 65416, 43, 162);
    Sym(true, UV_AC_3[9], 0x3a, 2, UV_VALUES_2, 9, 65430, 16, 57, 65416, 43, 162);
    Ten(true, UV_AC_3, 3);
  }

  lemma UvRows4()
    ensures RowFine(true, UV_AC_4, 4)
  {
    hide Level, Fine, RowFine, AcValues, AcCount;
    UvAcLevels();
    Sym(true, UV_AC_4[0], 0x41, 0, UV_VALUES_0, 11, 58, 6, 11, 56, 9, 13);
    Sym(true, UV_AC_4[1], 0x42, 0, UV_VALUES_0, 22, 502, 9, 22, 500, 20, 27);
    Sym(true, UV_AC_4[2], 0x43, 2, UV_VALUES_2, 10, 65431, 16, 58, 65416, 43, 162);
    Sym(true, UV_AC_4[3], 0x44, 2, UV_VALUES_2, 11, 65432, 16, 59, 65416, 43, 162);
    Sym(true, UV_AC_4[4], 0x45, 2, UV_VALUES_2, 12, 65433, 16, 60, 65416, 43, 162);
    Sym(true, UV_AC_4[5], 0x46, 2, UV_VALUES_2, 13, 65434, 16, 61, 65416, 43, 162);
    Sym(true, UV_AC_4[6], 0x47, 2, UV_VALUES_2, 14, 65435, 16, 62, 65416, 43, 162);
    Sym(true, UV_AC_4[7], 0x48, 2, UV_VALUES_2, 15, 65436, 16, 63, 65416, 43, 162);
    Sym(true, UV_AC_4[8], 0x49, 2, UV_VALUES_2, 16, 65437, 16, 64, 65416, 43, 162);
    Sym(true, UV_AC_4[9], 0x4a, 2, UV_VALUES_2, 17, 65438, 16, 65, 65416, 43, 162);
    Ten(true, UV_AC_4, 4);
  }

  lemma UvRows5()
    ensures RowFine(true, UV_AC_5, 5)
  {
    hide Level, Fine, RowFine, AcValues, AcCount;
    UvAcLevels();
    Sym(true, UV_AC_5[0], 0x51, 0, UV_VALUES_0, 12, 59, 6, 12, 56, 9, 13);
    Sym(true, UV_AC_5[1], 0x52, 1, UV_VALUES_1, 6, 1017, 10, 30, 1014, 27, 32);
    Sym(true, UV_AC_5[2], 0x53, 2, UV_VALUES_2, 18, 65439, 16, 66, 65416, 43, 162);
    Sym(true, UV_AC_5[3], 0x54, 2, UV_VALUES_2, 19, 65440, 16, 67, 65416, 43, 162);
    Sym(true, UV_AC_5[4], 0x55, 2, UV_VALUES_2, 20, 65441, 16, 68, 65416, 43, 162);
    Sym(true, UV_AC_5[5], 0x56, 2, UV_VALUES_2, 21, 65442, 16, 69, 65416, 43, 162);
    Sym(true, UV_AC_5[6], 0x57, 2, UV_VALUES_2, 22, 65443, 16, 70, 65416, 43, 162);
    Sym(true, UV_AC_5[7], 0x58, 2, UV_VALUES_2, 23, 65444, 16, 71, 65416, 43, 162);
    Sym(true, UV_AC_5[8], 0x59, 3, UV_VALUES_3, 0, 65445, 16, 72, 65416, 43, 162);
    Sym(true, UV_AC_5[9], 0x5a, 3, UV_VALUES_3, 1, 65446, 16, 73, 65416, 43, 162);
    Ten(true, UV_AC_5, 5);
  }

  lemma UvRows6()
    ensures RowFine(true, UV_AC_6, 6)
  {
    hide Level, Fine, RowFine, AcValues, AcCount;
    UvAcLevels();
    Sym(true, UV_AC_6[0], 0x61, 0, UV_VALUES_0, 14, 121, 7, 14, 120, 13, 16);
    Sym(true, UV_AC_6[1], 0x62, 1, UV_VALUES_1, 9, 2039, 11, 33, 2038, 32, 36);
    Sym(true, UV_AC_6[2], 0x63, 3, UV_VALUES_3, 2, 65447, 16, 74, 65416, 43, 162);
    Sym(true, UV_AC_6[3], 0x64, 3, UV_VALUES_3, 3, 65448, 16, 75, 65416, 43, 162);
    Sym(true, UV_AC_6[4], 0x65, 3, UV_VALUES_3, 4, 65449, 16, 76, 65416, 43, 162);
    Sym(true, UV_AC_6[5], 0x66, 3, UV_VALUES_3, 5, 65450, 16, 77, 65416, 43, 162);
    Sym(true, UV_AC_6[6], 0x67, 3, UV_VALUES_3, 6, 65451, 16, 78, 65416, 43, 162);
    Sym(true, UV_AC_6[7], 0x68, 3, UV_VALUES_3, 7, 65452, 16, 79, 65416, 43, 162);
    Sym(true, UV_AC_6[8], 0x69, 3, UV_VALUES_3, 8, 65453, 16, 80, 65416, 43, 162);
    Sym(true, UV_AC_6[9], 0x6a, 3, UV_VALUES_3, 9, 65454, 16, 81, 65416, 43, 162);
    Ten(true, UV_AC_6, 6);
  }

  lemma UvRows7()
    ensures RowFine(true, UV_AC_7, 7)
  {
    hide Level, Fine, RowFine, AcValues, AcCount;
    UvAcLevels();
    Sym(true, UV_AC_7[0], 0x71, 0, UV_VALUES_0, 15, 122, 7, 15, 120, 13, 16);
    Sym(true, UV_AC_7[1], 0x72, 1, UV_VALUES_1, 10, 2040, 11, 34, 2038, 32, 36);
    Sym(true, UV_AC_7[2], 0x73, 3, UV_VALUES_3, 10, 65455, 16, 82, 65416, 43, 162);
    Sym(true, UV_AC_7[3], 0x74, 3, UV_VALUES_3, 11, 65456, 16, 83, 65416, 43, 162);
    Sym(true, UV_AC_7[4], 0x75, 3, UV_VALUES_3, 12, 65457, 16, 84, 65416, 43, 162);
    Sym(true, UV_AC_7[5], 0x76, 3, UV_VALUES_3, 13, 65458, 16, 85, 65416, 43, 162);
    Sym(true, UV_AC_7[6], 0x77, 3, UV_VALUES_3, 14, 65459, 16, 86, 65416, 43, 162);
    Sym(true, UV_AC_7[7], 0x78, 3, UV_VALUES_3, 15, 65460, 16, 87, 65416, 43, 162);
    Sym(true, UV_AC_7[8], 0x79, 3, UV_VALUES_3, 16, 65461, 16, 88, 65416, 43, 162);
    Sym(true, UV_AC_7[9], 0x7a, 3, UV_VALUES_3, 17, 65462, 16, 89, 65416, 43, 162);
    Ten(true, UV_AC_7, 7);
  }

  lemma UvRows8()
    ensures RowFine(true, UV_AC_8, 8)
  {
    hide Level, Fine, RowFine, AcValues, AcCount;
    UvAcLevels();
    Sym(true, UV_AC_8[0], 0x81, 0, UV_VALUES_0, 19, 249, 8, 19, 246, 16, 20);
    Sym(true, UV_AC_8[1], 0x82, 3, UV_VALUES_3, 18, 65463, 16, 90, 65416, 43, 162);
    Sym(true, UV_AC_8[2], 0x83, 3, UV_VALUES_3, 19, 65464, 16, 91, 65416, 43, 162);
    Sym(true, UV_AC_8[3], 0x84, 3, UV_VALUES_3, 20, 65465, 16, 92, 65416, 43, 162);
    Sym(true, UV_AC_8[4], 0x85, 3, UV_VALUES_3, 21, 65466, 16, 93, 65416, 43, 162);
    Sym(true, UV_AC_8[5], 0x86, 3, UV_VALUES_3, 22, 65467, 16, 94, 65416, 43, 162);
    Sym(true, UV_AC_8[6], 0x87, 3, UV_VALUES_3, 23, 65468, 16, 95, 65416, 43, 162);
    Sym(true, UV_AC_8[7], 0x88, 4, UV_VALUES_4, 0, 65469, 16, 96, 65416, 43, 162);
    Sym(true, UV_AC_8[8], 0x89, 4, UV_VALUES_4, 1, 65470, 16, 97, 65416, 43, 162);
    Sym(true, UV_AC_8[9], 0x8a, 4, UV_VALUES_4, 2, 65471, 16, 98, 65416, 43, 162);
    Ten(true, UV_AC_8, 8);
  }

  lemma UvRows9()
    ensures RowFine(true, UV_AC_9, 9)
  {
    hide Level, Fine, RowFine, AcValues, AcCount;
    UvAcLevels();
    Sym(true, UV_AC_9[0], 0x91, 0, UV_VALUES_0, 23, 503, 9, 23, 500, 20, 27);
    Sym(true, UV_AC_9[1], 0x92, 4, UV_VALUES_4, 3, 65472, 16, 99, 65416, 43, 162);
    Sym(true, UV_AC_9[2], 0x93, 4, UV_VALUES_4, 4, 65473, 16, 100, 65416, 43, 162);
    Sym(true, UV_AC_9[3], 0x94, 4, UV_VALUES_4, 5, 65474, 16, 101, 65416, 43, 162);
    Sym(true, UV_AC_9[4], 0x95, 4, UV_VALUES_4, 6, 65475, 16, 102, 65416, 43, 162);
    Sym(true, UV_AC_9[5], 0x96, 4, UV_VALUES_4, 7, 65476, 16, 103, 65416, 43, 162);
    Sym(true, UV_AC_9[6], 0x97, 4, UV_VALUES_4, 8, 65477, 16, 104, 65416, 43, 162);
    Sym(true, UV_AC_9[7], 0x98, 4, UV_VALUES_4, 9, 65478, 16, 105, 65416, 43, 162);
    Sym(true, UV_AC_9[8], 0x99, 4, UV_VALUES_4, 10, 65479, 16, 106, 65416, 43, 162);
    Sym(true, UV_AC_9[9], 0x9a, 4, UV_VALUES_4, 11, 65480, 16, 107, 65416, 43, 162);
    Ten(true, UV_AC_9, 9);
  }

  lemma UvRows10()
    ensures RowFine(true, UV_AC_10, 10)
  {
    hide Level, Fine, RowFine, AcValues, AcCount;
    UvAcLevels();
    Sym(true, UV_AC_10[0], 0xa1, 1, UV_VALUES_1, 0, 504, 9, 24, 500, 20, 27);
    Sym(true, UV_AC_10[1], 0xa2, 4, UV_VALUES_4, 12, 65481, 16, 108, 65416, 43, 162);
    Sym(true, UV_AC_10[2], 0xa3, 4, UV_VALUES_4, 13, 65482, 16, 109, 65416, 43, 162);
    Sym(true, UV_AC_10[3], 0xa4, 4, UV_VALUES_4, 14, 65483, 16, 110, 65416, 43, 162);
    Sym(true, UV_AC_10[4], 0xa5, 4, UV_VALUES_4, 15, 65484, 16, 111, 65416, 43, 162);
    Sym(true, UV_AC_10[5], 0xa6, 4, UV_VALUES_4, 16, 65485, 16, 112, 65416, 43, 162);
    Sym(true, UV_AC_10[6], 0xa7, 4, UV_VALUES_4, 17, 65486, 16, 113, 65416, 43, 162);
    Sym(true, UV_AC_10[7], 0xa8, 4, UV_VALUES_4, 18, 65487, 16, 114, 65416, 43, 162);
    Sym(true, UV_AC_10[8], 0xa9, 4, UV_VALUES_4, 19, 65488, 16, 115, 65416, 43, 162);
    Sym(true, UV_AC_10[9], 0xaa, 4, UV_VALUES_4, 20, 65489, 16, 116, 65416, 43, 162);
    Ten(true, UV_AC_10, 10);
  }

  lemma UvRows11()
    ensures RowFine(true, UV_AC_11, 11)
  {
    hide Level, Fine, RowFine, AcValues, AcCount;
    UvAcLevels();
    Sym(true, UV_AC_11[0], 0xb1, 1, UV_VALUES_1, 1, 505, 9, 25, 500, 20, 27);
    Sym(true, UV_AC_11[1], 0xb2, 4, UV_VALUES_4, 21, 65490, 16, 117, 65416, 43, 162);
    Sym(true, UV_AC_11[2], 0xb3, 4, UV_VALUES_4, 22, 65491, 16, 118, 65416, 43, 162);
    Sym(true, UV_AC_11[3], 0xb4, 4, UV_VALUES_4, 23, 65492, 16, 119, 65416, 43, 162);
    Sym(true, UV_AC_11[4], 0xb5, 5, UV_VALUES_5, 0, 65493, 16, 120, 65416, 43, 162);
    Sym(true, UV_AC_11[5], 0xb6, 5, UV_VALUES_5, 1, 65494, 16, 121, 65416, 43, 162);
    Sym(true, UV_AC_11[6], 0xb7, 5, UV_VALUES_5, 2, 65495, 16, 122, 65416, 43, 162);
    Sym(true, UV_AC_11[7], 0xb8, 5, UV_VALUES_5, 3, 65496, 16, 123, 65416, 43, 162);
    Sym(true, UV_AC_11[8], 0xb9, 5, UV_VALUES_5, 4, 65497, 16, 124, 65416, 43, 162);
    Sym(true, UV_AC_11[9], 0xba, 5, UV_VALUES_5, 5, 65498, 16, 125, 65416, 43, 162);
    Ten(true, UV_AC_11, 11);
  }

  lemma UvRows12()
    ensures RowFine(true, UV_AC_12, 12)
  {
    hide Level, Fine, RowFine, AcValues, AcCount;
    UvAcLevels();
    Sym(true, UV_AC_12[0], 0xc1, 1, UV_VALUES_1, 2, 506, 9, 26, 500, 20, 27);
    Sym(true, UV_AC_12[1], 0xc2, 5, UV_VALUES_5, 6, 65499, 16, 126, 65416, 43, 162);
    Sym(true, UV_AC_12[2], 0xc3, 5, UV_VALUES_5, 7, 65500, 16, 127, 65416, 43, 162);
    Sym(true, UV_AC_12[3], 0xc4, 5, UV_VALUES_5, 8, 65501, 16, 128, 65416, 43, 162);
    Sym(true, UV_AC_12[4], 0xc5, 5, UV_VALUES_5, 9, 65502, 16, 129, 65416, 43, 162);
    Sym(true, UV_AC_12[5], 0xc6, 5, UV_VALUES_5, 10, 65503, 16, 130, 65416, 43, 162);
    Sym(true, UV_AC_12[6], 0xc7, 5, UV_VALUES_5, 11, 65504, 16, 131, 65416, 43, 162);
    Sym(true, UV_AC_12[7], 0xc8, 5, UV_VALUES_5, 12, 65505, 16, 132, 65416, 43, 162);
    Sym(true, UV_AC_12[8], 0xc9, 5, UV_VALUES_5, 13, 65506, 16, 133, 65416, 43, 162);
    Sym(true, UV_AC_12[9], 0xca, 5, UV_VALUES_5, 14, 65507, 16, 134, 65416, 43, 162);
    Ten(true, UV_AC_12, 12);
  }

  lemma UvRows13()
    ensures RowFine(true, UV_AC_13, 13)
  {
    hide Level, Fine, RowFine, AcValues, AcCount;
    UvAcLevels();
    Sym(true, UV_AC_13[0], 0xd1, 1, UV_VALUES_1, 11, 2041, 11, 35, 2038, 32, 36);
    Sym(true, UV_AC_13[1], 0xd2, 5, UV_VALUES_5, 15, 65508, 16, 135, 65416, 43, 162);
    Sym(true, UV_AC_13[2], 0xd3, 5, UV_VALUES_5, 16, 65509, 16, 136, 65416, 43, 162);
    Sym(true, UV_AC_13[3], 0xd4, 5, UV_VALUES_5, 17, 65510, 16, 137, 65416, 43, 162);
    Sym(true, UV_AC_13[4], 0xd5, 5, UV_VALUES_5, 18, 65511, 16, 138, 65416, 43, 162);
    Sym(true, UV_AC_13[5], 0xd6, 5, UV_VALUES_5, 19, 65512, 16, 139, 65416, 43, 162);
    Sym(true, UV_AC_13[6], 0xd7, 5, UV_VALUES_5, 20, 65513, 16, 140, 65416, 43, 162);
    Sym(true, UV_AC_13[7], 0xd8, 5, UV_VALUES_5, 21, 65514, 16, 141, 65416, 43, 162);
    Sym(true, UV_AC_13[8], 0xd9, 5, UV_VALUES_5, 22, 65515, 16, 142, 65416, 43, 162);
    Sym(true, UV_AC_13[9], 0xda, 5, UV_VALUES_5, 23, 65516, 16, 143, 65416, 43, 162);
    Ten(true, UV_AC_13, 13);
  }

  lemma UvRows14()
    ensures RowFine(true, UV_AC_14, 14)
  {
    hide Level, Fine, RowFine, AcValues, AcCount;
    UvAcLevels();
    Sym(true, UV_AC_14[0], 0xe1, 1, UV_VALUES_1, 16, 16352, 14, 40, 16352, 40, 41);
    Sym(true, UV_AC_14[1], 0xe2, 6, UV_VALUES_6, 0, 65517, 16, 144, 65416, 43, 162);
    Sym(true, UV_AC_14[2], 0xe3, 6, UV_VALUES_6, 1, 65518, 16, 145, 65416, 43, 162);
    Sym(true, UV_AC_14[3], 0xe4, 6, UV_VALUES_6, 2, 65519, 16, 146, 65416, 43, 162);
    Sym(true, UV_AC_14[4], 0xe5, 6, UV_VALUES_6, 3, 65520, 16, 147, 65416, 43, 162);
    Sym(true, UV_AC_14[5], 0xe6, 6, UV_VALUES_6, 4, 65521, 16, 148, 65416, 43, 162);
    Sym(true, UV_AC_14[6], 0xe7, 6, UV_VALUES_6, 5, 65522, 16, 149, 65416, 43, 162);
    Sym(true, UV_AC_14[7], 0xe8, 6, UV_VALUES_6, 6, 65523, 16, 150, 65416, 43, 162);
    Sym(true, UV_AC_14[8], 0xe9, 6, UV_VALUES_6, 7, 65524, 16, 151, 65416, 43, 162);
    Sym(true, UV_AC_14[9], 0xea, 6, UV_VALUES_6, 8, 65525, 16, 152, 65416, 43, 162);
    Ten(true, UV_AC_14, 14);
  }

  lemma UvRows15()
    ensures RowFine(true, UV_AC_15, 15)
  {
    hide Level, Fine, RowFine, AcValues, AcCount;
    UvAcLevels();
    Sym(true, UV_AC_15[0], 0xf1, 1, UV_VALUES_1, 18, 32707, 15, 42, 32706, 41, 43);
    Sym(true, UV_AC_15[1], 0xf2, 6, UV_VALUES_6, 9, 65526, 16, 153, 65416, 43, 162);
    Sym(true, UV_AC_15[2], 0xf3, 6, UV_VALUES_6, 10, 65527, 16, 154, 65416, 43, 162);
    Sym(true, UV_AC_15[3], 0xf4, 6, UV_VALUES_6, 11, 65528, 16, 155, 65416, 43, 162);
    Sym(true, UV_AC_15[4], 0xf5, 6, UV_VALUES_6, 12, 65529, 16, 156, 65416, 43, 162);
    Sym(true, UV_AC_15[5], 0xf6, 6, UV_VALUES_6, 13, 65530, 16, 157, 65416, 43, 162);
    Sym(true, UV_AC_15[6], 0xf7, 6, UV_VALUES_6, 14, 65531, 16, 158, 65416, 43, 162);
    Sym(true, UV_AC_15[7], 0xf8, 6, UV_VALUES_6, 15, 65532, 16, 159, 65416, 43, 162);
    Sym(true, UV_AC_15[8], 0xf9, 6, UV_VALUES_6, 16, 65533, 16, 160, 65416, 43, 162);
    Sym(true, UV_AC_15[9], 0xfa, 6, UV_VALUES_6, 17, 65534, 16, 161, 65416, 43, 162);
    Ten(true, UV_AC_15, 15);
  }

  lemma YEnds()
    ensures Fine(AcCount(false), AcValues(false), Y_EOB, EOB) && Fine(AcCount(false), AcValues(false), Y_ZRL, ZRL)
  {
    hide Level, Fine, AcValues, AcCount;
    YAcLevels();
    Sym(false, Y_EOB, EOB, 0, Y_VALUES_0, 3, 10, 4, 3, 10, 3, 6);
    Sym(false, Y_ZRL, ZRL, 1, Y_VALUES_1, 7, 2041, 11, 31, 2038, 28, 32);
  }

  lemma UvEnds()
    ensures Fine(AcCount(true), AcValues(true), UV_EOB, EOB) && Fine(AcCount(true), AcValues(true), UV_ZRL, ZRL)
  {
    hide Level, Fine, AcValues, AcCount;
    UvAcLevels();
    Sym(true, UV_EOB, EOB, 0, UV_VALUES_0, 0, 0, 2, 0, 0, 0, 2);
    Sym(true, UV_ZRL, ZRL, 1, UV_VALUES_1, 7, 1018, 10, 31, 1014, 27, 32);
  }

  lemma AllRows(uv: bool, run: nat)
    requires run < 16
    ensures RowFine(uv, AcRow(uv, run), run)
  {
    hide RowFine;
    match run
    case 0 => if uv { UvRows0(); } else { YRows0(); }
    case 1 => if uv { UvRows1(); } else { YRows1(); }
    case 2 => if uv { UvRows2(); } else { YRows2(); }
    case 3 => if uv { UvRows3(); } else { YRows3(); }
    case 4 => if uv { UvRows4(); } else { YRows4(); }
    case 5 => if uv { UvRows5(); } else { YRows5(); }
    case 6 => if uv { UvRows6(); } else { YRows6(); }
    case 7 => if uv { UvRows7(); } else { YRows7(); }
    case 8 => if uv { UvRows8(); } else { YRows8(); }
    case 9 => if uv { UvRows9(); } else { YRows9(); }
    case 10 => if uv { UvRows10(); } else { YRows10(); }
    case 11 => if uv { UvRows11(); } else { YRows11(); }
    case 12 => if uv { UvRows12(); } else { YRows12(); }
    case 13 => if uv { UvRows13(); } else { YRows13(); }
    case 14 => if uv { UvRows14(); } else { YRows14(); }
    case _ => if uv { UvRows15(); } else { YRows15(); }
  }
}
