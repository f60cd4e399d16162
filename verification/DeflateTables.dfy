/** The literal tables of both files, and that module Deflate's closed forms give the same values. */
module DeflateTables {
  import opened Bits
  import opened Deflate

  const ZLENGTH_BASE: seq<nat> := [
    3, 4, 5, 6, 7, 8, 9, 10, 11, 13, 15, 17, 19, 23, 27, 31, 35, 43, 51, 59,
    67, 83, 99, 115, 131, 163, 195, 227, 258]
  const ZLENGTH_EXTRA: seq<nat> := [
    0, 0, 0, 0, 0, 0, 0, 0, 1, 1, 1, 1, 2, 2, 2, 2, 3, 3, 3, 3, 4, 4, 4, 4, 5, 5, 5, 5, 0]
  const ZDIST_BASE: seq<nat> := [
    1, 2, 3, 4, 5, 7, 9, 13, 17, 25, 33, 49, 65, 97, 129, 193,
    257, 385, 513, 769, 1025, 1537, 2049, 3073, 4097, 6145, 8193, 12289, 16385, 24577]
  const ZDIST_EXTRA: seq<nat> := [
    0, 0, 0, 0, 1, 1, 2, 2, 3, 3, 4, 4, 5, 5, 6, 6, 7, 7, 8, 8, 9, 9, 10, 10, 11, 11, 12, 12, 13, 13]
  const LENGTH_DEZIGZAG: seq<nat> := [16, 17, 18, 0, 8, 7, 9, 6, 10, 5, 11, 4, 12, 3, 13, 2, 14, 1, 15]

  /** Shifts written out. */
  lemma ShiftValue(n: nat, v: nat)
    requires n <= 13
    ensures Shl(n, v) == v * [1, 2, 4, 8, 16, 32, 64, 128, 256, 512, 1024, 2048, 4096, 8192][n]
  {
    assert Shl(0, v) == v;
    if n > 0 { ShiftValue(n - 1, v); }
  }

  lemma LengthTables(j: nat)
    requires j < 29
    ensures LengthBase(j) == ZLENGTH_BASE[j] && LengthExtra(j) == ZLENGTH_EXTRA[j]
  {
    ShiftValue(LengthExtra(j), 4 + j % 4);
  }

  lemma DistTables(j: nat)
    requires j < 30
    ensures DistBase(j) == ZDIST_BASE[j] && DistExtra(j) == ZDIST_EXTRA[j]
  {
    if j < 8 { DistLow(j); } else if j < 16 { DistMiddle(j); } else { DistHigh(j); }
  }

  lemma DistLow(j: nat)
    requires j < 8
    ensures DistBase(j) == ZDIST_BASE[j] && DistExtra(j) == ZDIST_EXTRA[j]
  {
    ShiftValue(DistExtra(j), 2 + j % 2);
  }

  lemma DistMiddle(j: nat)
    requires 8 <= j < 16
    ensures DistBase(j) == ZDIST_BASE[j] && DistExtra(j) == ZDIST_EXTRA[j]
  {
    ShiftValue(DistExtra(j), 2 + j % 2);
  }

  lemma DistHigh(j: nat)
    requires 16 <= j < 30
    ensures DistBase(j) == ZDIST_BASE[j] && DistExtra(j) == ZDIST_EXTRA[j]
  {
    ShiftValue(DistExtra(j), 2 + j % 2);
  }

  lemma OrderTable(j: nat)
    requires j < 19
    ensures ClOrder(j) == LENGTH_DEZIGZAG[j]
  {
  }
}
