/** The 64 quantised coefficients of a JPEG block as symbols and magnitudes (section F.1.2 of ITU-T T.81). */
module JpegCoef {
  import opened Bits
  import opened Canonical
  import opened JpegHuffman
  import opened JpegFastAc

  // ---------------------------------------------------------------- the zigzag order

  /** `stbi__jpeg_dezigzag`: the place in the matrix of the `k`th coefficient; past the end the last one. */
  function Dezigzag(k: nat): (z: nat)
    ensures z < 64
  {
    if k >= 64 then 63 else
    match k / 8
    case 0 => (match k % 8 case 0 => 0 case 1 => 1 case 2 => 8 case 3 => 16 case 4 => 9 case 5 => 2 case 6 => 3 case _ => 10)
    case 1 => (match k % 8 case 0 => 17 case 1 => 24 case 2 => 32 case 3 => 25 case 4 => 18 case 5 => 11 case 6 => 4 case _ => 5)
    case 2 => (match k % 8 case 0 => 12 case 1 => 19 case 2 => 26 case 3 => 33 case 4 => 40 case 5 => 48 case 6 => 41 case _ => 34)
    case 3 => (match k % 8 case 0 => 27 case 1 => 20 case 2 => 13 case 3 => 6 case 4 => 7 case 5 => 14 case 6 => 21 case _ => 28)
    case 4 => (match k % 8 case 0 => 35 case 1 => 42 case 2 => 49 case 3 => 56 case 4 => 57 case 5 => 50 case 6 => 43 case _ => 36)
    case 5 => (match k % 8 case 0 => 29 case 1 => 22 case 2 => 15 case 3 => 23 case 4 => 30 case 5 => 37 case 6 => 44 case _ => 51)
    case 6 => (match k % 8 case 0 => 58 case 1 => 59 case 2 => 52 case 3 => 45 case 4 => 38 case 5 => 31 case 6 => 39 case _ => 46)
    case _ => (match k % 8 case 0 => 53 case 1 => 60 case 2 => 61 case 3 => 54 case 4 => 47 case 5 => 55 case 6 => 62 case _ => 63)
  }

  /** `stbiw__jpg_ZigZag`: the number of the coefficient at place `k`. */
  function ZigZag(k: nat): (z: nat)
    requires k < 64
    ensures z < 64
  {
    match k / 8
    case 0 => (match k % 8 case 0 => 0 case 1 => 1 case 2 => 5 case 3 => 6 case 4 => 14 case 5 => 15 case 6 => 27 case _ => 28)
    case 1 => (match k % 8 case 0 => 2 case 1 => 4 case 2 => 7 case 3 => 13 case 4 => 16 case 5 => 26 case 6 => 29 case _ => 42)
    case 2 => (match k % 8 case 0 => 3 case 1 => 8 case 2 => 12 case 3 => 17 case 4 => 25 case 5 => 30 case 6 => 41 case _ => 43)
    case 3 => (match k % 8 case 0 => 9 case 1 => 11 case 2 => 18 case 3 => 24 case 4 => 31 case 5 => 40 case 6 => 44 case _ => 53)
    case 4 => (match k % 8 case 0 => 10 case 1 => 19 case 2 => 23 case 3 => 32 case 4 => 39 case 5 => 45 case 6 => 52 case _ => 54)
    case 5 => (match k % 8 case 0 => 20 case 1 => 22 case 2 => 33 case 3 => 38 case 4 => 46 case 5 => 51 case 6 => 55 case _ => 60)
    case 6 => (match k % 8 case 0 => 21 case 1 => 34 case 2 => 37 case 3 => 47 case 4 => 50 case 5 => 56 case 6 => 59 case _ => 61)
    case _ => (match k % 8 case 0 => 35 case 1 => 36 case 2 => 48 case 3 => 49 case 4 => 57 case 5 => 58 case 6 => 62 case _ => 63)
  }

  /** The reader's order and the writer's are inverse to each other. */
  lemma ZigZagDezigzag(k: nat)
    requires k < 64
    ensures ZigZag(Dezigzag(k)) == k
  {
  }

  lemma DezigzagZigZag(k: nat)
    requires k < 64
    ensures Dezigzag(ZigZag(k)) == k
  {
  }

  lemma PlacesDiffer(j: nat, k: nat)
    requires j < 64 && k < 64 && Dezigzag(j) == Dezigzag(k)
    ensures j == k
  {
    hide Dezigzag, ZigZag;
    ZigZagDezigzag(j);
    ZigZagDezigzag(k);
  }

  // ---------------------------------------------------------------- magnitudes

  /** The number of bits of `v`. */
  function Width(v: nat): nat {
    if v == 0 then 0 else 1 + Width(v / 2)
  }

  function AbsOf(v: int): nat {
    if v < 0 then -v else v
  }

  /** The category of a value and its magnitude bits, one less in two's complement when negative. */
  function Category(v: int): nat {
    Width(AbsOf(v))
  }

  function Magnitude(v: int): int {
    if v < 0 then v - 1 + Pow2(Category(v)) else v
  }

  lemma {:induction false} WidthBounds(v: nat)
    ensures v < Pow2(Width(v)) && (v > 0 ==> Width(v) >= 1 && Pow2(Width(v) - 1) <= v)
  {
    if v > 0 {
      WidthBounds(v / 2);
    }
  }

  lemma {:induction false} WidthLimit(v: nat, n: nat)
    requires v < Pow2(n)
    ensures Width(v) <= n
  {
    if v > 0 {
      WidthLimit(v / 2, n - 1);
    }
  }

  /** Section F.2.2.1: EXTEND takes the magnitude bits back to the value. */
  lemma ExtendMagnitude(v: int)
    requires v != 0
    ensures Category(v) >= 1 && 0 <= Magnitude(v) < Pow2(Category(v))
    ensures Extend(Magnitude(v), Category(v)) == v
  {
    WidthBounds(AbsOf(v));
  }

  /** The low `n` bits of a number in two's complement. */
  function LowBits(v: int, n: nat): (r: int)
    ensures 0 <= r < Pow2(n)
  {
    if v >= 0 then
      TakeBound(v, n);
      Take(v, n)
    else
      TakeBound(-1 - v, n);
      Pow2(n) - 1 - Take(-1 - v, n)
  }

  /** `stbiw__jpg_calcBits` */
  method CalcBits(v: int) returns (code: nat, n: nat)
    requires v != 0
    ensures n == Category(v) && code == Magnitude(v) < Pow2(n)
  {
    hide Take;
    var tmp1: nat := if v < 0 then -v else v;
    var val := if v < 0 then v - 1 else v;
    ExtendMagnitude(v);
    n := 1;
    tmp1 := tmp1 / 2;
    while tmp1 != 0
      invariant n + Width(tmp1) == Category(v)
    {
      n := n + 1;
      tmp1 := tmp1 / 2;
    }
    WidthBounds(AbsOf(v));
    TakeSmall(if v < 0 then -1 - val else val, n);
    code := LowBits(val, n);
  }

  // ---------------------------------------------------------------- blocks as bits

  /** For each symbol its code and the length of its code. */
  type CodeTable = t: seq<(nat, nat)> | |t| == 256 witness seq(256, _ => (0, 0))

  /** A code and its symbols in code order. */
  datatype Coding = Coding(lens: seq<nat>, values: seq<byte>)

  /** The writer's entry for `rs` is the canonical code of one of the symbols `rs`. */
  ghost predicate HasSymbol(t: CodeTable, c: Coding, rs: nat) {
    rs < 256 && exists i :: IsSymbol(t, c, rs, i)
  }

  ghost predicate IsSymbol(t: CodeTable, c: Coding, rs: nat, i: nat) {
    && rs < 256 && i < |c.lens| && i < |c.values| && c.values[i] == rs
    && c.lens[i] >= 1 && t[rs] == (Code(c.lens, i), c.lens[i])
  }

  const EOB: nat := 0
  const ZRL: nat := 0xf0
  const MAX_DC: nat := 11
  const MAX_AC: nat := 10

  /** All symbols that coefficients up to 10 bits, or differences up to 11 bits, can need. */
  ghost predicate AcTable(t: CodeTable, c: Coding) {
    && HasSymbol(t, c, EOB) && HasSymbol(t, c, ZRL)
    && forall run: nat, cat: nat :: run < 16 && 1 <= cat <= MAX_AC ==> HasSymbol(t, c, RunCat(run, cat))
  }

  ghost predicate DcTable(t: CodeTable, c: Coding) {
    forall cat: nat :: cat <= MAX_DC ==> HasSymbol(t, c, cat)
  }

  function RunCat(run: nat, cat: nat): nat {
    run * 16 + cat
  }

  ghost function PutCode(t: CodeTable, rs: nat, rest: nat): nat
    requires rs < 256
  {
    Put(Rev(t[rs].0, t[rs].1), t[rs].1, rest)
  }

  ghost function PutValue(v: int, rest: nat): nat
    requires v != 0
  {
    ExtendMagnitude(v);
    Put(Rev(Magnitude(v), Category(v)), Category(v), rest)
  }

  /** 64 coefficients in zigzag order; all but the first are below 2^10. */
  type Coefs = du: seq<int> | IsCoefs(du) witness seq(64, _ => 0)

  predicate IsCoefs(du: seq<int>) {
    |du| == 64 && forall k :: 1 <= k < 64 ==> -1023 <= du[k] <= 1023
  }

  lemma CategoryLimit(v: int, n: nat)
    requires AbsOf(v) < Pow2(n)
    ensures Category(v) <= n
  {
    WidthLimit(AbsOf(v), n);
  }

  lemma CoefCategory(du: Coefs, p: nat)
    requires 1 <= p < 64 && du[p] != 0
    ensures 1 <= Category(du[p]) <= MAX_AC
  {
    Pow2Values();
    CategoryLimit(du[p], MAX_AC);
    ExtendMagnitude(du[p]);
  }

  /** The first coefficient from `i` on that is not zero. */
  function NextNonzero(du: Coefs, i: nat): (p: nat)
    requires i <= 64
    ensures i <= p <= 64 && (p < 64 ==> du[p] != 0) && forall k :: i <= k < p ==> du[k] == 0
    decreases 64 - i
  {
    if i == 64 || du[i] != 0 then i else NextNonzero(du, i + 1)
  }

  /** Section F.1.2.2: run and value of each coefficient that is not zero, 16 zeros at a time before it,
      and the end of the block unless the last coefficient is not zero. */
  ghost function PutAc(du: Coefs, t: CodeTable, i: nat, rest: nat): nat
    requires 1 <= i <= 64
    decreases 64 - i
  {
    var p := NextNonzero(du, i);
    if i == 64 then rest
    else if p == 64 then PutCode(t, EOB, rest)
    else if p - i >= 16 then PutCode(t, ZRL, PutAc(du, t, i + 16, rest))
    else
      CoefCategory(du, p);
      PutCode(t, RunCat(p - i, Category(du[p])), PutValue(du[p], PutAc(du, t, p + 1, rest)))
  }

  ghost function AcBits(du: Coefs, t: CodeTable, i: nat): nat
    requires 1 <= i <= 64
    decreases 64 - i
  {
    var p := NextNonzero(du, i);
    if i == 64 then 0
    else if p == 64 then t[EOB].1
    else if p - i >= 16 then t[ZRL].1 + AcBits(du, t, i + 16)
    else
      CoefCategory(du, p);
      t[RunCat(p - i, Category(du[p]))].1 + Category(du[p]) + AcBits(du, t, p + 1)
  }

  ghost predicate DiffOk(diff: int) {
    -2047 <= diff <= 2047
  }

  lemma DiffCategory(diff: int)
    requires DiffOk(diff)
    ensures Category(diff) <= MAX_DC
  {
    Pow2Values();
    CategoryLimit(diff, MAX_DC);
  }

  /** Section F.1.2.1: the difference to the block before. */
  ghost function PutDc(diff: int, t: CodeTable, rest: nat): nat
    requires DiffOk(diff)
  {
    DiffCategory(diff);
    if diff == 0 then PutCode(t, 0, rest) else PutCode(t, Category(diff), PutValue(diff, rest))
  }

  ghost function DcBits(diff: int, t: CodeTable): nat
    requires DiffOk(diff)
  {
    DiffCategory(diff);
    t[Category(diff)].1 + Category(diff)
  }

  ghost function PutBlock(du: Coefs, pred: int, dc: CodeTable, ac: CodeTable, rest: nat): nat
    requires DiffOk(du[0] - pred)
  {
    PutDc(du[0] - pred, dc, PutAc(du, ac, 1, rest))
  }

  ghost function BlockBits(du: Coefs, pred: int, dc: CodeTable, ac: CodeTable): nat
    requires DiffOk(du[0] - pred)
  {
    DcBits(du[0] - pred, dc) + AcBits(du, ac, 1)
  }
}
