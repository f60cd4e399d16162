/** `stbi__jpeg_decode_block`: one block of a baseline scan. */
module JpegDecode {
  import opened Arith
  import opened Bits
  import opened Canonical
  import opened JpegHuffman
  import opened JpegFastAc
  import opened JpegBits
  import opened JpegReader
  import opened JpegCoef
  import opened JpegEncode

  // ---------------------------------------------------------------- integers of limited width

  /** A number cut down to 16 bits with a sign. */
  function Short(x: int): (s: int)
    ensures -32768 <= s <= 32767
    ensures -32768 <= x <= 32767 ==> s == x
  {
    (x + 32768) % 65536 - 32768
  }

  /** Division as C has it. */
  function TruncDiv(a: int, b: int): int
    requires b != 0
  {
    var q := AbsOf(a) / AbsOf(b);
    if (a < 0) == (b < 0) then q else -q
  }

  /** `stbi__addints_valid` */
  predicate AddIntsValid(a: int, b: int) {
    if (a >= 0) != (b >= 0) then true
    else if a < 0 && b < 0 then a >= -0x8000_0000 - b
    else a <= 0x7fff_ffff - b
  }

  /** `stbi__mul2shorts_valid` */
  predicate Mul2ShortsValid(a: int, b: int) {
    if b == 0 || b == -1 then true
    else if (a >= 0) == (b >= 0) then a <= TruncDiv(32767, b)
    else if b < 0 then a <= TruncDiv(-32768, b)
    else a >= TruncDiv(-32768, b)
  }

  /** For factors that are not negative the check is right. */
  lemma MulValid(a: int, b: int)
    requires 0 <= b
    ensures Mul2ShortsValid(a, b) <==> -32768 <= a * b <= 32767
  {
    if b > 0 {
      if a >= 0 {
        DivBound(a, b, 32767);
        Mono(0, a, b);
      } else {
        DivBound(-a, b, 32768);
        assert (-a) * b == -(a * b);
        Mono(1, -a, b);
      }
    }
  }

  /** For which shorts the check is right: not for two negative ones, but for the largest product that fits
      and for a second factor of -1 with anything but the least first one. */
  lemma MulExact(a: int, b: int)
    requires -32768 <= a <= 32767 && -32768 <= b <= 32767
    ensures (Mul2ShortsValid(a, b) <==> -32768 <= a * b <= 32767) <==>
      a >= 0 || b >= 0 || (if b == -1 then a > -32768 else -a == 32767 / -b)
  {
    if b >= 0 {
      MulValid(a, b);
    } else if b < -1 {
      var m := -b;
      if a >= 0 {
        DivBound(a, m, 32768);
        assert a * b == -(a * m);
        Mono(0, a, m);
      } else {
        DivBound(-a, m, 32767);
        assert a * b == (-a) * m;
        Mono(1, -a, m);
      }
    }
  }

  /** For instance -1 and -2. */
  lemma MulInvalid()
    ensures !Mul2ShortsValid(-1, -2) && -32768 <= -1 * -2 <= 32767
  {
  }

  /** What the reader asks of a first coefficient and its quantiser: the check as it is called, with both as
      shorts. */
  predicate DcAccepted(dc: int, q: nat) {
    Mul2ShortsValid(Short(dc), Short(q))
  }

  /** For a quantiser of 15 bits that is what it should be, and for a wider one, which turns negative, exactly:
      when the coefficient is 0, or -1 with 32768, or, but for 65535, when the check turns a product that is too
      large away. */
  lemma DcAcceptedExact(dc: int, q: nat)
    requires -32768 <= dc <= 32767 && q <= 65535
    ensures q <= 32767 ==> (DcAccepted(dc, q) <==> -32768 <= dc * q <= 32767)
    ensures q > 32767 ==>
      var m := 65536 - q;
      (DcAccepted(dc, q) <==> -32768 <= dc * q <= 32767) <==>
        dc == 0 || (dc == -1 && q == 32768) || (m > 1 && if dc > 0 then dc > 32768 / m else -dc < 32767 / m)
  {
    if q <= 32767 {
      MulValid(dc, q);
    } else {
      var m := 65536 - q;
      assert Short(q) == -m;
      if dc > 0 {
        Mono(1, dc, q);
      } else if dc < 0 {
        assert dc * q == -((-dc) * q);
        Mono(1, -dc, q);
        if dc < -1 { Mono(2, -dc, q); }
      }
    }
  }

  /** For instance 1 times 65535, which is stored as -1. */
  lemma DcAcceptedWrongly()
    ensures DcAccepted(1, 65535) && Short(1 * 65535) == -1
  {
  }

  // ---------------------------------------------------------------- one symbol

  lemma CodeAhead(t: CodeTable, c: Coding, rs: nat, rest: nat) returns (i: nat)
    requires HasSymbol(t, c, rs)
    ensures IsSymbol(t, c, rs, i) && StartsWith(c.lens, i, PutCode(t, rs, rest))
    ensures Drop(PutCode(t, rs, rest), c.lens[i]) == rest && t[rs].1 == c.lens[i]
  {
    hide Code;
    i :| IsSymbol(t, c, rs, i);
    PutStarts(c.lens, i, rest);
  }

  lemma ValueAhead(v: int, rest: nat)
    requires v != 0
    ensures Category(v) >= 1
    ensures Extend(Rev(PutValue(v, rest), Category(v)), Category(v)) == v
    ensures Drop(PutValue(v, rest), Category(v)) == rest
  {
    hide Rev, Extend, Put;
    ExtendMagnitude(v);
    var m, n := Magnitude(v), Category(v);
    RevBound(m, n);
    TakePut(Rev(m, n), n, rest);
    RevTake(PutValue(v, rest), n);
    RevRev(m, n);
    TakeSmall(m, n);
  }

  /** What one step of the AC loop finds. */
  datatype Ac = Bad | EndOfBlock | Zeros | Coef(run: nat, value: int)

  /** What the symbol `rs` and the stream behind it mean. */
  ghost function Meaning(rs: byte, v: nat): Ac {
    if rs % 16 == 0 then (if rs != ZRL then EndOfBlock else Zeros)
    else Coef(rs / 16, Extend(Rev(v, rs % 16), rs % 16))
  }

  /** The fast table refines the slow way: for every stream that a non-zero entry is looked up with, the
      entry has the run and the value that the code and the magnitude bits behind it have, and their
      length together. */
  lemma FastAcRefines(h: JTable, fac: seq<int>, lens: seq<nat>, v: nat) returns (sym: nat)
    requires h.Holds(lens) && h.Shape() && MarkIsFree(lens) && FacHolds(fac, h, lens) && Canonical.Fits(lens)
    requires fac[Rev(v, FAST_BITS) % 512] != 0
    ensures Rev(v, FAST_BITS) < 512
    ensures var r := fac[Rev(v, FAST_BITS)];
      && StartsWith(lens, sym, v) && h.values[..][sym] % 16 != 0
      && r % 16 == lens[sym] + h.values[..][sym] % 16 && r % 16 > 0
      && Coef(r / 16 % 16, r / 256) == Meaning(h.values[..][sym], Drop(v, lens[sym]))
  {
    hide Rev, Drop, Take, Extend, InNine, Canonical.Fits, JTable.Holds;
    RevBound(v, FAST_BITS);
    Pow2Values();
    var w := Rev(v, FAST_BITS);
    assert FacEntry(lens, h.values[..], w, h.fast[w], fac[w]);
    sym := h.fast[w];
    NineLength(lens, sym, w);
    StartsIsNine(lens, sym, v);
    var len, mag := lens[sym], h.values[..][sym] % 16;
    NineValueIs(w, len, mag);
    RevRev(v, FAST_BITS);
    TakeTake(v, len, FAST_BITS - len);
    RevTake(Drop(v, len), mag);
    RevTake(Take(Drop(v, len), FAST_BITS - len), mag);
    TakeTake(Drop(v, len), mag, FAST_BITS - len - mag);
    Split(v, len, mag);
  }

  /** The tables of a component, as the reader holds them. */
  ghost predicate Tables(h: JTable, c: Coding)
    reads h.fast, h.code, h.size, h.maxcode, h.delta, h.values
  {
    h.Holds(c.lens) && h.Shape() && MarkIsFree(c.lens) && Canonical.Fits(c.lens) && c.values == h.values[..]
  }

  lemma TablesOf(h: JTable, c: Coding)
    requires Tables(h, c)
    ensures h.Holds(c.lens) && h.Shape() && c.values == h.values[..]
    ensures Ascending(c.lens) && MarkIsFree(c.lens) && Canonical.Fits(c.lens)
    ensures |c.values| == 256 && |c.lens| <= 256 && h.fast.Length == 512
  {
  }

  /** One step of the AC loop, by the fast table or without it: the result is the same.  `i` is a symbol
      that may be known to come next. */
  method NextAc(j: Reader, hac: JTable, fac: seq<int>, ghost c: Coding, ghost i: nat) returns (a: Ac)
    requires j.Valid() && Tables(hac, c) && FacHolds(fac, hac, c.lens)
    modifies j`code_buffer, j`code_bits, j`marker, j`nomore, j`left, j.s
    ensures a != Bad ==> j.Valid()
    ensures a.Coef? ==> a.run <= 15
    ensures i < |c.values| && StartsWith(c.lens, i, old(j.Stream())) && c.lens[i] + c.values[i] % 16 <= old(j.left) ==>
      && a == Meaning(c.values[i], Drop(old(j.Stream()), c.lens[i])) && j.Valid()
      && j.Stream() == Drop(Drop(old(j.Stream()), c.lens[i]), c.values[i] % 16)
      && j.left == old(j.left) - c.lens[i] - c.values[i] % 16
  {
    hide Rev, Shl, Take, Drop, High, Unstuffed, StartsWith, Canonical.Fits, JTable.Holds, Extend, FacHolds, Tables,
      MarkIsFree, Put, Meaning, Reader.Stream, Reader.Ahead;
    TablesOf(hac, c);
    FacSize(fac, hac, c.lens);
    if j.code_bits < 16 { j.Grow(); }
    ghost var v := j.Stream();
    j.Shows(FAST_BITS);
    ShowsBound(v);
    var w := Drop(j.code_buffer, 32 - FAST_BITS);
    var r := fac[w];
    if r != 0 {
      a := FastAc(j, hac, fac, r, c, i);
    } else {
      a := SlowAc(j, hac, c, i);
    }
  }

  /** The entry tells the length of code and magnitude together. */
  method FastAc(j: Reader, ghost hac: JTable, ghost fac: seq<int>, r: int, ghost c: Coding, ghost i: nat) returns (a: Ac)
    requires j.Valid() && Tables(hac, c) && FacHolds(fac, hac, c.lens) && |fac| == 512
    requires r != 0 && r == fac[Rev(j.Stream(), FAST_BITS) % 512]
    modifies j`code_buffer, j`code_bits, j`left
    ensures a != Bad ==> j.Valid()
    ensures a.Coef? ==> a.run <= 15
    ensures i < |c.values| && StartsWith(c.lens, i, old(j.Stream())) && c.lens[i] + c.values[i] % 16 <= old(j.left) &&
            (old(j.code_bits) >= 16 || old(j.left) <= old(j.code_bits)) ==>
      && a == Meaning(c.values[i], Drop(old(j.Stream()), c.lens[i])) && j.Valid()
      && j.Stream() == Drop(Drop(old(j.Stream()), c.lens[i]), c.values[i] % 16)
      && j.left == old(j.left) - c.lens[i] - c.values[i] % 16
  {
    hide Rev, Shl, Take, Drop, High, Unstuffed, StartsWith, Canonical.Fits, JTable.Holds, Extend, FacHolds, Tables, MarkIsFree,
      Meaning, Reader.Stream, Reader.Valid;
    TablesOf(hac, c);
    ghost var v := j.Stream();
    ShowsBound(v);
    ghost var sym := FastAcRefines(hac, fac, c.lens, v);
    if StartsWith(c.lens, i, v) { OnlyOne(c.lens, i, sym, v); }
    StartsIn(c.lens, sym, v);
    Split(v, c.lens[sym], c.values[sym] % 16);
    var s := r % 16;
    if s > j.code_bits {
      return Bad;
    }
    j.Consume(s);
    return Coef(r / 16 % 16, r / 256);
  }

  /** A code and then its magnitude bits. */
  method SlowAc(j: Reader, hac: JTable, ghost c: Coding, ghost i: nat) returns (a: Ac)
    requires j.Valid() && Tables(hac, c)
    modifies j`code_buffer, j`code_bits, j`marker, j`nomore, j`left, j.s
    ensures a != Bad ==> j.Valid()
    ensures a.Coef? ==> a.run <= 15
    ensures i < |c.values| && StartsWith(c.lens, i, old(j.Stream())) && c.lens[i] + c.values[i] % 16 <= old(j.left) ==>
      && a == Meaning(c.values[i], Drop(old(j.Stream()), c.lens[i])) && j.Valid()
      && j.Stream() == Drop(Drop(old(j.Stream()), c.lens[i]), c.values[i] % 16)
      && j.left == old(j.left) - c.lens[i] - c.values[i] % 16
  {
    hide Rev, Shl, Take, Drop, High, Unstuffed, StartsWith, Canonical.Fits, JTable.Holds, Extend, Tables, MarkIsFree, Put;
    TablesOf(hac, c);
    ghost var v := j.Stream();
    var rs;
    ghost var sym;
    NeverMistaken(c.lens);
    rs, sym := j.HuffDecode(hac, c.lens);
    if rs < 0 {
      return Bad;
    }
    if StartsWith(c.lens, i, v) { OnlyOne(c.lens, i, sym, v); }
    var s := rs % 16;
    if s == 0 {
      a := if rs != ZRL then EndOfBlock else Zeros;
      DropNone(j.Stream());
    } else {
      var value := j.ExtendReceive(s);
      a := Coef(rs / 16, value);
    }
  }

  lemma FacSize(fac: seq<int>, h: JTable, lens: seq<nat>)
    requires h.Shape() && FacHolds(fac, h, lens)
    ensures |fac| == 512
  {
  }

  lemma ShowsBound(v: nat)
    ensures Rev(v, FAST_BITS) < 512
  {
    RevBound(v, FAST_BITS);
    Pow2Values();
  }

  lemma StartsIn(lens: seq<nat>, i: nat, v: nat)
    requires StartsWith(lens, i, v)
    ensures i < |lens|
  {
  }

  lemma DropNone(v: nat)
    ensures Drop(v, 0) == v
  {
  }

  // ---------------------------------------------------------------- one block

  /** What is known to come: the block `du` after a block with `pred`, and then `rest`. */
  datatype Wanted = Unknown | Block(du: Coefs, pred: int, dcT: CodeTable, acT: CodeTable, dcC: Coding, acC: Coding, rest: nat)

  ghost predicate Comes(k: Wanted, v: nat, left: int) {
    k.Block? ==>
      && DiffOk(k.du[0] - k.pred) && -32768 <= k.du[0] <= 32767
      && DcTable(k.dcT, k.dcC) && AcTable(k.acT, k.acC)
      && v == PutBlock(k.du, k.pred, k.dcT, k.acT, k.rest) && left >= BlockBits(k.du, k.pred, k.dcT, k.acT)
  }

  /** The difference to the block before. */
  method DecodeDc(j: Reader, hdc: JTable, dc_pred: int, ghost c: Coding, ghost t: CodeTable, ghost diff: int, ghost rest: nat,
                  ghost known: bool)
    returns (ok: bool, dc: int)
    requires j.Valid() && Tables(hdc, c)
    requires known ==> DiffOk(diff) && DcTable(t, c) && j.Stream() == PutDc(diff, t, rest) && j.left >= DcBits(diff, t)
    requires known ==> -32768 <= dc_pred + diff <= 32767
    modifies j`code_buffer, j`code_bits, j`marker, j`nomore, j`left, j.s
    ensures ok ==> j.Valid()
    ensures known ==> ok && dc == dc_pred + diff && j.Stream() == rest && j.left == old(j.left) - DcBits(diff, t)
  {
    hide Rev, Shl, Take, Drop, High, Unstuffed, StartsWith, Canonical.Fits, JTable.Holds, Extend, Tables, MarkIsFree, Put,
      PutCode, PutValue, Category, Code;
    TablesOf(hdc, c);
    if j.code_bits < 16 { j.Grow(); }
    ghost var v := j.Stream();
    ghost var i: nat := 0;
    if known {
      DiffCategory(diff);
      CategoryZero(diff);
      i := CodeAhead(t, c, Category(diff), if diff == 0 then rest else PutValue(diff, rest));
      DcOpen(diff, t, rest);
    }
    var s;
    ghost var sym;
    NeverMistaken(c.lens);
    s, sym := j.HuffDecode(hdc, c.lens);
    if known && s >= 0 { OnlyOne(c.lens, i, sym, v); }
    if s < 0 || s > 15 {
      return false, 0;
    }
    var d := 0;
    if s != 0 {
      if known {
        ValueAhead(diff, rest);
      }
      d := j.ExtendReceive(s);
    }
    if !AddIntsValid(dc_pred, d) {
      return false, 0;
    }
    return true, dc_pred + d;
  }

  lemma CategoryZero(v: int)
    ensures Category(v) == 0 <==> v == 0
  {
  }

  lemma DcOpen(diff: int, t: CodeTable, rest: nat)
    requires DiffOk(diff)
    ensures Category(diff) < 256
    ensures PutDc(diff, t, rest) == PutCode(t, Category(diff), if diff == 0 then rest else PutValue(diff, rest))
    ensures DcBits(diff, t) == t[Category(diff)].1 + Category(diff)
  {
    DiffCategory(diff);
  }

  /** The matrix of a block: coefficients times the quantisation table, in their places, 16 bits wide. */
  ghost predicate Filled(data: seq<int>, du: Coefs, dq: seq<nat>, k: nat)
    requires |data| == 64 && |dq| == 64
  {
    && data[0] == Short(du[0] * dq[0])
    && forall t :: 1 <= t < 64 ==> data[Dezigzag(t)] == if t < k then Short(du[t] * dq[Dezigzag(t)]) else 0
  }

  /** Zeros in the block are zeros in the matrix. */
  lemma FilledOver(data: seq<int>, du: Coefs, dq: seq<nat>, k: nat, p: nat)
    requires |data| == 64 && |dq| == 64 && Filled(data, du, dq, k) && k <= p && forall t :: k <= t < p && t < 64 ==> du[t] == 0
    ensures Filled(data, du, dq, p)
  {
    hide Dezigzag;
  }

  lemma FilledOne(data: seq<int>, du: Coefs, dq: seq<nat>, p: nat)
    requires |data| == 64 && |dq| == 64 && Filled(data, du, dq, p) && 1 <= p < 64
    ensures Filled(data[Dezigzag(p) := Short(du[p] * dq[Dezigzag(p)])], du, dq, p + 1)
  {
    hide Dezigzag, Short;
    var z := Dezigzag(p);
    var data' := data[z := Short(du[p] * dq[z])];
    ZigZagZero();
    if z == 0 { PlacesDiffer(0, p); }
    forall t | 1 <= t < 64
      ensures data'[Dezigzag(t)] == if t < p + 1 then Short(du[t] * dq[Dezigzag(t)]) else 0
    {
      if Dezigzag(t) == z { PlacesDiffer(t, p); }
    }
  }

  lemma ZigZagZero()
    ensures Dezigzag(0) == 0
  {
  }

  /** Symbol `i` starts the coefficients from `k` on, and means what comes next among them. */
  ghost predicate AcNext(du: Coefs, t: CodeTable, c: Coding, k: nat, rest: nat, i: nat)
    requires 1 <= k < 64
  {
    var v, p := PutAc(du, t, k, rest), NextNonzero(du, k);
    && i < |c.values| && StartsWith(c.lens, i, v) && i < |c.lens|
    && var m, w, b := Meaning(c.values[i], Drop(v, c.lens[i])),
                      Drop(Drop(v, c.lens[i]), c.values[i] % 16), c.lens[i] + c.values[i] % 16;
      if p == 64 then m == EndOfBlock && w == rest && b == AcBits(du, t, k)
      else if p - k >= 16 then
        m == Zeros && w == PutAc(du, t, k + 16, rest) && b + AcBits(du, t, k + 16) == AcBits(du, t, k)
      else
        m == Coef(p - k, du[p]) && w == PutAc(du, t, p + 1, rest) && b + AcBits(du, t, p + 1) == AcBits(du, t, k)
  }

  lemma AcAhead(du: Coefs, t: CodeTable, c: Coding, k: nat, rest: nat) returns (i: nat)
    requires AcTable(t, c) && 1 <= k < 64
    ensures AcNext(du, t, c, k, rest, i)
  {
    hide PutAc, AcBits, PutCode, PutValue, Category, StartsWith, Code, Drop, Extend, Rev, AcTable;
    var p := NextNonzero(du, k);
    AcSymbols(t, c);
    if p == 64 {
      AcEnd(du, t, k);
      i := CodeAhead(t, c, EOB, rest);
      DropNone(rest);
    } else if p - k >= 16 {
      AcZeros(du, t, k, p);
      i := CodeAhead(t, c, ZRL, PutAc(du, t, k + 16, rest));
      DropNone(PutAc(du, t, k + 16, rest));
    } else {
      AcValue(du, t, k, p);
      var cat := Category(du[p]);
      var after := PutAc(du, t, p + 1, rest);
      RunSymbol(t, c, p - k, cat);
      i := CodeAhead(t, c, RunCat(p - k, cat), PutValue(du[p], after));
      ValueAhead(du[p], after);
    }
  }

  lemma AcSymbols(t: CodeTable, c: Coding)
    requires AcTable(t, c)
    ensures HasSymbol(t, c, EOB) && HasSymbol(t, c, ZRL)
  {
  }

  lemma RunSymbol(t: CodeTable, c: Coding, run: nat, cat: nat)
    requires AcTable(t, c) && run < 16 && 1 <= cat <= MAX_AC
    ensures HasSymbol(t, c, RunCat(run, cat))
    ensures RunCat(run, cat) % 16 == cat && RunCat(run, cat) / 16 == run && RunCat(run, cat) < 256
  {
  }

  /** The block is decoded and its bits, no others, are gone. */
  ghost predicate Decoded(k: Wanted, dequant: seq<nat>, dc: int, data: seq<int>, stream: nat, spent: int)
    requires k.Block? && |data| == 64 && |dequant| == 64
  {
    && DiffOk(k.du[0] - k.pred) && dc == k.du[0] && Filled(data, k.du, dequant, 64) && stream == k.rest
    && spent == BlockBits(k.du, k.pred, k.dcT, k.acT)
  }

  /** `stbi__jpeg_decode_block`: when a written block comes next, the matrix gets its coefficients, unless
      the first one is too large for 16 bits, and the reader is behind it. */
  method DecodeBlock(j: Reader, data: array<int>, hdc: JTable, hac: JTable, fac: seq<int>, dc_pred: int, dequant: seq<nat>,
                     ghost dcC: Coding, ghost acC: Coding, ghost k: Wanted)
    returns (ok: bool, dc: int)
    requires j.Valid() && data.Length == 64 && |dequant| == 64 && Tables(hdc, dcC) && Tables(hac, acC)
    requires FacHolds(fac, hac, acC.lens) && dequant[0] <= 65535
    requires k.Block? ==> k.dcC == dcC && k.acC == acC && k.pred == dc_pred && Comes(k, j.Stream(), j.left)
    requires (data as object) !in hdc.Repr() && (data as object) !in hac.Repr()
    modifies j`code_buffer, j`code_bits, j`marker, j`nomore, j`left, j.s, data
    ensures ok ==> j.Valid()
    ensures k.Block? ==> (ok <==> DcAccepted(k.du[0], dequant[0]))
    ensures k.Block? && ok ==> Decoded(k, dequant, dc, data[..], j.Stream(), old(j.left) - j.left)
  {
    hide PutDc, PutAc, AcBits, DcBits, Tables, FacHolds, Dezigzag, DcTable, AcTable, Reader.Valid, Comes, PutBlock, BlockBits,
      Filled, DiffOk, Mul2ShortsValid;
    ghost var known := k.Block?;
    ghost var diff, t, rest := 0, EmptyTable(), 0;
    if known {
      ComesOpen(k, j.Stream(), j.left);
      diff, t, rest := k.du[0] - k.pred, k.dcT, PutAc(k.du, k.acT, 1, k.rest);
    }
    ok, dc := DecodeDc(j, hdc, dc_pred, dcC, t, diff, rest, known);
    if !ok {
      return false, dc;
    }
    ClearBlock(data);
    if !Mul2ShortsValid(Short(dc), Short(dequant[0])) {
      return false, dc;
    }
    data[0] := Short(dc * dequant[0]);
    if known {
      FilledStart(data[..], k.du, dequant);
    }
    ok := DecodeAcs(j, data, hac, fac, dequant, acC, k);
  }

  method ClearBlock(data: array<int>)
    requires data.Length == 64
    modifies data
    ensures forall z :: 0 <= z < 64 ==> data[z] == 0
  {
    for i := 0 to 64
      invariant forall z :: 0 <= z < i ==> data[z] == 0
    {
      data[i] := 0;
    }
  }

  lemma FilledStart(data: seq<int>, du: Coefs, dq: seq<nat>)
    requires |data| == 64 && |dq| == 64 && data[0] == Short(du[0] * dq[0]) && forall z :: 1 <= z < 64 ==> data[z] == 0
    ensures Filled(data, du, dq, 1)
  {
    hide Dezigzag, Short;
    ZigZagZero();
    forall t | 1 <= t < 64 ensures data[Dezigzag(t)] == 0 {
      if Dezigzag(t) == 0 { PlacesDiffer(0, t); }
    }
  }

  lemma ComesOpen(k: Wanted, v: nat, left: int)
    requires k.Block? && Comes(k, v, left)
    ensures |k.du| == 64 && DiffOk(k.du[0] - k.pred) && -32768 <= k.du[0] <= 32767
    ensures DcTable(k.dcT, k.dcC) && AcTable(k.acT, k.acC)
    ensures v == PutDc(k.du[0] - k.pred, k.dcT, PutAc(k.du, k.acT, 1, k.rest))
    ensures BlockBits(k.du, k.pred, k.dcT, k.acT) == DcBits(k.du[0] - k.pred, k.dcT) + AcBits(k.du, k.acT, 1)
    ensures left >= DcBits(k.du[0] - k.pred, k.dcT) + AcBits(k.du, k.acT, 1)
  {
  }

  ghost function EmptyTable(): CodeTable {
    seq(256, _ => (0, 0))
  }

  /** The reader and the matrix are at coefficient `k` of a known block. */
  ghost predicate AtAc(want: Wanted, k: nat, v: nat, left: int, data: seq<int>, dq: seq<nat>)
    requires |data| == 64 && |dq| == 64
  {
    want.Block? ==>
      && 1 <= k <= 64 && v == PutAc(want.du, want.acT, k, want.rest) && left >= AcBits(want.du, want.acT, k)
      && Filled(data, want.du, dq, k)
  }

  /** The AC loop. */
  method DecodeAcs(j: Reader, data: array<int>, hac: JTable, fac: seq<int>, dequant: seq<nat>, ghost acC: Coding, ghost want: Wanted)
    returns (ok: bool)
    requires j.Valid() && data.Length == 64 && |dequant| == 64 && Tables(hac, acC) && FacHolds(fac, hac, acC.lens)
    requires (data as object) !in hac.Repr() && (want.Block? ==> AcTable(want.acT, acC))
    requires AtAc(want, 1, j.Stream(), j.left, data[..], dequant)
    modifies j`code_buffer, j`code_bits, j`marker, j`nomore, j`left, j.s, data
    ensures ok ==> j.Valid()
    ensures want.Block? ==>
      && ok && Filled(data[..], want.du, dequant, 64) && j.Stream() == want.rest
      && j.left == old(j.left) - AcBits(want.du, want.acT, 1)
  {
    hide PutAc, AcBits, Tables, FacHolds, AcTable, Filled, Reader.Valid, IsCoefs, JTable.Repr;
    TablesOf(hac, acC);
    var k := 1;
    while k < 64
      invariant 1 <= k && j.Valid() && Tables(hac, acC) && FacHolds(fac, hac, acC.lens)
      invariant AtAc(want, k, j.Stream(), j.left, data[..], dequant)
      invariant want.Block? ==> j.left - AcBits(want.du, want.acT, k) == old(j.left) - AcBits(want.du, want.acT, 1)
    {
      var more;
      ok, more, k := DecodeOneAc(j, data, hac, fac, dequant, k, acC, want);
      if !ok || !more {
        return ok;
      }
    }
    if want.Block? {
      AcDone(want.du, want.acT, want.rest);
    }
    ok := true;
  }

  /** One step: the end, 16 zeros, or a run of zeros and a coefficient. */
  method DecodeOneAc(j: Reader, data: array<int>, hac: JTable, fac: seq<int>, dequant: seq<nat>, k: nat, ghost acC: Coding,
                     ghost want: Wanted)
    returns (ok: bool, more: bool, k': nat)
    requires j.Valid() && data.Length == 64 && |dequant| == 64 && Tables(hac, acC) && FacHolds(fac, hac, acC.lens)
    requires (data as object) !in hac.Repr() && (want.Block? ==> AcTable(want.acT, acC)) && 1 <= k < 64
    requires AtAc(want, k, j.Stream(), j.left, data[..], dequant)
    modifies j`code_buffer, j`code_bits, j`marker, j`nomore, j`left, j.s, data
    ensures ok ==> j.Valid() && Tables(hac, acC) && FacHolds(fac, hac, acC.lens) && k' > k
    ensures want.Block? ==> ok
    ensures want.Block? && more ==>
      && k' <= 64 && AtAc(want, k', j.Stream(), j.left, data[..], dequant)
      && j.left - AcBits(want.du, want.acT, k') == old(j.left) - AcBits(want.du, want.acT, k)
    ensures want.Block? && !more ==>
      && Filled(data[..], want.du, dequant, 64) && j.Stream() == want.rest
      && j.left == old(j.left) - AcBits(want.du, want.acT, k)
  {
    hide PutAc, AcBits, Tables, FacHolds, AcTable, AcNext, Filled, Reader.Valid, IsCoefs, Dezigzag, Short, StartsWith, Meaning,
      Drop, NextNonzero, AtAc, Reader.Stream, JTable.Shape;
    ghost var i, v, left, before := 0, j.Stream(), j.left, data[..];
    if want.Block? {
      AtIs(want, k, v, left, before, dequant);
      i := AcAhead(want.du, want.acT, acC, k, want.rest);
      AcFits(want.du, want.acT, acC, k, want.rest, i);
    }
    var a := NextAc(j, hac, fac, acC, i);
    if a == Bad {
      return false, false, k + 1;
    }
    if want.Block? {
      AcStepped(want, acC, k, v, left, j.Stream(), j.left, a, before, dequant, i);
    }
    ok, more, k' := true, a != EndOfBlock, k + 16;
    if a.Coef? {
      k' := k + a.run;
      var zig := Dezigzag(k');
      k' := k' + 1;
      data[zig] := Short(a.value * dequant[zig]);
      assert data[..] == Stored(before, a, k, dequant);
    }
  }

  /** The matrix after a step. */
  ghost function Stored(data: seq<int>, a: Ac, k: nat, dq: seq<nat>): (r: seq<int>)
    requires |data| == 64 && |dq| == 64
    ensures |r| == 64
  {
    if a.Coef? && a.run <= 15 then
      var z := Dezigzag(k + a.run);
      data[z := Short(a.value * dq[z])]
    else data
  }

  lemma AtIs(want: Wanted, k: nat, v: nat, left: int, data: seq<int>, dq: seq<nat>)
    requires |data| == 64 && |dq| == 64 && want.Block? && AtAc(want, k, v, left, data, dq)
    ensures 1 <= k <= 64 && v == PutAc(want.du, want.acT, k, want.rest) && left >= AcBits(want.du, want.acT, k)
  {
  }

  /** The data has room for the next symbol and its magnitude. */
  lemma AcFits(du: Coefs, t: CodeTable, c: Coding, k: nat, rest: nat, i: nat)
    requires 1 <= k < 64 && AcNext(du, t, c, k, rest, i)
    ensures var v := PutAc(du, t, k, rest);
      && i < |c.values| && i < |c.lens| && StartsWith(c.lens, i, v)
      && c.lens[i] + c.values[i] % 16 <= AcBits(du, t, k) && Meaning(c.values[i], Drop(v, c.lens[i])) != Bad
  {
    hide PutAc, AcBits, StartsWith, Drop, NextNonzero, Extend, Rev, IsCoefs;
  }

  /** Where a step leads. */
  ghost predicate AcNow(want: Wanted, a: Ac, k: nat, v: nat, left: int, left0: int, data: seq<int>, dq: seq<nat>)
    requires want.Block? && |data| == 64 && |dq| == 64 && 1 <= k < 64
  {
    if a == EndOfBlock then
      Filled(data, want.du, dq, 64) && v == want.rest && left == left0 - AcBits(want.du, want.acT, k)
    else
      var k' := if a.Coef? then k + a.run + 1 else k + 16;
      && k' <= 64 && AtAc(want, k', v, left, data, dq)
      && left - AcBits(want.du, want.acT, k') == left0 - AcBits(want.du, want.acT, k)
  }

  lemma AcStepped(want: Wanted, c: Coding, k: nat, v: nat, left: int, v': nat, left': int, a: Ac,
                  data: seq<int>, dq: seq<nat>, i: nat)
    requires |data| == 64 && |dq| == 64 && want.Block? && 1 <= k < 64
    requires AtAc(want, k, v, left, data, dq) && AcNext(want.du, want.acT, c, k, want.rest, i)
    requires i < |c.values| && i < |c.lens|
    requires a == Meaning(c.values[i], Drop(v, c.lens[i])) && a != Bad && (a.Coef? ==> a.run <= 15)
    requires v' == Drop(Drop(v, c.lens[i]), c.values[i] % 16) && left' == left - c.lens[i] - c.values[i] % 16
    ensures AcNow(want, a, k, v', left', left, Stored(data, a, k, dq), dq)
  {
    hide PutAc, AcBits, Filled, Dezigzag, Short, StartsWith, Meaning, Drop, IsCoefs;
    var du := want.du;
    var p := NextNonzero(du, k);
    if p == 64 {
      FilledOver(data, du, dq, k, 64);
    } else if p - k >= 16 {
      FilledOver(data, du, dq, k, k + 16);
    } else {
      FilledOver(data, du, dq, k, p);
      FilledOne(data, du, dq, p);
    }
  }

  lemma AcDone(du: Coefs, t: CodeTable, rest: nat)
    ensures PutAc(du, t, 64, rest) == rest && AcBits(du, t, 64) == 0
  {
  }
}
