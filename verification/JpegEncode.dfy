/** The entropy-coding half of `stbiw__jpg_processDU`. */
module JpegEncode {
  import opened Bits
  import opened JpegBits
  import opened JpegCoef

  /** Codes of up to 16 bits, each below two to its length. */
  ghost predicate Sane(t: CodeTable) {
    forall rs :: 0 <= rs < 256 ==> t[rs].1 <= 16 && t[rs].0 < Pow2(t[rs].1)
  }

  /** What the writer holds followed by `rest`. */
  ghost function With(w: Writer, rest: nat): nat
    requires w.Valid()
    reads w
  {
    Put(w.Value(), w.Size(), rest)
  }

  method WriteCode(w: Writer, t: CodeTable, rs: nat)
    requires w.Valid() && Sane(t) && rs < 256
    modifies w
    ensures w.Valid() && old(w.out) <= w.out && w.Size() == old(w.Size()) + t[rs].1
    ensures forall rest: nat :: With(w, rest) == old(With(w, PutCode(t, rs, rest)))
  {
    hide Put, Rev, Pow2;
    ghost var v, n := w.Value(), w.Size();
    w.WriteBits(t[rs].0, t[rs].1);
    PutAppended(v, n, Rev(t[rs].0, t[rs].1), t[rs].1);
  }

  method WriteValue(w: Writer, val: int, n: nat, code: nat)
    requires w.Valid() && val != 0 && n == Category(val) <= 16 && code == Magnitude(val) < Pow2(n)
    modifies w
    ensures w.Valid() && old(w.out) <= w.out && w.Size() == old(w.Size()) + n
    ensures forall rest: nat :: With(w, rest) == old(With(w, PutValue(val, rest)))
  {
    hide Put, Rev, Pow2, Category, Magnitude;
    ghost var v, size := w.Value(), w.Size();
    w.WriteBits(code, n);
    PutAppended(v, size, Rev(code, n), n);
  }

  method EncodeDc(w: Writer, diff: int, t: CodeTable)
    requires w.Valid() && Sane(t) && DiffOk(diff)
    modifies w
    ensures w.Valid() && old(w.out) <= w.out && w.Size() == old(w.Size()) + DcBits(diff, t)
    ensures forall rest: nat :: With(w, rest) == old(With(w, PutDc(diff, t, rest)))
  {
    hide Put, Rev, Pow2, PutCode, PutValue, Magnitude, With;
    if diff == 0 {
      WriteCode(w, t, 0);
    } else {
      hide Category;
      DiffCategory(diff);
      var code, n := CalcBits(diff);
      WriteCode(w, t, n);
      WriteValue(w, diff, n, code);
    }
  }

  /** The last coefficient that is not zero, 0 if there is none after the first. */
  method LastNonzero(du: Coefs) returns (end0pos: nat)
    ensures end0pos < 64 && (end0pos > 0 ==> du[end0pos] != 0)
    ensures forall k :: end0pos < k < 64 ==> du[k] == 0
  {
    end0pos := 63;
    while end0pos > 0 && du[end0pos] == 0
      invariant end0pos < 64 && forall k :: end0pos < k < 64 ==> du[k] == 0
    {
      end0pos := end0pos - 1;
    }
  }

  lemma {:induction false} NextIs(du: Coefs, i: nat, p: nat)
    requires i <= p <= 64 && (forall k :: i <= k < p ==> du[k] == 0) && (p < 64 ==> du[p] != 0)
    ensures NextNonzero(du, i) == p
    decreases p - i
  {
    if i < p { NextIs(du, i + 1, p); }
  }

  lemma AcEnd(du: Coefs, t: CodeTable, i: nat)
    requires 1 <= i <= 64 && NextNonzero(du, i) == 64
    ensures forall rest: nat :: PutAc(du, t, i, rest) == if i == 64 then rest else PutCode(t, EOB, rest)
    ensures AcBits(du, t, i) == if i == 64 then 0 else t[EOB].1
  {
  }

  lemma AcZeros(du: Coefs, t: CodeTable, i: nat, p: nat)
    requires 1 <= i && i + 16 <= p < 64 && NextNonzero(du, i) == p
    ensures forall rest: nat :: PutAc(du, t, i, rest) == PutCode(t, ZRL, PutAc(du, t, i + 16, rest))
    ensures AcBits(du, t, i) == t[ZRL].1 + AcBits(du, t, i + 16)
  {
  }

  lemma AcValue(du: Coefs, t: CodeTable, i: nat, p: nat)
    requires 1 <= i <= p < 64 && p < i + 16 && NextNonzero(du, i) == p
    ensures du[p] != 0 && 1 <= Category(du[p]) <= MAX_AC
    ensures forall rest: nat :: (
      PutAc(du, t, i, rest) == PutCode(t, RunCat(p - i, Category(du[p])), PutValue(du[p], PutAc(du, t, p + 1, rest))))
    ensures AcBits(du, t, i) == t[RunCat(p - i, Category(du[p]))].1 + Category(du[p]) + AcBits(du, t, p + 1)
  {
    CoefCategory(du, p);
  }

  /** The AC coefficients. */
  method EncodeAc(w: Writer, du: Coefs, t: CodeTable)
    requires w.Valid() && Sane(t)
    modifies w
    ensures w.Valid() && old(w.out) <= w.out && w.Size() == old(w.Size()) + AcBits(du, t, 1)
    ensures forall rest: nat :: With(w, rest) == old(With(w, PutAc(du, t, 1, rest)))
  {
    hide With, Put, PutCode, PutValue, PutAc, AcBits, NextNonzero, Sane;
    var end0pos := LastNonzero(du);
    if end0pos == 0 {
      NextIs(du, 1, 64);
      AcEnd(du, t, 1);
      WriteCode(w, t, EOB);
      return;
    }
    var i := 1;
    while i <= end0pos
      invariant 1 <= i <= end0pos + 1 && w.Valid() && old(w.out) <= w.out
      invariant w.Size() + AcBits(du, t, i) == old(w.Size()) + AcBits(du, t, 1)
      invariant forall rest: nat :: With(w, PutAc(du, t, i, rest)) == old(With(w, PutAc(du, t, 1, rest)))
    {
      var startpos := i;
      while du[i] == 0 && i <= end0pos
        invariant startpos <= i <= end0pos && forall k :: startpos <= k < i ==> du[k] == 0
        modifies {}
      {
        i := i + 1;
      }
      EncodeRun(w, du, t, startpos, i);
      i := i + 1;
    }
    NextIs(du, i, 64);
    AcEnd(du, t, i);
    if end0pos != 63 {
      WriteCode(w, t, EOB);
    }
  }

  /** A run of zeros and the coefficient behind it. */
  method EncodeRun(w: Writer, du: Coefs, t: CodeTable, startpos: nat, i: nat)
    requires w.Valid() && Sane(t) && 1 <= startpos <= i < 64 && du[i] != 0
    requires forall k :: startpos <= k < i ==> du[k] == 0
    modifies w
    ensures w.Valid() && old(w.out) <= w.out
    ensures w.Size() + AcBits(du, t, i + 1) == old(w.Size()) + AcBits(du, t, startpos)
    ensures forall rest: nat :: With(w, PutAc(du, t, i + 1, rest)) == old(With(w, PutAc(du, t, startpos, rest)))
  {
    hide With, Put, PutCode, PutValue, PutAc, AcBits, NextNonzero, Sane, Category, Magnitude;
    var nrzeroes := i - startpos;
    ghost var at := startpos;
    if nrzeroes >= 16 {
      var lng := nrzeroes / 16;
      for nrmarker := 1 to lng + 1
        invariant at == startpos + 16 * (nrmarker - 1) && w.Valid() && old(w.out) <= w.out
        invariant w.Size() + AcBits(du, t, at) == old(w.Size()) + AcBits(du, t, startpos)
        invariant forall rest: nat :: With(w, PutAc(du, t, at, rest)) == old(With(w, PutAc(du, t, startpos, rest)))
      {
        NextIs(du, at, i);
        AcZeros(du, t, at, i);
        WriteCode(w, t, ZRL);
        at := at + 16;
      }
      nrzeroes := nrzeroes % 16;
    }
    NextIs(du, at, i);
    AcValue(du, t, at, i);
    var code, n := CalcBits(du[i]);
    WriteCode(w, t, RunCat(nrzeroes, n));
    WriteValue(w, du[i], n, code);
  }

  /** One block after a block whose first coefficient was `pred`. */
  method EncodeBlock(w: Writer, du: Coefs, pred: int, dc: CodeTable, ac: CodeTable) returns (dc0: int)
    requires w.Valid() && Sane(dc) && Sane(ac) && DiffOk(du[0] - pred)
    modifies w
    ensures w.Valid() && old(w.out) <= w.out && dc0 == du[0]
    ensures w.Size() == old(w.Size()) + BlockBits(du, pred, dc, ac)
    ensures forall rest: nat :: With(w, rest) == old(With(w, PutBlock(du, pred, dc, ac, rest)))
  {
    hide With, PutDc, PutAc, AcBits, DcBits, Sane;
    EncodeDc(w, du[0] - pred, dc);
    EncodeAc(w, du, ac);
    dc0 := du[0];
  }
}
