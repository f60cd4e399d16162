/** The LZW decoder of GIF images (appendix F of GIF89a): `stbi__process_gif_raster`, whose table links
    each entry to a shorter one, against the string table of the standard. */
module GifLzw {
  import opened Bits
  import opened Streams
  import opened GifRaster

  // ---------------------------------------------------------------- the string table

  const TABLE_SIZE: nat := 8192
  const LAST_GROWTH: nat := 4096

  /** The strings of all codes so far (none for the clear and end codes), the width of the next code, the
      code before, and whether the first clear code is still missing. */
  datatype State = State(clear: nat, cs: nat, dict: seq<seq<byte>>, size: nat, last: Code, first: bool)

  datatype Code = NoCode | Code(c: nat)

  /** A table of single symbols; symbols are kept in a byte. */
  ghost function Singles(clear: nat): (d: seq<seq<byte>>)
    ensures |d| == clear + 2
  {
    seq(clear, i requires 0 <= i < clear => [i % 256]) + [[], []]
  }

  ghost function Start(cs: nat, first: bool): State {
    State(Pow2(cs), cs, Singles(Pow2(cs)), cs + 1, NoCode, first)
  }

  ghost predicate IsString(st: State, c: int) {
    0 <= c < |st.dict| && c != st.clear && c != st.clear + 1
  }

  ghost predicate Good(st: State) {
    && st.clear == Pow2(st.cs) && 1 <= st.size <= 13 && st.clear + 2 <= |st.dict| <= TABLE_SIZE
    && (forall c :: IsString(st, c) ==> st.dict[c] != [])
    && if st.last == NoCode then |st.dict| == st.clear + 2 else IsString(st, st.last.c)
  }

  /** Codes get wider when the size of the table is a multiple of the codes the width can tell apart, up
      to 12 bits; `WidensWhenFull` shows when that is. */
  ghost function Widen(st: State): State {
    if Take(|st.dict|, st.size) == 0 && |st.dict| < LAST_GROWTH then st.(size := st.size + 1) else st
  }

  datatype Outcome = More(st: State, out: seq<byte>) | End | Fail

  /** A code's string, or, for the code of the entry being made, the string before with its first symbol
      again. */
  ghost function StringOf(st: State, code: nat): (s: seq<byte>)
    requires Good(st) && st.last.Code? && (IsString(st, code) || code == |st.dict|)
    ensures s != []
  {
    if code < |st.dict| then st.dict[code] else st.dict[st.last.c] + [st.dict[st.last.c][0]]
  }

  /** The state after a data code, before its width is looked at. */
  ghost function Unwidened(st: State, code: nat): State
    requires Good(st) && if st.last == NoCode then code < st.clear else IsString(st, code) || code == |st.dict|
  {
    if st.last == NoCode then st.(last := Code(code))
    else st.(dict := st.dict + [st.dict[st.last.c] + [StringOf(st, code)[0]]], last := Code(code))
  }

  ghost function Step(st: State, code: nat): Outcome
    requires Good(st)
  {
    if code == st.clear then More(Start(st.cs, false), [])
    else if code == st.clear + 1 then End
    else if st.first then Fail
    else if st.last == NoCode then
      if code < st.clear then More(Widen(Unwidened(st, code)), st.dict[code]) else Fail
    else if code > |st.dict| || |st.dict| == TABLE_SIZE then Fail
    else More(Widen(Unwidened(st, code)), StringOf(st, code))
  }

  lemma SingleAt(clear: nat, c: nat)
    requires c < clear + 2
    ensures Singles(clear)[c] == if c < clear then [c % 256] else []
  {
  }

  lemma GoodStart(cs: nat, first: bool)
    requires cs <= 12
    ensures Good(Start(cs, first))
  {
    hide Singles;
    Pow2Mono(cs, 12);
    Pow2Values();
    var st := Start(cs, first);
    forall c | IsString(st, c) ensures st.dict[c] != [] {
      SingleAt(st.clear, c);
    }
  }

  lemma {:induction false} MultipleOf(v: nat, n: nat)
    requires v > 0 && Take(v, n) == 0
    ensures v >= Pow2(n)
  {
    if n > 0 { MultipleOf(v / 2, n - 1); }
  }

  lemma GoodWiden(st: State)
    requires Good(st)
    ensures Good(Widen(st)) && Widen(st).cs == st.cs
  {
    if Widen(st) != st {
      MultipleOf(|st.dict|, st.size);
      Pow2Values();
      if st.size >= 12 { Pow2Mono(12, st.size); }
    }
  }

  /** The width suffices for the table so far; with no code yet the table may just fill it. */
  ghost predicate WideEnough(st: State) {
    |st.dict| < Pow2(st.size) || |st.dict| >= LAST_GROWTH || (st.last == NoCode && |st.dict| == Pow2(st.size))
  }

  lemma FullTest(d: nat, n: nat)
    requires 0 < d <= Pow2(n)
    ensures Take(d, n) == 0 <==> d == Pow2(n)
  {
    if Take(d, n) == 0 { MultipleOf(d, n); }
    ShlPow2(n, 0);
    TakePut(0, n, 1);
  }

  /** The first width suffices just when there are two symbols or more. */
  lemma StartIsWide(cs: nat, first: bool)
    ensures WideEnough(Start(cs, first)) <==> cs >= 1
  {
    if cs >= 1 {
      Pow2Mono(1, cs);
      assert Pow2(cs + 1) == 2 * Pow2(cs) && Pow2(1) == 2;
    }
  }

  /** From a width that suffices the width grows exactly when the table fills it, and so it still suffices. */
  lemma WidensWhenFull(st: State, code: nat)
    requires Good(st) && WideEnough(st)
    requires if st.last == NoCode then code < st.clear else IsString(st, code) || code == |st.dict|
    ensures var u := Unwidened(st, code);
      && (Widen(u) != u <==> |u.dict| == Pow2(u.size) && |u.dict| < LAST_GROWTH)
      && WideEnough(Widen(u))
  {
    hide StringOf, Take;
    var u := Unwidened(st, code);
    if |u.dict| < LAST_GROWTH {
      FullTest(|u.dict|, u.size);
      assert Pow2(u.size + 1) == 2 * Pow2(u.size);
    }
  }

  /** Every step keeps the width sufficient: data codes and the clear code. */
  lemma StepIsWide(st: State, code: nat)
    requires Good(st) && 1 <= st.cs <= 12 && WideEnough(st) && Step(st, code).More?
    ensures WideEnough(Step(st, code).st)
  {
    hide WideEnough, Widen, Unwidened, StringOf, Start;
    if code == st.clear {
      StartIsWide(st.cs, false);
    } else {
      WidensWhenFull(st, code);
    }
  }

  /** The state behind a list of codes, unless they end or fail. */
  ghost function Run(st: State, codes: seq<nat>): Outcome
    requires Good(st) && st.cs <= 12
    decreases |codes|
  {
    if codes == [] then More(st, [])
    else match Step(st, codes[0])
      case More(next, _) => GoodStep(st, codes[0]); Run(next, codes[1..])
      case o => o
  }

  /** The code of a string, or that of the entry being made. */
  ghost predicate CanCome(st: State, c: nat) {
    c < |st.dict| || (st.last.Code? && c == |st.dict|)
  }

  /** So it suffices after any codes, and what can come next fits it, until the table has 4096 entries. */
  lemma {:induction false} RunIsWide(st: State, codes: seq<nat>)
    requires Good(st) && 1 <= st.cs <= 12 && WideEnough(st) && Run(st, codes).More?
    ensures var u := Run(st, codes).st;
      && Good(u) && u.cs == st.cs && WideEnough(u)
      && (|u.dict| < LAST_GROWTH ==> forall c: nat :: CanCome(u, c) ==> c < Pow2(u.size))
    decreases |codes|
  {
    hide Step, Good;
    if codes != [] {
      StepIsWide(st, codes[0]);
      GoodStep(st, codes[0]);
      RunIsWide(Step(st, codes[0]).st, codes[1..]);
    }
  }

  lemma GoodStep(st: State, code: nat)
    requires Good(st) && st.cs <= 12 && Step(st, code).More?
    ensures Good(Step(st, code).st) && Step(st, code).st.cs == st.cs
  {
    hide Widen;
    GoodStart(st.cs, false);
    if code != st.clear {
      GoodWiden(Unwidened(st, code));
    }
  }

  /** The symbols of the codes in the next `n` bits `v`, and whether all the codes made sense. */
  ghost function Expand(st: State, v: nat, n: nat): (seq<byte>, bool)
    requires Good(st) && st.cs <= 12
    decreases n
  {
    if n < st.size then ([], true)
    else match Step(st, Take(v, st.size))
      case End => ([], true)
      case Fail => ([], false)
      case More(next, out) =>
        GoodStep(st, Take(v, st.size));
        var r := Expand(next, Drop(v, st.size), n - st.size);
        (out + r.0, r.1)
  }

  /** The symbols of a raster with these data bytes. */
  ghost function Symbols(cs: nat, data: seq<byte>): (seq<byte>, bool)
    requires cs <= 12
  {
    GoodStart(cs, true);
    Expand(Start(cs, true), LE(data), 8 * |data|)
  }

  // ---------------------------------------------------------------- blocks of data

  /** The data bytes ahead, `len` of them in the current block; a block cut short is filled with zeros. */
  ghost function Data(s: seq<byte>, len: nat): (d: seq<byte>)
    decreases |s|
  {
    if s == [] then seq(len, _ => 0)
    else if len > 0 then [s[0]] + Data(s[1..], len - 1)
    else if s[0] == 0 then []
    else Data(s[1..], s[0])
  }

  /** What follows the empty block. */
  ghost function Behind(s: seq<byte>, len: nat): seq<byte>
    decreases |s|
  {
    if s == [] then []
    else if len > 0 then Behind(s[1..], len - 1)
    else if s[0] == 0 then s[1..]
    else Behind(s[1..], s[0])
  }

  lemma {:induction false} BehindSkip(s: seq<byte>, len: nat)
    ensures Behind(s, len) == Behind(if len <= |s| then s[len..] else [], 0)
    decreases |s|
  {
    if s != [] && len > 0 {
      BehindSkip(s[1..], len - 1);
      assert len <= |s| ==> s[1..][len - 1..] == s[len..];
    } else {
      assert len == 0 ==> s[len..] == s;
    }
  }

  /** Reading one more byte of data. */
  method LoadByte(s: ByteStream, len: nat, bits: nat, valid_bits: nat) returns (more: bool, len': nat, bits': nat)
    requires s.Valid() && bits < Pow2(valid_bits) && len < 256
    modifies s
    ensures s.Valid() && len' < 256 && (more ==> Behind(s.Rest(), len') == Behind(old(s.Rest()), len))
    ensures !more ==> Data(old(s.Rest()), len) == [] && s.Rest() == Behind(old(s.Rest()), len)
    ensures more ==>
      && bits' < Pow2(valid_bits + 8) && |Data(s.Rest(), len')| == |Data(old(s.Rest()), len)| - 1
      && Put(bits', valid_bits + 8, LE(Data(s.Rest(), len'))) == Put(bits, valid_bits, LE(Data(old(s.Rest()), len)))
  {
    hide Put, LE, Pow2;
    len', bits' := len, bits;
    if len == 0 {
      NextBlock(s.Rest());
      var n := s.Get8();
      len' := n;
      if n == 0 {
        return false, 0, bits;
      }
    }
    NextByte(s.Rest(), len');
    ghost var data := Data(s.Rest(), len');
    var b := s.Get8();
    len' := len' - 1;
    PutPut(bits, valid_bits, b, 8, LE(Data(s.Rest(), len')));
    PackByte(bits, valid_bits, b);
    LEFirst(b, Data(s.Rest(), len'));
    bits' := Put(bits, valid_bits, b);
    more := true;
  }

  lemma LEFirst(b: byte, rest: seq<byte>)
    ensures LE([b] + rest) == Put(b, 8, LE(rest))
  {
    assert ([b] + rest)[1..] == rest;
  }

  lemma PackByte(bits: nat, n: nat, b: byte)
    requires bits < Pow2(n)
    ensures Put(bits, n, b) < Pow2(n + 8)
  {
    Pow2Values();
    JoinBound(bits, n, b, 8);
  }

  lemma NextBlock(s: seq<byte>)
    ensures s == [] ==> Data(s, 0) == [] && Behind(s, 0) == []
    ensures s != [] && s[0] == 0 ==> Data(s, 0) == [] && Behind(s, 0) == s[1..]
    ensures s != [] && s[0] != 0 ==> Data(s, 0) == Data(s[1..], s[0]) && Behind(s, 0) == Behind(s[1..], s[0])
  {
  }

  lemma NextByte(s: seq<byte>, len: nat)
    requires len > 0
    ensures s == [] ==> Data(s, len) == [0] + Data(s, len - 1) && Behind(s, len) == Behind(s, len - 1)
    ensures s != [] ==> Data(s, len) == [s[0]] + Data(s[1..], len - 1) && Behind(s, len) == Behind(s[1..], len - 1)
  {
  }

  /** After the end code the rest of the blocks is skipped. */
  method SkipBlocks(s: ByteStream, len: nat)
    requires s.Valid() && len < 256
    modifies s
    ensures s.Valid() && s.Rest() == Behind(old(s.Rest()), len)
  {
    BehindSkip(s.Rest(), len);
    s.Skip(len);
    NextBlock(s.Rest());
    var n := s.Get8();
    while n > 0
      invariant s.Valid() && n < 256
      invariant Behind(old(s.Rest()), len) == if n == 0 then s.Rest() else Behind(s.Rest(), n)
      decreases |s.Rest()|, n
    {
      BehindSkip(s.Rest(), n);
      s.Skip(n);
      NextBlock(s.Rest());
      n := s.Get8();
    }
  }

  // ---------------------------------------------------------------- the linked table

  /** Entry `c` links to an earlier one and is the string of code `c`. */
  ghost predicate Entry(st: State, c: int, prefix: int, first: byte, suffix: byte)
    requires IsString(st, c)
  {
    && st.dict[c] != [] && first == st.dict[c][0]
    && if c < st.clear then prefix == -1 && st.dict[c] == [suffix]
       else 0 <= prefix < c && IsString(st, prefix) && st.dict[c] == st.dict[prefix] + [suffix]
  }

  lemma EntryKept(st: State, st': State, c: int, prefix: int, first: byte, suffix: byte)
    requires IsString(st, c) && Entry(st, c, prefix, first, suffix)
    requires st'.clear == st.clear && st.dict <= st'.dict
    ensures IsString(st', c) && Entry(st', c, prefix, first, suffix)
  {
  }

  /** The first entries are the single symbols. */
  ghost predicate HasSingles(st: State) {
    |st.dict| >= st.clear + 2 && forall c :: 0 <= c < st.clear ==> st.dict[c] == [c % 256]
  }

  class Decoder {
    const prefix: array<int>
    const first: array<byte>
    const suffix: array<byte>
    const raster: Raster

    ghost predicate Valid()
      reads this, raster, raster.out, raster.history
    {
      && prefix.Length == TABLE_SIZE && first.Length == TABLE_SIZE && suffix.Length == TABLE_SIZE && first != suffix
      && raster.Valid()
    }

    ghost predicate Holds(st: State)
      requires prefix.Length == TABLE_SIZE && first.Length == TABLE_SIZE && suffix.Length == TABLE_SIZE
      reads prefix, first, suffix
    {
      Good(st) && HasSingles(st) && forall c :: IsString(st, c) ==> Entry(st, c, prefix[c], first[c], suffix[c])
    }

    constructor (r: Raster)
      requires r.Valid()
      ensures Valid() && raster == r && fresh(prefix) && fresh(first) && fresh(suffix)
    {
      raster := r;
      prefix := new int[TABLE_SIZE];
      first := new byte[TABLE_SIZE];
      suffix := new byte[TABLE_SIZE];
    }

    /** `stbi__out_gif_code`: the prefixes first.  The recursion ends because entries point backwards. */
    method OutCode(code: nat, ghost st: State)
      requires Valid() && Holds(st) && IsString(st, code)
      modifies raster, raster.out, raster.history
      ensures Valid() && raster.syms == old(raster.syms) + st.dict[code]
      decreases code
    {
      assert Entry(st, code, prefix[code], first[code], suffix[code]);
      if prefix[code] >= 0 {
        OutCode(prefix[code], st);
      }
      raster.Emit(suffix[code]);
    }

    /** The entries of the single symbols. */
    method InitTable(cs: nat, clear: nat)
      requires Valid() && cs <= 12 && clear == Pow2(cs)
      modifies prefix, first, suffix
      ensures Valid() && Holds(Start(cs, true))
    {
      GoodStart(cs, true);
      for i := 0 to clear
        invariant forall c :: 0 <= c < i ==> prefix[c] == -1 && first[c] == c % 256 && suffix[c] == c % 256
      {
        prefix[i], first[i], suffix[i] := -1, i % 256, i % 256;
      }
    }

    /** Starting over keeps the single symbols' entries. */
    lemma Restart(st: State)
      requires prefix.Length == TABLE_SIZE && first.Length == TABLE_SIZE && suffix.Length == TABLE_SIZE
      requires Holds(st) && st.cs <= 12
      ensures Holds(Start(st.cs, false))
    {
      GoodStart(st.cs, false);
      var s := Start(st.cs, false);
      forall c | IsString(s, c) ensures Entry(s, c, prefix[c], first[c], suffix[c]) {
        assert Entry(st, c, prefix[c], first[c], suffix[c]);
        SingleAt(st.clear, c);
      }
    }

    /** One more entry, made before the test that its caller is out of room.  The comparison of the code
        with the table's new end never succeeds, and its other side is right for that code as well. */
    method AddEntry(avail: nat, code: nat, prev: nat, ghost st: State, ghost st': State)
      requires Valid() && Holds(st) && avail == |st.dict| < TABLE_SIZE && st.last == Code(prev)
      requires IsString(st, code) || code == avail
      requires st'.clear == st.clear && st'.cs == st.cs && st'.size == st.size && st'.last == Code(code)
      requires st'.dict == st.dict + [st.dict[prev] + [StringOf(st, code)[0]]]
      modifies prefix, first, suffix
      ensures Valid() && Holds(st')
    {
      hide Entry, Good;
      LastIsString(st);
      Linked(st, prev, prefix[prev], first[prev], suffix[prev]);
      if code < avail {
        Linked(st, code, prefix[code], first[code], suffix[code]);
      }
      ghost var ps, fs, ss := prefix[..], first[..], suffix[..];
      var head := first[prev];
      prefix[avail] := prev;
      first[avail] := head;
      suffix[avail] := if code == avail + 1 then head else first[code];
      Grown(st, st', code, suffix[avail]);
      forall c | IsString(st', c) ensures Entry(st', c, prefix[c], first[c], suffix[c]) {
        if c < avail {
          assert prefix[c] == ps[c] && first[c] == fs[c] && suffix[c] == ss[c];
          EntryKept(st, st', c, ps[c], fs[c], ss[c]);
        }
      }
    }

    /** A code that is neither the clear nor the end code. */
    method DataCode(code: nat, clear: nat, avail: nat, oldcode: int, codesize: nat, isFirst: bool, ghost st: State)
      returns (ok: bool, avail': nat, codesize': nat)
      requires Valid() && Holds(st) && st.cs <= 12 && code != st.clear && code != st.clear + 1
      requires Fields(st, clear, avail, oldcode, codesize, isFirst)
      modifies prefix, first, suffix, raster, raster.out, raster.history
      ensures Valid() && Step(st, code) != End && ok == Step(st, code).More?
      ensures !ok ==> raster.syms == old(raster.syms)
      ensures ok ==> Holds(Step(st, code).st) && Fields(Step(st, code).st, clear, avail', code, codesize', false)
      ensures ok ==> raster.syms == old(raster.syms) + Step(st, code).out
    {
      hide Entry, Unwidened, StringOf, Take;
      avail', codesize' := avail, codesize;
      if code > avail || isFirst {
        return false, avail, codesize;
      }
      ghost var u := st;
      if oldcode >= 0 {
        if avail + 1 > TABLE_SIZE {
          return false, avail, codesize;
        }
        avail' := avail + 1;
        u := Unwidened(st, code);
        MoreString(st, code);
        AddEntry(avail, code, oldcode, st, u);
      } else if code == avail {
        return false, avail, codesize;
      } else {
        u := Unwidened(st, code);
        MoreString(st, code);
        SameTable(st, u);
      }
      OutCode(code, u);
      if Take(avail', codesize) == 0 && avail' <= 0xfff {
        codesize' := codesize + 1;
      }
      GoodWiden(u);
      SameTable(u, Widen(u));
      ok := true;
    }

    /** `stbi__process_gif_raster`: the symbols painted are those of the string table, the result says
        whether all codes made sense, and after a good raster the input is behind its last block. */
    method ProcessRaster(s: ByteStream) returns (ok: bool)
      requires Valid() && s.Valid() && (s as object) != raster
      modifies prefix, first, suffix, raster, raster.out, raster.history, s
      ensures Valid() && s.Valid()
      ensures var cs, rest := CodeSize(old(s.Rest())), AfterSize(old(s.Rest()));
        if cs > 12 then !ok && raster.syms == old(raster.syms)
        else
          var e := Symbols(cs, Data(rest, 0));
          ok == e.1 && raster.syms == old(raster.syms) + e.0 && (ok ==> s.Rest() == Behind(rest, 0))
    {
      hide Expand, Step, Start, Data, Behind, Good, LE, Put, Take, Pow2, Drop, Holds, Raster.Valid, ByteStream.Valid;
      var cs := s.Get8();
      if cs > 12 {
        return false;
      }
      ghost var rest := s.Rest();
      GoodStart(cs, true);
      ghost var data := Data(rest, 0);
      FirstFields(cs, Pow2(cs));
      ghost var all, good := raster.syms + Symbols(cs, data).0, Symbols(cs, data).1;
      var clear := Pow2(cs);
      InitTable(cs, clear);
      ghost var st := Start(cs, true);
      var isFirst, oldcode: int := true, -1;
      var codesize: nat, avail: nat := cs + 1, clear + 2;
      var bits: nat, valid_bits: nat, len: nat := 0, 0, 0;
      ghost var v: nat, n: nat := LE(data), 8 * |data|;
      EmptyBits(v);
      while true
        invariant Valid() && s.Valid() && Holds(st) && Good(st) && st.cs == cs && 1 <= codesize <= 13
        invariant Fields(st, clear, avail, oldcode, codesize, isFirst)
        invariant bits < Pow2(valid_bits) && valid_bits <= 20 && len < 256
        invariant v == Put(bits, valid_bits, LE(Data(s.Rest(), len))) && n == valid_bits + 8 * |Data(s.Rest(), len)|
        invariant Behind(s.Rest(), len) == Behind(rest, 0)
        invariant raster.syms + Expand(st, v, n).0 == all && Expand(st, v, n).1 == good
        decreases n, 32 - valid_bits
      {
        if valid_bits < codesize {
          var more;
          more, len, bits := LoadByte(s, len, bits, valid_bits);
          if !more {
            NoMoreCodes(st, v, n);
            return true;
          }
          valid_bits := valid_bits + 8;
        } else {
          var code := Take(bits, codesize);
          NextCode(st, bits, valid_bits, LE(Data(s.Rest(), len)), n);
          bits := Drop(bits, codesize);
          valid_bits := valid_bits - codesize;
          if code == clear {
            Restart(st);
            GoodStart(cs, false);
            StepClear(st);
            FirstFields(cs, clear);
            codesize, avail, oldcode, isFirst := cs + 1, clear + 2, -1, false;
            v, n := Drop(v, st.size), n - st.size;
            st := Start(cs, false);
          } else if code == clear + 1 {
            StepEnd(st);
            SkipBlocks(s, len);
            return true;
          } else {
            ok, avail, codesize := DataCode(code, clear, avail, oldcode, codesize, isFirst, st);
            if !ok {
              return false;
            }
            ghost var step := Step(st, code);
            GoodStep(st, code);
            SizeIs(step.st);
            oldcode, isFirst := code, false;
            v, n := Drop(v, st.size), n - st.size;
            st := step.st;
          }
        }
      }
    }

    lemma SameTable(st: State, u: State)
      requires prefix.Length == TABLE_SIZE && first.Length == TABLE_SIZE && suffix.Length == TABLE_SIZE
      requires Holds(st) && Good(u) && u.clear == st.clear && u.dict == st.dict
      ensures Holds(u)
    {
      forall c | IsString(u, c) ensures Entry(u, c, prefix[c], first[c], suffix[c]) {
        EntryKept(st, u, c, prefix[c], first[c], suffix[c]);
      }
    }
  }

  ghost function CodeSize(s: seq<byte>): nat {
    if s == [] then 0 else s[0]
  }

  ghost function AfterSize(s: seq<byte>): seq<byte> {
    if s == [] then [] else s[1..]
  }

  lemma FirstFields(cs: nat, clear: nat)
    requires clear == Pow2(cs)
    ensures Fields(Start(cs, true), clear, clear + 2, -1, cs + 1, true)
    ensures Fields(Start(cs, false), clear, clear + 2, -1, cs + 1, false)
    ensures Start(cs, true).cs == cs && Start(cs, false).cs == cs
  {
  }

  lemma EmptyBits(v: nat)
    ensures Put(0, 0, v) == v && 0 < Pow2(0)
  {
  }

  lemma SizeIs(st: State)
    requires Good(st)
    ensures 1 <= st.size <= 13
  {
  }

  lemma StepClear(st: State)
    requires Good(st)
    ensures Step(st, st.clear) == More(Start(st.cs, false), [])
  {
  }

  lemma StepEnd(st: State)
    requires Good(st)
    ensures Step(st, st.clear + 1) == End
  {
  }

  lemma NoMoreCodes(st: State, v: nat, n: nat)
    requires Good(st) && st.cs <= 12 && n < st.size
    ensures Expand(st, v, n) == ([], true)
  {
  }

  /** The next code leaves the buffer and the stream. */
  lemma NextCode(st: State, bits: nat, valid_bits: nat, data: nat, n: nat)
    requires Good(st) && st.cs <= 12 && st.size <= valid_bits <= n && bits < Pow2(valid_bits)
    ensures var v, code := Put(bits, valid_bits, data), Take(bits, st.size);
      && Take(v, st.size) == code && Drop(v, st.size) == Put(Drop(bits, st.size), valid_bits - st.size, data)
      && Drop(bits, st.size) < Pow2(valid_bits - st.size)
      && match Step(st, code)
         case End => Expand(st, v, n) == ([], true)
         case Fail => Expand(st, v, n) == ([], false)
         case More(next, out) =>
           && Good(next) && next.cs == st.cs
           && Expand(st, v, n) == (out + Expand(next, Drop(v, st.size), n - st.size).0,
                                   Expand(next, Drop(v, st.size), n - st.size).1)
  {
    hide Step;
    TakeInside(bits, valid_bits, data, st.size);
    if Step(st, Take(bits, st.size)).More? {
      GoodStep(st, Take(bits, st.size));
    }
  }

  /** The decoder's variables hold the state. */
  ghost predicate Fields(st: State, clear: nat, avail: nat, oldcode: int, codesize: nat, isFirst: bool) {
    && clear == st.clear && avail == |st.dict| && codesize == st.size && isFirst == st.first
    && if st.last == NoCode then oldcode == -1 else oldcode == st.last.c
  }

  /** What a data code stands for is the string entered for it. */
  lemma MoreString(st: State, code: nat)
    requires Good(st) && if st.last == NoCode then code < st.clear else IsString(st, code) || code == |st.dict|
    ensures var u := Unwidened(st, code);
      && u.clear == st.clear && u.cs == st.cs && u.size == st.size && u.last == Code(code) && u.first == st.first
      && IsString(u, code)
      && (st.last == NoCode ==> u.dict == st.dict)
      && (st.last.Code? ==>
          u.dict == st.dict + [st.dict[st.last.c] + [StringOf(st, code)[0]]] && u.dict[code] == StringOf(st, code))
  {
  }

  lemma Linked(st: State, c: int, prefix: int, first: byte, suffix: byte)
    requires IsString(st, c) && Entry(st, c, prefix, first, suffix)
    ensures st.dict[c] != [] && first == st.dict[c][0]
  {
  }

  lemma LastIsString(st: State)
    requires Good(st) && st.last.Code?
    ensures IsString(st, st.last.c)
  {
  }

  /** The new entry. */
  lemma Grown(st: State, st': State, code: nat, suffix: byte)
    requires Good(st) && st.last.Code? && |st.dict| < TABLE_SIZE && (IsString(st, code) || code == |st.dict|)
    requires st'.clear == st.clear && st'.cs == st.cs && st'.size == st.size && st'.last == Code(code)
    requires st'.dict == st.dict + [st.dict[st.last.c] + [StringOf(st, code)[0]]]
    requires suffix == if code < |st.dict| then st.dict[code][0] else st.dict[st.last.c][0]
    requires HasSingles(st)
    ensures Good(st') && st.dict <= st'.dict && HasSingles(st')
    ensures Entry(st', |st.dict|, st.last.c, st.dict[st.last.c][0], suffix)
  {
  }

  /** A frame's raster: each pixel of the frame shows the symbol whose turn it is, if the data has that many,
      and only those pixels are marked as written. */
  method LoadFrame(s: ByteStream, frame: Frame, colours: seq<Quad>, image: array<Quad>, written: array<bool>)
    returns (ok: bool)
    requires s.Valid() && Fits(frame, image.Length) && image.Length == written.Length && |colours| == 256
    modifies s, image, written
    ensures var cs, rest := CodeSize(old(s.Rest())), AfterSize(old(s.Rest()));
      cs <= 12 ==>
        var (syms, good) := Symbols(cs, Data(rest, 0));
        && ok == good
        && forall y: nat, c: nat :: y < frame.h && c < frame.w ==>
          && Spot(frame, y, c) < image.Length
          && image[Spot(frame, y, c)] == Shown(frame, colours, syms, old(image[..]), y, c)
          && written[Spot(frame, y, c)] == (old(written[..])[Spot(frame, y, c)] || Turn(frame, y, c) < |syms|)
    ensures forall p :: 0 <= p < image.Length && Outside(frame, p) ==> image[p] == old(image[..])[p]
    ensures CodeSize(old(s.Rest())) > 12 ==> !ok
  {
    hide Symbols, Data, Painted, Marked, Spot, Turn, Over, CodeSize, AfterSize;
    var r := new Raster(frame, colours, image, written);
    var d := new Decoder(r);
    ghost var was, marks := image[..], written[..];
    ok := d.ProcessRaster(s);
    forall y: nat, c: nat | y < frame.h && c < frame.w
      ensures Spot(frame, y, c) < image.Length
      ensures image[Spot(frame, y, c)] == Shown(frame, colours, r.syms, was, y, c)
      ensures written[Spot(frame, y, c)] == (marks[Spot(frame, y, c)] || Turn(frame, y, c) < |r.syms|)
    {
      MarkedPixel(frame, |r.syms|, marks, y, c);
      assert written[Spot(frame, y, c)] == written[..][Spot(frame, y, c)];
      PaintedPixel(frame, colours, r.syms, was, y, c);
      assert image[Spot(frame, y, c)] == image[..][Spot(frame, y, c)];
    }
    forall p | 0 <= p < image.Length && Outside(frame, p) ensures image[p] == was[p] {
      OutsideKept(frame, colours, r.syms, was, p);
      assert image[p] == image[..][p];
    }
  }

  /** What the pixel at column `c` of row `y` shows after these symbols. */
  ghost function Shown(f: Frame, colours: seq<Quad>, syms: seq<byte>, was: seq<Quad>, y: nat, c: nat): Quad
    requires |colours| == 256 && Fits(f, |was|) && y < f.h && c < f.w
  {
    SpotFits(f, y, c, |was|);
    if Turn(f, y, c) < |syms| then Over(was[Spot(f, y, c)], colours[syms[Turn(f, y, c)]]) else was[Spot(f, y, c)]
  }
}
