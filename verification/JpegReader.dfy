/** The bit buffer of the JPEG reader: `stbi__grow_buffer_unsafe`, `stbi__jpeg_huff_decode` and
    `stbi__extend_receive`.  The buffer is a 32-bit word whose bits leave at the high end. */
module JpegReader {
  import opened Bits
  import opened Canonical
  import opened Streams
  import opened JpegHuffman
  import opened JpegFastAc
  import opened JpegBits

  lemma UnstuffNext(s: seq<byte>)
    ensures s == [] ==> Unstuffed(s) == []
    ensures s != [] && s[0] != 255 ==> Unstuffed(s) == [s[0]] + Unstuffed(s[1..])
    ensures s != [] && s[0] == 255 ==>
      var t := SkipFill(s[1..]);
      Unstuffed(s) == if t == [] then [255] + Unstuffed([]) else if t[0] == 0 then [255] + Unstuffed(t[1..]) else []
  {
  }

  class Reader {
    const s: ByteStream
    var code_buffer: nat
    var code_bits: int
    var marker: byte
    var nomore: bool

    /** How many bits of the data are left; the zeros past their end are not counted. */
    ghost var left: int

    /** The data bytes that are not yet in the buffer. */
    ghost function Ahead(): seq<byte>
      requires s.Valid()
      reads this, s
    {
      if nomore then [] else Unstuffed(s.Rest())
    }

    ghost predicate Valid()
      reads this, s
    {
      && s.Valid() && 0 <= code_bits <= 32 && code_buffer < Pow2(32) && Rev(code_buffer, 32) < Pow2(code_bits)
      && (left == code_bits + 8 * |Ahead()| || (Ahead() == [] && left <= code_bits))
    }

    /** All bits to come, zeros past the end of the data. */
    ghost function Stream(): nat
      requires Valid()
      reads this, s
    {
      Put(Rev(code_buffer, 32), code_bits, High(Ahead()))
    }

    constructor (input: ByteStream)
      requires input.Valid()
      ensures Valid() && s == input && code_bits == 0 && !nomore
      ensures Stream() == High(Unstuffed(input.Rest())) && left == 8 * |Unstuffed(input.Rest())|
    {
      s, code_buffer, code_bits, marker, nomore := input, 0, 0, 0, false;
      left := 8 * |Unstuffed(input.Rest())|;
      new;
      RevZero(32);
    }

    /** A stuffed zero, or the marker, behind any fill bytes. */
    method AfterFF() returns (c: byte)
      requires s.Valid()
      modifies s
      ensures s.Valid()
      ensures var t := SkipFill(old(s.Rest()));
        if t == [] then c == 0 && s.Rest() == [] else c == t[0] && s.Rest() == t[1..]
    {
      ghost var t := SkipFill(s.Rest());
      ghost var before := s.Rest();
      c := s.Get8();
      while c == 255
        invariant s.Valid()
        invariant SkipFill(before) == t
        invariant if before == [] then c == 0 && s.Rest() == [] else c == before[0] && s.Rest() == before[1..]
        decreases |before|
      {
        before := s.Rest();
        c := s.Get8();
      }
    }

    /** One byte more, or the end of the data. */
    method GrowByte() returns (stop: bool)
      requires Valid() && code_bits <= 24
      modifies this`code_buffer, this`code_bits, this`marker, this`nomore, s
      ensures Valid() && Stream() == old(Stream())
      ensures stop ==> code_bits == old(code_bits) && Ahead() == [] && nomore
      ensures !stop ==> code_bits == old(code_bits) + 8
    {
      hide Put, Rev, High, Unstuffed, SkipFill, Pow2;
      HighEmpty();
      var b := 0;
      if !nomore {
        UnstuffNext(s.Rest());
        b := s.Get8();
        if b == 255 {
          UnstuffNext([]);
          var c := AfterFF();
          if c != 0 {
            marker := c;
            nomore := true;
            return true;
          }
        }
      }
      Pow2Values();
      AddByte(b, High(Ahead()));
      assert old(High(Ahead())) == Put(Rev(b, 8), 8, High(Ahead())) by {
        if old(Ahead()) == [] {
          RevZero(8);
          PutZero(8);
        } else {
          HighFirst(b, Ahead());
        }
      }
      code_buffer := code_buffer + Shl(24 - code_bits, b);
      code_bits := code_bits + 8;
      stop := false;
    }

    lemma PutZero(n: nat)
      ensures Put(0, n, 0) == 0
    {
      ShlZero(n);
    }

    lemma AddByte(b: byte, rest: nat)
      requires 0 <= code_bits <= 24 && code_buffer < Pow2(32) && Rev(code_buffer, 32) < Pow2(code_bits)
      ensures var x := code_buffer + Shl(24 - code_bits, b);
        && x < Pow2(32) && Rev(x, 32) < Pow2(code_bits + 8)
        && Put(Rev(x, 32), code_bits + 8, rest) == Put(Rev(code_buffer, 32), code_bits, Put(Rev(b, 8), 8, rest))
    {
      hide Put, Rev, Shl, Pow2;
      Pow2Values();
      OrBits(32, code_bits, 8, code_buffer, b);
      PutPut(Rev(code_buffer, 32), code_bits, Rev(b, 8), 8, rest);
    }

    /** `stbi__grow_buffer_unsafe` */
    method Grow()
      requires Valid() && code_bits <= 24
      modifies this`code_buffer, this`code_bits, this`marker, this`nomore, s
      ensures Valid() && Stream() == old(Stream()) && code_bits >= old(code_bits)
      ensures code_bits > 24 || (Ahead() == [] && left <= code_bits)
    {
      var stop := GrowByte();
      while !stop && code_bits <= 24
        invariant Valid() && Stream() == old(Stream()) && code_bits >= old(code_bits)
        invariant stop ==> Ahead() == []
        decreases !stop, 32 - code_bits
      {
        stop := GrowByte();
      }
    }

    /** The buffer shows the next `n` bits of the stream at its high end. */
    lemma Shows(n: nat)
      requires Valid() && n <= 16 && (code_bits >= n || Ahead() == [])
      ensures Drop(code_buffer, 32 - n) == Rev(Stream(), n)
    {
      hide Rev, Take, Drop, High;
      var r := Rev(code_buffer, 32);
      TopBits(code_buffer, 32, n);
      if code_bits >= n {
        TakeInside(r, code_bits, High(Ahead()), n);
        RevTake(r, n);
        RevTake(Stream(), n);
      } else {
        HighEmpty();
        ShlZero(code_bits);
      }
    }

    /** Bits leave the buffer. */
    method Consume(n: nat)
      requires Valid() && n <= code_bits
      modifies this`code_buffer, this`code_bits, this`left
      ensures Valid() && Stream() == Drop(old(Stream()), n) && left == old(left) - n && code_bits == old(code_bits) - n
    {
      hide Put, Rev, Shl, Take, Drop, High, Unstuffed, Pow2;
      ShiftOut(code_buffer, 32, n);
      TakeBound(Shl(n, code_buffer), 32);
      TakeInside(Rev(code_buffer, 32), code_bits, High(Ahead()), n);
      code_buffer := Take(Shl(n, code_buffer), 32);
      code_bits := code_bits - n;
      left := left - n;
    }

    /** `stbi__extend_receive`: an `n`-bit magnitude as a signed value; 0 when the data ends before it. */
    method ExtendReceive(n: nat) returns (r: int)
      requires Valid() && 1 <= n <= 15
      modifies this`code_buffer, this`code_bits, this`marker, this`nomore, this`left, s
      ensures Valid()
      ensures || (r == Extend(Rev(old(Stream()), n), n) && Stream() == Drop(old(Stream()), n) && left == old(left) - n)
              || (old(left) < n && r == 0 && Stream() == old(Stream()) && left == old(left))
    {
      hide Rev, Shl, Take, Drop, High, Unstuffed;
      if code_bits < n { Grow(); }
      if code_bits < n { return 0; }
      Shows(n);
      ghost var v := Stream();
      var sgn := Drop(code_buffer, 31);
      var k := Drop(code_buffer, 32 - n);
      Sign(code_buffer, n);
      RevBound(v, n);
      Consume(n);
      r := if sgn == 1 then k else k - (Pow2(n) - 1);
    }

    /** The sign bit is the first bit of the magnitude. */
    lemma Sign(x: nat, n: nat)
      requires x < Pow2(32) && 1 <= n <= 15
      ensures Drop(x, 31) <= 1
      ensures Drop(x, 31) == 1 <==> Drop(x, 32 - n) >= Pow2(n - 1)
    {
      hide Shl, Take, Drop;
      var k := Drop(x, 32 - n);
      Split(x, 32 - n, n - 1);
      DropBetween(k, n - 1, 1, 2);
      DropBetween(x, 31, 0, 2);
      ShlPow2(n - 1, 0);
      ShlPow2(n - 1, 1);
      ShlPow2(31, 1);
      ShlZero(31);
      ShlZero(n - 1);
      DropBetween(k, n - 1, 0, 1);
    }

    /** `stbi__jpeg_huff_decode`: the symbol whose code comes next, if all of the code is data.  If that is
        the symbol that the fast table cannot tell from no entry, ten bits are taken for it all the same, and
        it fails when there are not that many, even if there are enough for the code. */
    method HuffDecode(h: JTable, ghost lens: seq<nat>) returns (r: int, ghost sym: nat)
      requires Valid() && h.Holds(lens)
      modifies this`code_buffer, this`code_bits, this`marker, this`nomore, this`left, s
      ensures Canonical.Fits(lens) && |lens| <= 256 && h.Shape() && r < 256
      ensures r >= 0 ==> Valid()
      ensures !Mistaken(lens, old(Stream())) && r >= 0 ==>
        && StartsWith(lens, sym, old(Stream())) && r == h.values[sym]
        && Stream() == Drop(old(Stream()), lens[sym]) && left == old(left) - lens[sym]
      ensures !Mistaken(lens, old(Stream())) && r < 0 ==>
        forall i: nat :: StartsWith(lens, i, old(Stream())) ==> lens[i] > old(left)
      ensures Mistaken(lens, old(Stream())) && r >= 0 ==>
        && sym == MistakenFor(lens, old(Stream())) < 256 && r == h.values[sym]
        && lens[255] < 10 && Stream() == Drop(old(Stream()), 10) && left == old(left) - 10
      ensures Mistaken(lens, old(Stream())) && r < 0 ==> lens[255] < 10 && old(left) < 10
    {
      hide Rev, Shl, Take, Drop, High, Unstuffed, StartsWith, Canonical.Fits, JTable.Holds;
      OfTable(h, lens);
      sym := 0;
      if code_bits < 16 { Grow(); }
      ghost var v := Stream();
      Shows(FAST_BITS);
      var c := Drop(code_buffer, 32 - FAST_BITS);
      FastSays(h, lens, v);
      var k := h.fast[c];
      if k < NOT_FAST {
        sym := k;
        NotMistaken(lens, k, v);
        var s := h.size[k];
        if s > code_bits {
          forall i: nat | StartsWith(lens, i, v) ensures i < |lens| && lens[i] > left {
            OnlyOne(lens, i, k, v);
          }
          return -1, sym;
        }
        Consume(s);
        return h.values[k], sym;
      }
      r, sym := HuffSlow(h, lens);
    }

    /** Codes of more than nine bits: the search for the length, and the two guards behind it. */
    method HuffSlow(h: JTable, ghost lens: seq<nat>) returns (r: int, ghost sym: nat)
      requires Valid() && h.Holds(lens) && h.Shape() && Canonical.Fits(lens) && (code_bits >= 16 || (Ahead() == [] && left <= code_bits))
      requires Mistaken(lens, Stream()) ||
        forall i :: 0 <= i < |lens| && lens[i] <= FAST_BITS ==> !StartsWith(lens, i, Stream())
      modifies this`code_buffer, this`code_bits, this`left
      ensures |lens| <= 256 && r < 256
      ensures r >= 0 ==> Valid()
      ensures !Mistaken(lens, old(Stream())) && r >= 0 ==>
        && StartsWith(lens, sym, old(Stream())) && r == h.values[sym]
        && Stream() == Drop(old(Stream()), lens[sym]) && left == old(left) - lens[sym]
      ensures !Mistaken(lens, old(Stream())) && r < 0 ==>
        forall i: nat :: StartsWith(lens, i, old(Stream())) ==> lens[i] > old(left)
      ensures Mistaken(lens, old(Stream())) && r >= 0 ==>
        && sym == MistakenFor(lens, old(Stream())) < 256 && r == h.values[sym]
        && lens[255] < 10 && Stream() == Drop(old(Stream()), 10) && left == old(left) - 10
      ensures Mistaken(lens, old(Stream())) && r < 0 ==> lens[255] < 10 && old(left) < 10
    {
      hide Rev, Shl, Take, Drop, High, Unstuffed, StartsWith, Canonical.Fits, JTable.Holds, Mistaken, Put, Stop, First, Pow2,
        MistakenFor, Ascending;
      OfTable(h, lens);
      ghost var v := Stream();
      ghost var mistaken := Mistaken(lens, v);
      Shows(16);
      var temp := Drop(code_buffer, 16);
      RevBound(v, 16);
      Pow2Values();
      if mistaken { TenBits(h, lens, v); } else { AboveNine(lens, v); }
      var k := FAST_BITS + 1;
      while temp >= h.maxcode[k]
        invariant FAST_BITS < k <= 17 && (!mistaken ==> Stop(lens, k - 1) <= temp) && (mistaken ==> k == 10)
        decreases 17 - k
        modifies {}
      {
        LevelOf(h, lens, k);
        k := k + 1;
      }
      sym := 0;
      if k == 17 {
        NoSymbol(lens, v);
        code_bits := code_bits - 16;
        return -1, sym;
      }
      if mistaken {
        MistakenSlot(lens, v);
        sym := MistakenFor(lens, v);
        LevelOf(h, lens, 10);
      } else {
        sym := SlotSays(h, lens, k, v);
      }
      if k > code_bits {
        if !mistaken {
          forall i: nat | StartsWith(lens, i, v) ensures i < |lens| && lens[i] > left {
            OnlyOne(lens, i, sym, v);
          }
        }
        return -1, sym;
      }
      Shows2(k);
      var c := Drop(code_buffer, 32 - k) + h.delta[k];
      if c < 0 || c >= 256 {
        return -1, sym;
      }
      Consume(k);
      r := h.values[c];
    }

    lemma Shows2(k: nat)
      requires 1 <= k <= 16
      ensures Drop(code_buffer, 32 - k) == Drop(Drop(code_buffer, 16), 16 - k)
    {
      Split(code_buffer, 16, 16 - k);
    }
  }

  lemma OfTable(h: JTable, lens: seq<nat>)
    requires h.Holds(lens)
    ensures Canonical.Fits(lens) && Ascending(lens) && |lens| <= 256 && h.Shape() && h.maxcode[17] >= 65536
    ensures forall i :: 0 <= i < |lens| ==> 1 <= lens[i] <= 16
  {
  }

  lemma LevelOf(h: JTable, lens: seq<nat>, l: nat)
    requires h.Holds(lens) && h.Shape() && 1 <= l <= 17
    ensures l <= 16 ==> h.maxcode[l] == Stop(lens, l) && h.delta[l] == FirstSym(lens, l) - First(lens, l)
    ensures l == 17 ==> h.maxcode[l] >= 65536
  {
    assert l <= 16 ==> h.Level(lens, l);
  }

  /** Symbol 255 comes next, and has a code short enough for the fast table, where its number is the mark
      for no entry. */
  ghost predicate Mistaken(lens: seq<nat>, v: nat) {
    |lens| == 256 && lens[255] <= FAST_BITS && StartsWith(lens, 255, v)
  }

  /** A table is mistaken on some stream exactly when its mark is not free. */
  lemma NeverMistaken(lens: seq<nat>)
    requires Canonical.Fits(lens) && Ascending(lens) && |lens| <= 256
    ensures MarkIsFree(lens) <==> forall v: nat :: !Mistaken(lens, v)
  {
    if !MarkIsFree(lens) {
      PutStarts(lens, 255, 0);
      assert Mistaken(lens, PutSymbol(lens, 255, 0));
    }
  }

  /** What is decoded for it: one of the last four symbols, by the bits behind its code up to the tenth. */
  ghost function MistakenFor(lens: seq<nat>, v: nat): (sym: int)
    requires |lens| == 256 && lens[255] <= FAST_BITS
  {
    var n := 10 - lens[255];
    256 - Pow2(n) + Rev(Drop(v, lens[255]), n)
  }

  /** The first ten bits, looked up on level ten, give that symbol. */
  lemma MistakenSlot(lens: seq<nat>, v: nat)
    requires Canonical.Fits(lens) && Ascending(lens) && Mistaken(lens, v)
    ensures Drop(Rev(v, 16), 6) + FirstSym(lens, 10) - First(lens, 10) == MistakenFor(lens, v)
    ensures 252 <= MistakenFor(lens, v) < 256
  {
    hide Rev, Shl, Take, Drop, Pow2, FirstSym, First, StartsWith, Canonical.Fits;
    var l := lens[255];
    var n := 10 - l;
    EightAtLeast(lens);
    RevBound(Drop(v, l), n);
    Pow2Values();
    Pow2Mono(n, 2);
    AllShort(lens, 256, 10);
    FirstSymIsTo(lens, 10);
    RevPrefix(v, 10, 6);
    RevTwo(v, l, n);
    CodeShown(lens, v);
    LastEnd(lens, l, 9);
    FirstOpen(lens, 10);
    ShlSum(n, Code(lens, 255), 1);
    ShlPow2(n, 0);
  }

  lemma FirstOpen(lens: seq<nat>, l: nat)
    requires l >= 1
    ensures First(lens, l) == 2 * End(lens, l - 1)
  {
  }

  lemma CodeShown(lens: seq<nat>, v: nat)
    requires Canonical.Fits(lens) && StartsWith(lens, 255, v)
    ensures |lens| > 255 && lens[255] >= 1 && Rev(v, lens[255]) == Code(lens, 255)
  {
    hide Rev, Take, Code, Canonical.Fits;
    var l, c := lens[255], Code(lens, 255);
    RevTake(v, l);
    RevRev(c, l);
    CodeBound(lens, 255);
    TakeSmall(c, l);
  }

  /** With 256 symbols the longest code has at least eight bits. */
  lemma EightAtLeast(lens: seq<nat>)
    requires Canonical.Fits(lens) && Ascending(lens) && |lens| == 256
    ensures lens[255] >= 8
  {
    hide KraftTo;
    if lens[255] <= 7 { ShortKraft(lens, 256); }
  }

  lemma {:induction false} ShortKraft(lens: seq<nat>, n: nat)
    requires n <= |lens| && Lengths(lens, 16) && forall i :: 0 <= i < |lens| ==> 1 <= lens[i] <= 7
    ensures KraftTo(lens, n) >= 512 * n
  {
    if n > 0 {
      ShortKraft(lens, n - 1);
      Pow2Values();
      Pow2Mono(9, 16 - lens[n - 1]);
    }
  }

  lemma {:induction false} AllShort(lens: seq<nat>, n: nat, l: nat)
    requires n <= |lens| && 1 <= l && forall i :: 0 <= i < n ==> 1 <= lens[i] < l
    ensures FirstSymTo(lens, n, l) == n
  {
    if n == 0 {
      FirstSymZero(lens, l);
    } else {
      AllShort(lens, n - 1, l);
      FirstSymStep(lens, n - 1, l);
    }
  }

  /** Above the last symbol's level there are no codes, so the ends double. */
  lemma {:induction false} LastEnd(lens: seq<nat>, l: nat, m: nat)
    requires Ascending(lens) && |lens| == 256 && l == lens[255] <= m
    ensures 2 * End(lens, m) == Shl(m + 1 - l, Code(lens, 255) + 1)
    decreases m
  {
    if m == l {
      assert Shl(1, Code(lens, 255) + 1) == 2 * Shl(0, Code(lens, 255) + 1);
    } else {
      LastEnd(lens, l, m - 1);
      NoneAbove(lens, 256, m);
    }
  }

  lemma {:induction false} NoneAbove(lens: seq<nat>, n: nat, m: nat)
    requires n <= |lens| && forall i :: 0 <= i < n ==> lens[i] < m
    ensures CountTo(lens, n, m) == 0
  {
    if n > 0 { NoneAbove(lens, n - 1, m); }
  }

  lemma NotMistaken(lens: seq<nat>, k: nat, v: nat)
    requires Canonical.Fits(lens) && StartsWith(lens, k, v) && k < 255
    ensures !Mistaken(lens, v)
  {
    hide StartsWith;
    if Mistaken(lens, v) { StartsUnique(lens, k, 255, v); }
  }

  /** The search for the length of that symbol's code stops at ten bits. */
  lemma TenBits(h: JTable, lens: seq<nat>, v: nat)
    requires h.Holds(lens) && h.Shape() && Canonical.Fits(lens) && Mistaken(lens, v)
    ensures |lens| == 256 && lens[255] < 10 && Rev(v, 16) < h.maxcode[10]
  {
    hide Rev, Stop;
    StartsIsWindow(lens, 255, v);
    WindowLevel(lens, 255, Rev(v, 16));
    StopMono(lens, lens[255], 10);
    LevelOf(h, lens, 10);
  }

  /** Such tables exist: 256 codes of eight bits, of which the last is mistaken. */
  lemma MistakenTable(lens: seq<nat>, v: nat)
    requires Eight(lens) && Take(v, 8) == 255
    ensures Canonical.Fits(lens) && Ascending(lens) && Mistaken(lens, v)
  {
    hide Take, Rev, CountTo, KraftTo, EndTo;
    AllEights(lens, 256);
    Eights(lens, 255);
    NoSevens(lens, 7);
    RevOnes(8);
    Pow2Values();
    assert Code(lens, 255) == 255;
  }

  ghost predicate Eight(lens: seq<nat>) {
    |lens| == 256 && forall i :: 0 <= i < 256 ==> lens[i] == 8
  }

  lemma {:induction false} RevOnes(n: nat)
    ensures Rev(Pow2(n) - 1, n) == Pow2(n) - 1
  {
    if n > 0 {
      var p := Pow2(n - 1) - 1;
      RevOnes(n - 1);
      assert Pow2(n) - 1 == 2 * p + 1 && (2 * p + 1) / 2 == p;
    }
  }

  lemma {:induction false} AllEights(lens: seq<nat>, n: nat)
    requires Eight(lens) && n <= 256
    ensures KraftTo(lens, n) == 256 * n
  {
    Pow2Values();
    if n > 0 { AllEights(lens, n - 1); }
  }

  lemma {:induction false} Eights(lens: seq<nat>, n: nat)
    requires Eight(lens) && n <= 256
    ensures CountTo(lens, n, 8) == n
  {
    if n > 0 { Eights(lens, n - 1); }
  }

  lemma {:induction false} NoSevens(lens: seq<nat>, l: nat)
    requires Eight(lens) && l <= 7
    ensures End(lens, l) == 0
  {
    if l > 0 {
      NoSevens(lens, l - 1);
      NoneOf(lens, 256, l);
    }
  }

  lemma {:induction false} NoneOf(lens: seq<nat>, n: nat, l: nat)
    requires Eight(lens) && n <= 256 && l != 8
    ensures CountTo(lens, n, l) == 0
  {
    if n > 0 { NoneOf(lens, n - 1, l); }
  }

  /** The fast table's entry for the next nine bits of a stream. */
  lemma FastSays(h: JTable, lens: seq<nat>, v: nat)
    requires h.Holds(lens)
    ensures h.Shape() && Rev(v, FAST_BITS) < 512
    ensures var f := h.fast[Rev(v, FAST_BITS)];
      if f < NOT_FAST then f < |lens| <= 256 && h.size[f] == lens[f] <= FAST_BITS && StartsWith(lens, f, v)
      else Mistaken(lens, v) || forall i :: 0 <= i < |lens| && lens[i] <= FAST_BITS ==> !StartsWith(lens, i, v)
  {
    hide Rev, StartsWith, Canonical.Fits, InNine;
    RevBound(v, FAST_BITS);
    Pow2Values();
    var w := Rev(v, FAST_BITS);
    HoldsAt(h, lens, w);
    assert FastEntry(lens, |lens|, w, h.fast[w]);
    if h.fast[w] < NOT_FAST {
      NineLength(lens, h.fast[w], w);
      StartsIsNine(lens, h.fast[w], v);
    } else {
      forall i | 0 <= i < |lens| && lens[i] <= FAST_BITS && StartsWith(lens, i, v) ensures Mistaken(lens, v) {
        StartsIsNine(lens, i, v);
      }
    }
  }

  lemma OnlyOne(lens: seq<nat>, i: nat, k: nat, v: nat)
    requires Canonical.Fits(lens) && StartsWith(lens, i, v) && StartsWith(lens, k, v)
    ensures i == k < |lens|
  {
    StartsUnique(lens, i, k, v);
  }

  lemma NineLength(lens: seq<nat>, i: nat, w: nat)
    requires InNine(lens, i, w)
    ensures i < |lens| && 1 <= lens[i] <= FAST_BITS
  {
  }

  /** No code of at most nine bits comes next: the window lies above them all. */
  lemma AboveNine(lens: seq<nat>, v: nat)
    requires Canonical.Fits(lens)
    requires forall i :: 0 <= i < |lens| && lens[i] <= FAST_BITS ==> !StartsWith(lens, i, v)
    ensures Stop(lens, FAST_BITS) <= Rev(v, 16)
  {
    hide Rev, StartsWith, Canonical.Fits, Stop;
    var w := Rev(v, 16);
    if w < Stop(lens, FAST_BITS) {
      var l := WindowLevelExists(lens, w, FAST_BITS);
      var i := WindowSymbol(lens, l, w);
      StartsIsWindow(lens, i, v);
      assert false;
    }
  }

  /** Above the last level there is no code. */
  lemma NoSymbol(lens: seq<nat>, v: nat)
    requires Canonical.Fits(lens) && Stop(lens, 16) <= Rev(v, 16)
    ensures forall i: nat :: !StartsWith(lens, i, v)
  {
    hide Rev, StartsWith, Stop;
    forall i: nat ensures !StartsWith(lens, i, v) {
      StartsIsWindow(lens, i, v);
      if InWindow(lens, i, Rev(v, 16)) {
        WindowLevel(lens, i, Rev(v, 16));
        StopMono(lens, lens[i], 16);
        assert false;
      }
    }
  }

  /** The symbol that a window on level `l` selects. */
  lemma SlotSays(h: JTable, lens: seq<nat>, l: nat, v: nat) returns (i: nat)
    requires h.Holds(lens) && h.Shape() && 1 <= l <= 16
    requires Stop(lens, l - 1) <= Rev(v, 16) < h.maxcode[l]
    ensures i < |lens| <= 256 && lens[i] == l && StartsWith(lens, i, v)
    ensures Drop(Rev(v, 16), 16 - l) + h.delta[l] == i
  {
    LevelOf(h, lens, l);
    i := WindowSymbol(lens, l, Rev(v, 16));
    StartsIsWindow(lens, i, v);
    SlotIsIndex(lens, i);
  }
}
