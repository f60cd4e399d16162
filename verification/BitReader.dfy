/** The bit reservoir of the zlib decoder (`stbi__zbuf`): bytes move from the input into a 32-bit
    code buffer, and bits leave it from the low end. */
module BitReader {
  import opened Bits
  import opened Canonical
  import opened ZHuffman

  /** What the caller knows the stream to hold: nothing, or these items and then `rest`. */
  datatype Goal<T> = Unknown | Want(items: seq<T>, rest: nat)

  /** How far a reader is: of an input of `size` bytes it has put `loaded`, the zeros past the end included, into
      its code buffer and handed out `used` bits; or it has been asked for a symbol when it was dry. */
  datatype Feed = Starved | Feed(size: nat, used: nat, loaded: nat) {
    /** The guard of `stbi__zhuffman_decode`: the input is at its end, and fewer than 16 bits are buffered. */
    predicate Dry() {
      Starved? || (loaded >= size && 8 * loaded - used < 16)
    }

    /** After a field of `n` bits; a buffer that holds fewer is filled first. */
    function Field(n: nat): Feed {
      if Starved? || 8 * loaded - used >= n then Used(n) else Filled().Used(n)
    }

    /** After a symbol whose code has `n` bits; a buffer that holds fewer than 16 is filled first. */
    function Symbol(n: nat): Feed {
      if Dry() then Starved else if 8 * loaded - used >= 16 then Used(n) else Filled().Used(n)
    }

    function Used(n: nat): Feed {
      if Starved? then Starved else Feed(size, used + n, loaded)
    }

    /** After filling the buffer up to more than 24 bits. */
    function Filled(): Feed {
      if Starved? then Starved else Feed(size, used, (used + 32) / 8)
    }
  }

  class ZBuf {
    const zbuffer: seq<byte>
    var pos: nat
    var num_bits: nat
    var code_buffer: nat

    /** Bits handed out so far. */
    ghost var used: nat
    /** Bytes put into the code buffer so far, the zeros past the end included. */
    ghost var loaded: nat

    ghost predicate Ready()
      reads this
    {
      && pos <= |zbuffer| && num_bits <= 32 && code_buffer < Pow2(num_bits)
      && used + num_bits == 8 * loaded && pos <= loaded && (pos < |zbuffer| ==> loaded == pos)
    }

    /** All bits still to come, as a number; past the end of the input they are zero. */
    ghost function Stream(): nat
      requires Ready()
      reads this
    {
      Put(code_buffer, num_bits, LE(zbuffer[pos..]))
    }

    /** How far this is. */
    ghost function Fed(): Feed
      reads this
    {
      Feed(|zbuffer|, used, loaded)
    }

    constructor (input: seq<byte>)
      ensures Ready() && zbuffer == input && pos == 0 && num_bits == 0 && code_buffer == 0
      ensures used == 0 && loaded == 0
    {
      zbuffer := input;
      pos, num_bits, code_buffer := 0, 0, 0;
      used, loaded := 0, 0;
    }

    predicate Zeof()
      reads this
    {
      pos >= |zbuffer|
    }

    /** `stbi__zget8`: the next byte, or 0 at the end. */
    method Get8() returns (b: byte)
      requires pos <= |zbuffer|
      modifies this`pos
      ensures pos == if old(pos) < |zbuffer| then old(pos) + 1 else old(pos)
      ensures LE(zbuffer[old(pos)..]) == Put(b, 8, LE(zbuffer[pos..]))
      ensures old(pos) < |zbuffer| ==> b == zbuffer[old(pos)]
    {
      if Zeof() {
        ShlZero(8);
        b := 0;
      } else {
        assert zbuffer[pos..][1..] == zbuffer[pos + 1..];
        b := zbuffer[pos];
        pos := pos + 1;
      }
    }

    /** A byte read past an empty code buffer. */
    method TakeByte() returns (b: byte)
      requires Ready() && num_bits == 0
      modifies this`pos, this`used, this`loaded
      ensures Ready() && num_bits == 0 && used == old(used) + 8 && loaded == old(loaded) + 1
      ensures old(Stream()) == Put(b, 8, Stream())
      ensures pos == if old(pos) < |zbuffer| then old(pos) + 1 else old(pos)
      ensures old(pos) < |zbuffer| ==> b == zbuffer[old(pos)]
    {
      b := Get8();
      used := used + 8;
      loaded := loaded + 1;
    }

    /** `zbuffer += n`, with an empty code buffer. */
    method Skip(n: nat)
      requires Ready() && num_bits == 0 && pos + n <= |zbuffer|
      modifies this`pos, this`used, this`loaded
      ensures Ready() && num_bits == 0 && used == old(used) + 8 * n && pos == old(pos) + n
      ensures loaded == old(loaded) + n
      ensures old(Stream()) == Put(LE(zbuffer[old(pos)..pos]), 8 * n, Stream())
    {
      assert zbuffer[pos..] == zbuffer[pos..pos + n] + zbuffer[pos + n..];
      LEAppend(zbuffer[pos..pos + n], zbuffer[pos + n..]);
      pos := pos + n;
      used := used + 8 * n;
      loaded := loaded + n;
    }

    /** `stbi__fill_bits`.  The test for a code buffer wider than `num_bits` never fires. */
    method FillBits()
      requires Ready() && num_bits <= 24
      modifies this`pos, this`num_bits, this`code_buffer, this`loaded
      ensures Ready() && Stream() == old(Stream())
      ensures num_bits > 24 && Fed() == old(Fed()).Filled()
    {
      FillByte();
      while num_bits <= 24
        invariant Ready() && Stream() == old(Stream())
        decreases 32 - num_bits
      {
        FillByte();
      }
    }

    method FillByte()
      requires Ready() && num_bits <= 24
      modifies this`pos, this`num_bits, this`code_buffer, this`loaded
      ensures Ready() && Stream() == old(Stream())
      ensures num_bits == old(num_bits) + 8
    {
      var b := Get8();
      Pow2Values();
      PutPut(code_buffer, num_bits, b, 8, LE(zbuffer[pos..]));
      JoinBound(code_buffer, num_bits, b, 8);
      code_buffer := Put(code_buffer, num_bits, b);
      num_bits := num_bits + 8;
      loaded := loaded + 1;
    }

    /** Bits leave the code buffer. */
    method Consume(n: nat)
      requires Ready() && n <= num_bits
      modifies this`num_bits, this`code_buffer, this`used
      ensures Ready() && Stream() == Drop(old(Stream()), n)
      ensures used == old(used) + n && num_bits == old(num_bits) - n
    {
      TakeInside(code_buffer, num_bits, LE(zbuffer[pos..]), n);
      code_buffer := Drop(code_buffer, n);
      num_bits := num_bits - n;
      used := used + n;
    }

    /** `stbi__zreceive`: the next `n` bits. */
    method Receive(n: nat) returns (k: nat)
      requires Ready() && n <= 16
      modifies this`pos, this`num_bits, this`code_buffer, this`used, this`loaded
      ensures Ready() && k == Take(old(Stream()), n) && k < Pow2(n)
      ensures Stream() == Drop(old(Stream()), n) && Fed() == old(Fed()).Field(n)
      ensures old(num_bits) >= n ==> num_bits == old(num_bits) - n && pos == old(pos)
    {
      if num_bits < n {
        FillBits();
      }
      TakeInside(code_buffer, num_bits, LE(zbuffer[pos..]), n);
      TakeBound(code_buffer, n);
      k := Take(code_buffer, n);
      Consume(n);
    }

    /** `stbi__zhuffman_decode`: the symbol whose code comes next, or -1 when no code fits or fewer
        than 16 bits are left. */
    method HuffmanDecode(z: HuffTable, ghost lens: seq<nat>) returns (r: int)
      requires Ready() && z.Holds(lens)
      modifies this`pos, this`num_bits, this`code_buffer, this`used, this`loaded
      ensures Ready() && Fits(lens)
      ensures r >= 0 ==>
        && StartsWith(lens, r, old(Stream())) && Stream() == Drop(old(Stream()), lens[r])
        && Fed() == old(Fed()).Symbol(lens[r])
      ensures old(Fed()).Dry() <==> old(num_bits < 16 && Zeof())
      ensures old(Fed()).Dry() ==> r < 0
      ensures r < 0 ==> old(Fed()).Dry() || forall i: nat :: !StartsWith(lens, i, old(Stream()))
    {
      if num_bits < 16 {
        if Zeof() {
          return -1;
        }
        FillBits();
      }
      TakeInside(code_buffer, num_bits, BufferTail(), FAST_BITS);
      FastMeans(z, lens, Stream());
      var b := z.fast[Take(code_buffer, FAST_BITS)];
      if b != 0 {
        Consume(b / 512);
        return b % 512;
      }
      r := HuffmanDecodeSlow(z, lens);
    }

    /** The fast table's entry for the next nine bits. */
    lemma FastMeans(z: HuffTable, lens: seq<nat>, v: nat)
      requires z.Holds(lens)
      ensures Take(v, FAST_BITS) < 512
      ensures var b := z.fast[Take(v, FAST_BITS)];
        if b == 0 then forall i :: 0 <= i < |lens| && 1 <= lens[i] <= FAST_BITS ==> !StartsWith(lens, i, v)
        else b % 512 < |lens| && b / 512 == lens[b % 512] <= FAST_BITS && StartsWith(lens, b % 512, v)
    {
      TakeBound(v, FAST_BITS);
      Pow2Values();
      FastStarts(lens, v);
      assert FastEntry(lens, |lens|, Take(v, FAST_BITS), z.fast[Take(v, FAST_BITS)]);
    }

    /** `stbi__zhuffman_decode_slowpath`.  Both guards after the search, on the slot's range and on the
        size stored there, always pass. */
    method HuffmanDecodeSlow(z: HuffTable, ghost lens: seq<nat>) returns (r: int)
      requires Ready() && z.Holds(lens) && num_bits >= 16
      requires forall i :: 0 <= i < |lens| && 1 <= lens[i] <= FAST_BITS ==> !StartsWith(lens, i, Stream())
      modifies this`num_bits, this`code_buffer, this`used
      ensures Ready()
      ensures r >= 0 ==>
        && StartsWith(lens, r, old(Stream())) && Stream() == Drop(old(Stream()), lens[r])
        && used == old(used) + lens[r]
      ensures r < 0 ==> forall i: nat :: !StartsWith(lens, i, old(Stream()))
    {
      ghost var v := Stream();
      var k := BitReverse(code_buffer, 16);
      WindowOfBuffer(v, BufferTail());
      AboveFast(lens, v);
      WindowBound(code_buffer);
      var s := FAST_BITS + 1;
      while k >= z.maxcode[s]
        invariant FAST_BITS < s <= 16 && Stop(lens, s - 1) <= k
        decreases 16 - s
      {
        assert s < 16 && z.Level(lens, s);
        s := s + 1;
      }
      if s >= 16 {
        Beyond(lens, v);
        return -1;
      }
      SlotMeans(z, lens, s, v);
      var b := Drop(k, 16 - s) - z.firstcode[s] + z.firstsymbol[s];
      Consume(s);
      r := z.value[b];
    }

    /** The slot that a window on level `s` selects. */
    lemma SlotMeans(z: HuffTable, lens: seq<nat>, s: nat, v: nat)
      requires z.Holds(lens) && 1 <= s <= 15
      requires Stop(lens, s - 1) <= Rev(v, 16) < z.maxcode[s]
      ensures var b := Drop(Rev(v, 16), 16 - s) - z.firstcode[s] + z.firstsymbol[s];
        && 0 <= b < NSYMS && z.size[b] == s && z.value[b] < |lens|
        && lens[z.value[b]] == s && StartsWith(lens, z.value[b], v)
    {
      assert z.Level(lens, s);
      var i := WindowSymbol(lens, s, Rev(v, 16));
      StartsIsWindow(lens, i, v);
      SlotBound(lens, i);
    }

    ghost function BufferTail(): nat
      requires Ready()
      reads this
    {
      LE(zbuffer[pos..])
    }

    /** The 16-bit window of the stream is found in the code buffer. */
    lemma WindowOfBuffer(v: nat, tail: nat)
      requires Ready() && num_bits >= 16 && v == Put(code_buffer, num_bits, tail)
      ensures Rev(code_buffer, 16) == Rev(v, 16)
    {
      TakeInside(code_buffer, num_bits, tail, 16);
      RevTake(v, 16);
      RevTake(code_buffer, 16);
    }
  }

  lemma WindowBound(v: nat)
    ensures Rev(v, 16) < 65536
  {
    RevBound(v, 16);
    Pow2Values();
  }

  /** For codes of at most nine bits, nine bits of the stream tell. */
  lemma FastStarts(lens: seq<nat>, v: nat)
    ensures forall i :: 0 <= i < |lens| && 1 <= lens[i] <= FAST_BITS ==>
      (StartsWith(lens, i, v) <==> StartsWith(lens, i, Take(v, FAST_BITS)))
  {
    forall i | 0 <= i < |lens| && 1 <= lens[i] <= FAST_BITS
      ensures StartsWith(lens, i, v) <==> StartsWith(lens, i, Take(v, FAST_BITS))
    {
      TakeTake(v, lens[i], FAST_BITS - lens[i]);
    }
  }

  /** A window that no short code starts lies above all short codes. */
  lemma AboveFast(lens: seq<nat>, v: nat)
    requires Fits(lens)
    requires forall i :: 0 <= i < |lens| && 1 <= lens[i] <= FAST_BITS ==> !StartsWith(lens, i, v)
    ensures Stop(lens, FAST_BITS) <= Rev(v, 16)
  {
    var w := Rev(v, 16);
    if w < Stop(lens, FAST_BITS) {
      var l := WindowLevelExists(lens, w, FAST_BITS);
      var i := WindowSymbol(lens, l, w);
      StartsIsWindow(lens, i, v);
    }
  }

  /** A window above all codes starts with none. */
  lemma Beyond(lens: seq<nat>, v: nat)
    requires Fits(lens) && Lengths(lens, 15) && Stop(lens, 15) <= Rev(v, 16)
    ensures forall i: nat :: !StartsWith(lens, i, v)
  {
    forall i: nat ensures !StartsWith(lens, i, v) {
      if StartsWith(lens, i, v) {
        StartsIsWindow(lens, i, v);
        WindowLevel(lens, i, Rev(v, 16));
        StopMono(lens, lens[i], 15);
      }
    }
  }

  lemma SymbolPut(lens: seq<nat>, i: nat, v: nat)
    requires StartsWith(lens, i, v)
    ensures v == PutSymbol(lens, i, Drop(v, lens[i]))
  {
    PutTake(v, lens[i]);
  }

  lemma SymbolWanted(lens: seq<nat>, i: nat, rest: nat, r: int)
    requires Fits(lens) && i < |lens| && lens[i] >= 1
    requires r >= 0 ==> StartsWith(lens, r, PutSymbol(lens, i, rest))
    ensures StartsWith(lens, i, PutSymbol(lens, i, rest))
    ensures r >= 0 ==> r == i && Drop(PutSymbol(lens, i, rest), lens[i]) == rest
  {
    PutStarts(lens, i, rest);
    if r >= 0 {
      StartsUnique(lens, i, r, PutSymbol(lens, i, rest));
    }
  }
}
