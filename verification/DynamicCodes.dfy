/** `stbi__compute_huffman_codes`: the header of a block with its own codes (section 3.2.7 of RFC 1951). */
module DynamicCodes {
  import opened Basics
  import opened Bits
  import opened Canonical
  import opened ZHuffman
  import opened BitReader
  import opened Deflate
  import opened Feeding

  /** One instruction of the code-length list comes next. */
  ghost predicate OpAhead(op: LenOp, cl: seq<nat>, v: nat, rest: nat) {
    OpCoded(op, cl) && v == PutOp(op, cl, rest)
  }

  /** Read one instruction. */
  method ReadOp(z: ZBuf, t: HuffTable, ghost cl: seq<nat>, ghost want: Goal<LenOp>)
    returns (ok: bool, op: LenOp)
    requires z.Ready() && t.Holds(cl) && |cl| == 19 && {z as object} !! t.Repr()
    requires want.Want? ==> want.items != [] && OpAhead(want.items[0], cl, z.Stream(), want.rest) && !z.Fed().Dry()
    modifies z
    ensures z.Ready()
    ensures ok ==> OpAhead(op, cl, old(z.Stream()), z.Stream())
    ensures ok ==> z.Fed() == FeedOp(old(z.Fed()), op, cl)
    ensures want.Want? ==> ok && op == want.items[0] && z.Stream() == want.rest
  {
    hide HuffTable.Holds, Put, Take, Drop, Code, Pow2;
    ghost var v := z.Stream();
    op := One(0);
    var c := z.HuffmanDecode(t, cl);
    if want.Want? {
      var w := want.items[0];
      SymbolWanted(cl, w.Symbol(), Put(w.Extra(), w.Size(), want.rest), c);
    }
    if c < 0 || c >= 19 {
      return false, op;
    }
    SymbolPut(cl, c, v);
    ghost var s := z.Stream();
    if c < 16 {
      op := One(c);
      NoExtra(s);
    } else if c == 16 {
      var n := z.Receive(2);
      op := Again(n + 3);
      ReadField(s, n, 2);
    } else if c == 17 {
      var n := z.Receive(3);
      op := FewZeros(n + 3);
      ReadField(s, n, 3);
    } else {
      var n := z.Receive(7);
      op := ManyZeros(n + 11);
      ReadField(s, n, 7);
    }
    if want.Want? {
      FieldIs(op.Extra(), want.items[0].Extra(), op.Size(), z.Stream(), want.rest);
    }
    ok := true;
  }

  lemma NoExtra(s: nat)
    ensures s == Put(0, 0, s)
  {
  }

  lemma ReadField(s: nat, k: nat, n: nat)
    requires k == Take(s, n)
    ensures s == Put(k, n, Drop(s, n)) && k < Pow2(n)
    ensures Pow2(2) == 4 && Pow2(3) == 8 && Pow2(7) == 128
  {
    PutTake(s, n);
    TakeBound(s, n);
    Pow2Values();
  }

  lemma FieldIs(a: nat, b: nat, n: nat, rest: nat, rest': nat)
    requires n <= 7 && Put(a, n, rest) == Put(b, n, rest')
    requires a < Pow2(n) && b < Pow2(n)
    ensures a == b && rest == rest'
  {
    PutUnique(a, b, n, rest, rest');
  }

  // ---------------------------------------------------------------- the lengths of the code-length code

  /** Sizes read so far, put in their places; what a goal says is still to come. */
  ghost predicate SizesAhead(want: Goal<nat>, done: nat, n: nat, v: nat)
  {
    want.Want? ==>
      && |want.items| + done == n && (forall i :: 0 <= i < |want.items| ==> want.items[i] < 8)
      && v == PutSizes(want.items, want.rest)
  }

  /** Read `hclen` sizes of 3 bits. */
  method ReadSizes(z: ZBuf, hclen: nat, ghost want: Goal<nat>)
    returns (codelength_sizes: array<nat>, ghost sizes: seq<nat>)
    requires z.Ready() && 4 <= hclen <= 19 && SizesAhead(want, 0, hclen, z.Stream())
    modifies z
    ensures z.Ready() && z.Fed() == FeedSizes(old(z.Fed()), hclen)
    ensures fresh(codelength_sizes) && codelength_sizes[..] == ClLens(sizes)
    ensures |sizes| == hclen && forall i :: 0 <= i < hclen ==> sizes[i] < 8
    ensures old(z.Stream()) == PutSizes(sizes, z.Stream())
    ensures want.Want? ==> sizes == want.items && z.Stream() == want.rest
  {
    hide PutSizes, Take, Drop, FeedSizes, Feed.Field, ZBuf.Fed;
    codelength_sizes := new nat[19](_ => 0);
    ghost var f := z.Fed();
    NoSizes(z.Stream(), f);
    sizes := [];
    ghost var todo := want;
    for i := 0 to hclen
      invariant z.Ready() && z.Fed() == FeedSizes(f, i)
      invariant |sizes| == i && forall j :: 0 <= j < i ==> sizes[j] < 8
      invariant codelength_sizes[..] == ClLens(sizes)
      invariant old(z.Stream()) == PutSizes(sizes, z.Stream())
      invariant SizesAhead(todo, i, hclen, z.Stream()) && todo.Want? == want.Want?
      invariant want.Want? ==> want.items == sizes + todo.items && want.rest == todo.rest
    {
      ghost var v := z.Stream();
      var s := z.Receive(3);
      codelength_sizes[ClOrder(i)] := s;
      PlaceSize(sizes, s);
      todo := AfterSize(todo, i, hclen, v, s);
      SizeRead(sizes, s, v);
      MoreSizes(f, i);
      assert todo.Want? ==> (sizes + [s]) + todo.items == sizes + ([s] + todo.items);
      sizes := sizes + [s];
    }
    if todo.Want? {
      assert todo.items == [];
      NoSizes(todo.rest, f);
    }
  }

  lemma NoSizes(v: nat, f: Feed)
    ensures PutSizes([], v) == v && forall s :: 0 <= s < 19 ==> ClLens([])[s] == 0
    ensures FeedSizes(f, 0) == f
  {
  }

  lemma MoreSizes(f: Feed, n: nat)
    ensures FeedSizes(f, n + 1) == FeedSizes(f, n).Field(3)
  {
  }

  lemma SizeRead(sizes: seq<nat>, s: nat, v: nat)
    requires s == Take(v, 3)
    ensures s < 8 && PutSizes(sizes + [s], Drop(v, 3)) == PutSizes(sizes, v)
  {
    PutTake(v, 3);
    TakeBound(v, 3);
    Pow2Values();
    PutSizesAppend(sizes, s, Drop(v, 3));
  }

  lemma PlaceSize(sizes: seq<nat>, s: nat)
    requires |sizes| < 19
    ensures ClLens(sizes + [s]) == ClLens(sizes)[ClOrder(|sizes|) := s]
  {
    var k := ClOrder(|sizes|);
    assert ClPlace(k) == |sizes|;
    forall j | 0 <= j < 19 ensures ClLens(sizes + [s])[j] == ClLens(sizes)[k := s][j] {
    }
  }

  lemma AfterSize(want: Goal<nat>, done: nat, n: nat, v: nat, s: nat) returns (todo: Goal<nat>)
    requires SizesAhead(want, done, n, v) && done < n && s == Take(v, 3)
    ensures SizesAhead(todo, done + 1, n, Drop(v, 3)) && todo.Want? == want.Want?
    ensures want.Want? ==> want.items == [s] + todo.items && want.rest == todo.rest
  {
    todo := want;
    if want.Want? {
      Pow2Values();
      TakePut(want.items[0], 3, PutSizes(want.items[1..], want.rest));
      todo := Want(want.items[1..], want.rest);
      assert want.items == [want.items[0]] + want.items[1..];
    }
  }

  // ---------------------------------------------------------------- the code lengths

  /** What a goal says of the instructions to come, when they have given `acc` so far. */
  ghost predicate OpsAhead(want: Goal<LenOp>, cl: seq<nat>, acc: seq<nat>, ntot: nat, v: nat, f: Feed) {
    want.Want? ==>
      && OpsCoded(want.items, cl) && v == PutOps(want.items, cl, want.rest)
      && LenOpsLegal(acc, want.items) && |LenOps(acc, want.items)| == ntot
      && FeedOps(f, want.items, cl).Feed?
  }

  /** Instructions read from the stream, and the lengths they give. */
  ghost predicate OpsRead(ops: seq<LenOp>, cl: seq<nat>, v: nat, v': nat, acc: seq<nat>) {
    && OpsCoded(ops, cl) && v == PutOps(ops, cl, v') && LenOpsLegal([], ops) && acc == LenOps([], ops)
    && Lengths(acc, 15)
  }

  /** Carry out an instruction on the first `n` lengths, unless it repeats nothing or goes past `ntot`. */
  method ApplyOp(lencodes: array<nat>, n: nat, ntot: nat, op: LenOp) returns (ok: bool, n': nat)
    requires n < ntot <= lencodes.Length && op.InRange() && Lengths(lencodes[..n], 15)
    modifies lencodes
    ensures ok <==> LenOpLegal(old(lencodes[..n]), op) && |LenOp1(old(lencodes[..n]), op)| <= ntot
    ensures ok ==> n < n' <= ntot && lencodes[..n'] == LenOp1(old(lencodes[..n]), op)
    ensures ok ==> Lengths(lencodes[..n'], 15)
  {
    ghost var acc := lencodes[..n];
    n' := n;
    if op.One? {
      lencodes[n] := op.len;
      assert lencodes[..n + 1] == acc + [op.len];
      return true, n + 1;
    }
    var fill := 0;
    if op.Again? {
      if n == 0 {
        return false, n;
      }
      fill := lencodes[n - 1];
    }
    var c := op.n;
    if ntot - n < c {
      return false, n;
    }
    for i := 0 to c
      invariant lencodes[..n + i] == acc + Repeat(fill, i)
    {
      lencodes[n + i] := fill;
      assert lencodes[..n + i + 1] == lencodes[..n + i] + [fill];
    }
    return true, n + c;
  }

  /** Read instructions until they have given `ntot` lengths. */
  method ReadLengths(z: ZBuf, t: HuffTable, ghost cl: seq<nat>, ntot: nat, ghost want: Goal<LenOp>)
    returns (ok: bool, lencodes: array<nat>, ghost ops: seq<LenOp>)
    requires z.Ready() && t.Holds(cl) && |cl| == 19 && {z as object} !! t.Repr() && ntot <= 320
    requires OpsAhead(want, cl, [], ntot, z.Stream(), z.Fed())
    modifies z
    ensures z.Ready() && fresh(lencodes) && lencodes.Length == 455
    ensures ok ==> OpsRead(ops, cl, old(z.Stream()), z.Stream(), lencodes[..ntot])
    ensures ok ==> z.Fed() == FeedOps(old(z.Fed()), ops, cl)
    ensures want.Want? ==> ok && ops == want.items && z.Stream() == want.rest
  {
    hide PutOps, LenOps, LenOpsLegal, FeedOps, HuffTable.Holds, PutOp, LenOp1, ZBuf.Stream, ZBuf.Ready, ZBuf.Fed;
    lencodes := new nat[455];
    ops := [];
    ok := true;
    ghost var todo, v, f := want, z.Stream(), z.Fed();
    var n := 0;
    NoOps(cl, v, f);
    assert lencodes[..0] == [];
    while n < ntot && ok
      invariant z.Ready() && n <= ntot
      invariant ok ==> OpsRead(ops, cl, v, z.Stream(), lencodes[..n])
      invariant ok ==> z.Fed() == FeedOps(f, ops, cl)
      invariant ok ==> OpsAhead(todo, cl, lencodes[..n], ntot, z.Stream(), z.Fed())
      invariant todo.Want? == want.Want?
      invariant want.Want? ==> ok && want.items == ops + todo.items && want.rest == todo.rest
      decreases ok, ntot - n
    {
      ghost var o;
      ok, n, o, todo := ReadRound(z, t, cl, lencodes, n, ntot, ops, todo, v, f);
      if ok {
        if todo.Want? {
          assert (ops + [o]) + todo.items == ops + ([o] + todo.items);
        }
        ops := ops + [o];
      }
    }
    if ok && todo.Want? {
      NoneLeft(todo, cl, lencodes[..n], ntot, z.Stream(), z.Fed());
    }
  }

  lemma NoOps(cl: seq<nat>, v: nat, f: Feed)
    ensures OpsRead([], cl, v, v, []) && FeedOps(f, [], cl) == f
  {
  }

  lemma NoneLeft(todo: Goal<LenOp>, cl: seq<nat>, acc: seq<nat>, ntot: nat, v: nat, f: Feed)
    requires todo.Want? && OpsAhead(todo, cl, acc, ntot, v, f) && |acc| == ntot
    ensures todo.items == [] && v == todo.rest
  {
  }

  /** One round: read an instruction and carry it out. */
  method ReadRound(z: ZBuf, t: HuffTable, ghost cl: seq<nat>, lencodes: array<nat>, n: nat, ntot: nat,
                   ghost ops: seq<LenOp>, ghost todo: Goal<LenOp>, ghost v: nat, ghost f: Feed)
    returns (ok: bool, n': nat, ghost op: LenOp, ghost todo': Goal<LenOp>)
    requires z.Ready() && t.Holds(cl) && |cl| == 19 && {z as object, lencodes} !! t.Repr()
    requires n < ntot <= lencodes.Length
    requires OpsRead(ops, cl, v, z.Stream(), lencodes[..n]) && z.Fed() == FeedOps(f, ops, cl)
    requires OpsAhead(todo, cl, lencodes[..n], ntot, z.Stream(), z.Fed())
    modifies z, lencodes
    ensures z.Ready() && n' <= ntot
    ensures ok ==> n < n' && OpsRead(ops + [op], cl, v, z.Stream(), lencodes[..n'])
    ensures ok ==> z.Fed() == FeedOps(f, ops + [op], cl)
    ensures ok ==> OpsAhead(todo', cl, lencodes[..n'], ntot, z.Stream(), z.Fed())
    ensures todo'.Want? == todo.Want?
    ensures todo.Want? ==> ok && todo.items == [op] + todo'.items && todo'.rest == todo.rest
  {
    hide PutOps, LenOps, LenOpsLegal, FeedOps, FeedOp, HuffTable.Holds, PutOp;
    ghost var w, acc, g := z.Stream(), lencodes[..n], z.Fed();
    ghost var want := Unknown;
    if todo.Want? {
      want := FirstOp(todo, cl, acc, ntot, w, g);
    }
    var o;
    n' := n;
    todo' := todo;
    ok, o := ReadOp(z, t, cl, want);
    op := o;
    if ok {
      ok, n' := ApplyOp(lencodes, n, ntot, o);
      if ok {
        MoreOps(ops, o, cl, v, w, z.Stream(), acc, f);
        if todo.Want? {
          todo' := OtherOps(todo, cl, acc, ntot, w, g);
        }
      } else {
        n' := n;
      }
    }
  }

  lemma MoreOps(ops: seq<LenOp>, op: LenOp, cl: seq<nat>, v: nat, w: nat, w': nat, acc: seq<nat>, f: Feed)
    requires OpsRead(ops, cl, v, w, acc) && OpAhead(op, cl, w, w') && LenOpLegal(acc, op)
    ensures Lengths(LenOp1(acc, op), 15) ==> OpsRead(ops + [op], cl, v, w', LenOp1(acc, op))
    ensures OpsCoded(ops + [op], cl) && FeedOps(f, ops + [op], cl) == FeedOp(FeedOps(f, ops, cl), op, cl)
  {
    hide FeedOps, FeedOp, PutOp;
    PutOpsAppend(ops, op, cl, w');
    FeedOpsAppend(f, ops, op, cl);
    LenOpsAppend([], ops, op);
  }

  lemma FirstOp(todo: Goal<LenOp>, cl: seq<nat>, acc: seq<nat>, ntot: nat, v: nat, f: Feed)
    returns (want: Goal<LenOp>)
    requires todo.Want? && OpsAhead(todo, cl, acc, ntot, v, f) && |acc| < ntot
    ensures todo.items != [] && OpsCoded(todo.items[1..], cl)
    ensures want == Want([todo.items[0]], PutOps(todo.items[1..], cl, todo.rest))
    ensures OpAhead(todo.items[0], cl, v, want.rest) && !f.Dry()
    ensures LenOpLegal(acc, todo.items[0]) && |LenOp1(acc, todo.items[0])| <= ntot
  {
    assert todo.items != [];
    want := Want([todo.items[0]], PutOps(todo.items[1..], cl, todo.rest));
  }

  lemma OtherOps(todo: Goal<LenOp>, cl: seq<nat>, acc: seq<nat>, ntot: nat, v: nat, f: Feed)
    returns (todo': Goal<LenOp>)
    requires todo.Want? && todo.items != [] && OpsAhead(todo, cl, acc, ntot, v, f)
    ensures todo' == Want(todo.items[1..], todo.rest) && todo.items == [todo.items[0]] + todo'.items
    ensures var op := todo.items[0];
      && OpCoded(op, cl) && LenOpLegal(acc, op) && OpsCoded(todo'.items, cl)
      && OpsAhead(todo', cl, LenOp1(acc, op), ntot, PutOps(todo'.items, cl, todo.rest), FeedOp(f, op, cl))
  {
    todo' := Want(todo.items[1..], todo.rest);
  }

  // ---------------------------------------------------------------- the whole header

  /** A dynamic header comes next. */
  ghost predicate DynamicAhead(d: Dynamic, v: nat, rest: nat) {
    DynamicLegal(d) && v == PutDynamic(d, rest)
  }

  /** A header, and the lengths it gives; whether these fit is not looked at yet. */
  ghost predicate HeaderAhead(d: Dynamic, v: nat, rest: nat) {
    && 257 <= d.hlit <= 288 && 1 <= d.hdist <= 32 && 4 <= |d.sizes| <= 19
    && (forall i :: 0 <= i < |d.sizes| ==> d.sizes[i] < 8)
    && Fits(ClLens(d.sizes)) && OpsCoded(d.ops, ClLens(d.sizes))
    && LenOpsLegal([], d.ops) && |LenOps([], d.ops)| == d.hlit + d.hdist
    && Lengths(LitLens(d), 15) && Lengths(DistLens(d), 15)
    && v == Put(d.hlit - 257, 5, Put(d.hdist - 1, 5, Put(|d.sizes| - 4, 4,
              PutSizes(d.sizes, PutOps(d.ops, ClLens(d.sizes), rest)))))
  }

  /** The counts, the code-length code and the lengths. */
  method ReadHeader(z: ZBuf, ghost want: Goal<Dynamic>)
    returns (ok: bool, hlit: nat, hdist: nat, lencodes: array<nat>, ghost d: Dynamic)
    requires z.Ready()
    requires want.Want? ==> want.items != [] && DynamicAhead(want.items[0], z.Stream(), want.rest)
    requires want.Want? ==> FeedDynamic(z.Fed(), want.items[0]).Feed?
    modifies z
    ensures z.Ready() && fresh(lencodes) && lencodes.Length == 455
    ensures ok ==> HeaderAhead(d, old(z.Stream()), z.Stream())
    ensures ok ==> z.Fed() == FeedOps(FeedCounts(old(z.Fed()), |d.sizes|), d.ops, ClLens(d.sizes))
    ensures ok ==> hlit == d.hlit && hdist == d.hdist
    ensures ok ==> lencodes[..hlit] == LitLens(d) && lencodes[hlit..hlit + hdist] == DistLens(d)
    ensures want.Want? ==> ok && d == want.items[0] && z.Stream() == want.rest
  {
    hide HuffTable.Holds, PutSizes, PutOps, LenOps, LenOpsLegal, FeedSizes, FeedOps, Put, Take, Drop, Fits, Pow2;
    hide ZBuf.Stream, ZBuf.Ready;
    ghost var v := z.Stream();
    d := Dynamic(257, 1, [], []);
    var hclen;
    ghost var w1, w2 := Unknown, Unknown;
    hlit, hdist, hclen, w1 := ReadCounts(z, want);
    var sizes_array, sizes := ReadSizes(z, hclen, w1);
    if want.Want? {
      w2 := Want(want.items[0].ops, want.rest);
    }
    var z_codelength := new HuffTable();
    ok := z_codelength.Build(sizes_array[..]);
    if !ok {
      lencodes := new nat[455];
      return;
    }
    ghost var ops;
    ok, lencodes, ops := ReadLengths(z, z_codelength, ClLens(sizes), hlit + hdist, w2);
    if ok {
      d := Dynamic(hlit, hdist, sizes, ops);
      assert lencodes[..hlit] == LitLens(d) && lencodes[hlit..hlit + hdist] == DistLens(d);
    }
  }

  /** `stbi__compute_huffman_codes` */
  method ComputeHuffmanCodes(z: ZBuf, z_length: HuffTable, z_distance: HuffTable, ghost want: Goal<Dynamic>)
    returns (ok: bool, ghost d: Dynamic)
    requires z.Ready() && z_length.Shape() && z_distance.Shape()
    requires z_length.Repr() !! z_distance.Repr() && {z as object} !! (z_length.Repr() + z_distance.Repr())
    requires want.Want? ==> want.items != [] && DynamicAhead(want.items[0], z.Stream(), want.rest)
    requires want.Want? ==> FeedDynamic(z.Fed(), want.items[0]).Feed?
    modifies z, z_length.Repr(), z_distance.Repr()
    ensures z.Ready()
    ensures ok ==> DynamicAhead(d, old(z.Stream()), z.Stream()) && z.Fed() == FeedDynamic(old(z.Fed()), d)
    ensures ok ==> z_length.Holds(LitLens(d)) && z_distance.Holds(DistLens(d))
    ensures want.Want? ==> ok && d == want.items[0] && z.Stream() == want.rest
  {
    hide HuffTable.Holds, PutSizes, PutOps, LenOps, LenOpsLegal, FeedSizes, FeedOps, Put, Fits;
    var hlit, hdist, lencodes;
    ok, hlit, hdist, lencodes, d := ReadHeader(z, want);
    if !ok {
      return;
    }
    ok := z_length.Build(lencodes[..hlit]);
    if !ok {
      return;
    }
    ok := z_distance.Build(lencodes[hlit..hlit + hdist]);
  }

  /** The three counts that start the header. */
  method ReadCounts(z: ZBuf, ghost want: Goal<Dynamic>)
    returns (hlit: nat, hdist: nat, hclen: nat, ghost w: Goal<nat>)
    requires z.Ready()
    requires want.Want? ==> want.items != [] && DynamicAhead(want.items[0], z.Stream(), want.rest)
    modifies z
    ensures z.Ready() && z.Fed() == old(z.Fed()).Field(5).Field(5).Field(4)
    ensures 257 <= hlit <= 288 && 1 <= hdist <= 32 && 4 <= hclen <= 19
    ensures old(z.Stream()) == Put(hlit - 257, 5, Put(hdist - 1, 5, Put(hclen - 4, 4, z.Stream())))
    ensures w.Want? == want.Want? && SizesAhead(w, 0, hclen, z.Stream())
    ensures want.Want? ==> var d := want.items[0];
      hlit == d.hlit && hdist == d.hdist && w == Want(d.sizes, PutOps(d.ops, ClLens(d.sizes), want.rest))
  {
    hide PutSizes, PutOps, LenOps, LenOpsLegal, Put, Take, Drop, Fits, Pow2;
    Pow2Values();
    ghost var v := z.Stream();
    var a := z.Receive(5);
    PutTake(v, 5);
    ghost var v1 := z.Stream();
    var b := z.Receive(5);
    PutTake(v1, 5);
    ghost var v2 := z.Stream();
    var c := z.Receive(4);
    PutTake(v2, 4);
    hlit, hdist, hclen, w := a + 257, b + 1, c + 4, Unknown;
    if want.Want? {
      ghost var d := want.items[0];
      ghost var x := PutSizes(d.sizes, PutOps(d.ops, ClLens(d.sizes), want.rest));
      PutUnique(a, d.hlit - 257, 5, v1, Put(d.hdist - 1, 5, Put(|d.sizes| - 4, 4, x)));
      PutUnique(b, d.hdist - 1, 5, v2, Put(|d.sizes| - 4, 4, x));
      PutUnique(c, |d.sizes| - 4, 4, z.Stream(), x);
      w := Want(d.sizes, PutOps(d.ops, ClLens(d.sizes), want.rest));
    }
  }
}
