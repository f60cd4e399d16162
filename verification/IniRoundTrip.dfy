/** Plain sections, names and values, written as lines and parsed back. */
module IniRoundTrip {
  import opened IniText
  import opened IniParser

  /** Without line ends, without any of `chars`, and without a semicolon behind a space. */
  predicate Plain(s: string, chars: string) {
    Find(s, chars, false) == |s| && '\n' !in s && NUL !in s
  }

  predicate Trimmed(s: string) {
    s != "" ==> !IsSpace(s[0]) && !IsSpace(s[|s| - 1])
  }

  /** Short, trimmed and free of delimiters; a name does not look like a comment or a section. */
  predicate CallOk(c: Call) {
    && Plain(c.section, "]") && |c.section| < MAX_SECTION
    && Plain(c.name, "=:") && Trimmed(c.name) && (c.name != "" ==> c.name[0] !in ";#[")
    && Plain(c.value, "") && Trimmed(c.value)
    && |c.name| + |c.value| + 2 < MAX_LINE
  }

  ghost predicate CallsOk(cs: seq<Call>) {
    forall i :: 0 <= i < |cs| ==> CallOk(cs[i])
  }

  function SectionLineOf(c: Call): string {
    "[" + c.section + "]\n"
  }

  function PairLineOf(c: Call): string {
    c.name + "=" + c.value + "\n"
  }

  function LinesOf(cs: seq<Call>): (ls: seq<string>)
    ensures |ls| == 2 * |cs|
    ensures forall i :: 0 <= i < |cs| ==> ls[2 * i] == SectionLineOf(cs[i]) && ls[2 * i + 1] == PairLineOf(cs[i])
  {
    if cs == [] then [] else LinesOf(cs[..|cs| - 1]) + [SectionLineOf(cs[|cs| - 1]), PairLineOf(cs[|cs| - 1])]
  }

  /** For each call its section line and its pair. */
  function Rendered(cs: seq<Call>): string {
    Joined(LinesOf(cs))
  }

  // ---------------------------------------------------------------- lines are found again

  ghost predicate WholeLine(l: string) {
    0 < |l| < MAX_LINE && l[|l| - 1] == '\n' && forall i :: 0 <= i < |l| - 1 ==> l[i] != '\n'
  }

  lemma {:induction false} LengthOf(l: string, rest: string, room: nat)
    requires 0 < |l| <= room && l[|l| - 1] == '\n' && forall i :: 0 <= i < |l| - 1 ==> l[i] != '\n'
    ensures LineLength(l + rest, room) == |l|
    decreases |l|
  {
    if |l| > 1 {
      assert (l + rest)[1..] == l[1..] + rest;
      LengthOf(l[1..], rest, room - 1);
    }
  }

  lemma {:induction false} LinesFound(ls: seq<string>)
    requires forall i :: 0 <= i < |ls| ==> WholeLine(ls[i])
    ensures Lines(Joined(ls)) == ls
    decreases |ls|
  {
    hide LineLength;
    if ls != [] {
      LinesFound(ls[1..]);
      assert WholeLine(ls[0]);
      var s := Joined(ls);
      LengthOf(ls[0], Joined(ls[1..]), MAX_LINE - 1);
      assert s[..|ls[0]|] == ls[0] && s[|ls[0]|..] == Joined(ls[1..]);
      assert Lines(s) == [ls[0]] + Lines(Joined(ls[1..]));
    }
  }

  // ---------------------------------------------------------------- what the lines say

  lemma {:induction false} FindAppend(s: string, chars: string, wasSpace: bool, c: char, rest: string)
    requires Find(s, chars, wasSpace) == |s| && c in chars
    ensures Find(s + [c] + rest, chars, wasSpace) == |s|
    decreases |s|
  {
    if s != "" {
      assert (s + [c] + rest)[1..] == s[1..] + [c] + rest;
      FindAppend(s[1..], chars, IsSpace(s[0]), c, rest);
    }
  }

  lemma TrimNewline(s: string)
    requires s != "" && !IsSpace(s[|s| - 1])
    ensures TrimEnd(s + "\n") == s
  {
    assert (s + "\n")[..|s|] == s;
    TrimGoes(s + "\n");
    TrimStops(s);
  }

  lemma NotTrimmed(s: string)
    requires s != "" ==> !IsSpace(s[0])
    ensures TrimStart(s) == s
  {
  }

  /** A line that is not indented, without its newline. */
  lemma LineSays(l: string, t: string, prev: string, first: bool)
    requires AfterBom(l, first) == l && TrimStart(l) == l && TrimEnd(l) == t && t != "" && t[0] != ';' && t[0] != '#'
    ensures Classify(l, prev, first) == if t[0] == '[' then SectionOf(t[1..]) else PairOf(t)
  {
    hide SectionOf, PairOf, TrimEnd, TrimStart, AfterBom;
  }

  lemma SectionSays(c: Call, prev: string, first: bool)
    requires CallOk(c)
    ensures Classify(SectionLineOf(c), prev, first) == Section(c.section)
  {
    hide Find, TrimEnd, TrimStart, Classify, SectionOf;
    var l := SectionLineOf(c);
    var t := "[" + c.section + "]";
    assert l == t + "\n" && l[0] == '[' && t[|t| - 1] == ']';
    NoBom(l, first);
    NotTrimmed(l);
    TrimNewline(t);
    LineSays(l, t, prev, first);
    assert t[1..] == c.section + [']'] + "";
    FindAppend(c.section, "]", false, ']', "");
    SectionIs(c.section, t[1..]);
  }

  lemma NoBom(l: string, first: bool)
    requires l != "" && l[0] != BOM[0]
    ensures AfterBom(l, first) == l
  {
    assert |l| >= 3 ==> l[..3][0] == l[0];
  }

  lemma SectionIs(s: string, t: string)
    requires t == s + "]" && Find(t, "]", false) == |s|
    ensures SectionOf(t) == Section(s)
  {
    assert t[..|s|] == s;
  }

  lemma SectionWhole(c: Call)
    requires CallOk(c)
    ensures WholeLine(SectionLineOf(c))
  {
    hide Find;
    var l := SectionLineOf(c);
    assert l[1..1 + |c.section|] == c.section;
    Inside(l, c.section, 1);
  }

  /** A text without newlines inside a line. */
  lemma Inside(l: string, s: string, k: nat)
    requires '\n' !in s && k + |s| <= |l| && l[k..k + |s|] == s
    ensures forall i :: k <= i < k + |s| ==> l[i] != '\n'
  {
    forall i | k <= i < k + |s| ensures l[i] != '\n' {
      assert l[k..k + |s|][i - k] == s[i - k] && s[i - k] in s;
    }
  }

  lemma PairSays(c: Call, prev: string)
    requires CallOk(c)
    ensures Classify(PairLineOf(c), prev, false) == Pair(c.name, c.value)
  {
    hide Find, TrimEnd, TrimStart, Classify, PairOf;
    var l, t := PairLineOf(c), c.name + "=" + c.value;
    assert l == t + "\n";
    assert l[0] == t[0] == if c.name == "" then '=' else c.name[0];
    assert t[|t| - 1] == if c.value == "" then '=' else c.value[|c.value| - 1];
    NotTrimmed(l);
    TrimNewline(t);
    LineSays(l, t, prev, false);
    PairIs(c);
  }

  lemma PairWhole(c: Call)
    requires CallOk(c)
    ensures WholeLine(PairLineOf(c))
  {
    hide Find;
    var l := PairLineOf(c);
    assert l[0..|c.name|] == c.name && l[|c.name| + 1..|c.name| + 1 + |c.value|] == c.value;
    Inside(l, c.name, 0);
    Inside(l, c.value, |c.name| + 1);
  }

  lemma PairIs(c: Call)
    requires CallOk(c)
    ensures PairOf(c.name + "=" + c.value) == Pair(c.name, c.value)
  {
    hide Find, TrimEnd, TrimStart;
    var t := c.name + "=" + c.value;
    FindAppend(c.name, "=:", false, '=', c.value);
    assert t == c.name + ['='] + c.value;
    assert t[..|c.name|] == c.name && t[|c.name| + 1..] == c.value;
    if c.name == "" { TrimNothing(); } else { TrimStops(c.name); }
    assert Uncommented(c.value) == c.value;
    NotTrimmed(c.value);
    if c.value == "" { TrimNothing(); } else { TrimStops(c.value); }
  }

  // ---------------------------------------------------------------- all of it

  lemma {:induction false} CallsBack(cs: seq<Call>, k: nat, handler: Handler)
    requires CallsOk(cs) && k <= |cs|
    ensures CallsTo(LinesOf(cs), 2 * k) == cs[..k]
    ensures forall i :: 0 <= i < 2 * k ==>
      (Fails(LinesOf(cs), i, handler) <==> i % 2 == 1 && !handler(cs[..i / 2 + 1]))
    decreases k
  {
    hide LinesOf, Classify, StateAt, ItemAt, CallsTo, Fails, CallOk;
    var ls := LinesOf(cs);
    if k == 0 {
      FirstState(ls);
    } else {
      CallsBack(cs, k - 1, handler);
      var j := 2 * (k - 1);
      var c := cs[k - 1];
      SectionSays(c, StateAt(ls, j).prev, j == 0);
      LineMeans(ls, j, Section(c.section), handler);
      PairSays(c, StateAt(ls, j + 1).prev);
      LineMeans(ls, j + 1, Pair(c.name, c.value), handler);
      SectionShort(c);
      assert cs[..k] == cs[..k - 1] + [c];
    }
  }

  lemma SectionShort(c: Call)
    requires CallOk(c)
    ensures Copied(c.section, MAX_SECTION) == c.section
  {
  }

  /** The text parses back to exactly these calls, and fails on the line of the first one that the handler
      does not accept. */
  method RenderThenParse(cs: seq<Call>, handler: Handler) returns (error: nat, calls: seq<Call>)
    requires CallsOk(cs)
    ensures calls == cs
    ensures error == 0 <==> forall n :: 0 < n <= |cs| ==> handler(cs[..n])
    ensures error > 0 ==>
      && error % 2 == 0 && error / 2 <= |cs| && !handler(cs[..error / 2])
      && forall n :: 0 < n < error / 2 ==> handler(cs[..n])
  {
    hide LinesOf, Lines, StateAt, ItemAt, CallsTo, Fails, CallOk, Joined;
    var ls := LinesOf(cs);
    AllWhole(cs);
    LinesFound(ls);
    NoNul(cs);
    CallsBack(cs, |cs|, handler);
    error, calls := ParseString(Rendered(cs), handler);
    assert cs[..|cs|] == cs;
    if error == 0 {
      forall n | 0 < n <= |cs| ensures handler(cs[..n]) {
        assert !Fails(ls, 2 * n - 1, handler);
      }
    } else {
      assert Fails(ls, error - 1, handler);
      forall n | 0 < n < error / 2 ensures handler(cs[..n]) {
        assert !Fails(ls, 2 * n - 1, handler);
      }
    }
  }

  lemma AllWhole(cs: seq<Call>)
    requires CallsOk(cs)
    ensures forall i :: 0 <= i < |LinesOf(cs)| ==> WholeLine(LinesOf(cs)[i])
  {
    hide CallOk, WholeLine;
    var ls := LinesOf(cs);
    forall i | 0 <= i < |ls| ensures WholeLine(ls[i]) {
      var c := cs[i / 2];
      assert ls[2 * (i / 2)] == SectionLineOf(c) && ls[2 * (i / 2) + 1] == PairLineOf(c);
      SectionWhole(c);
      PairWhole(c);
    }
  }

  lemma NoNul(cs: seq<Call>)
    requires CallsOk(cs)
    ensures NUL !in Rendered(cs)
  {
    hide CallOk;
    forall i | 0 <= i < |LinesOf(cs)| ensures NUL !in LinesOf(cs)[i] {
      var c := cs[i / 2];
      assert LinesOf(cs)[2 * (i / 2)] == SectionLineOf(c) && LinesOf(cs)[2 * (i / 2) + 1] == PairLineOf(c);
      NoNulIn(c);
    }
    NoNulJoined(LinesOf(cs));
  }

  lemma NoNulIn(c: Call)
    requires CallOk(c)
    ensures NUL !in SectionLineOf(c) && NUL !in PairLineOf(c)
  {
  }

  lemma {:induction false} NoNulJoined(ls: seq<string>)
    requires forall i :: 0 <= i < |ls| ==> NUL !in ls[i]
    ensures NUL !in Joined(ls)
  {
    if ls != [] { NoNulJoined(ls[1..]); }
  }
}
