/** `ini_parse_string`: the lines of a string, and what each of them says to the handler. */
module IniParser {
  import opened Basics
  import opened IniText

  const MAX_LINE: nat := 200
  const MAX_SECTION: nat := 50
  const MAX_NAME: nat := 50

  // ---------------------------------------------------------------- lines

  /** How far the next line goes: to a newline, or to 199 characters, or to the end. */
  function LineLength(s: string, room: nat): (n: nat)
    ensures n <= |s| && n <= room && (s != "" && room > 0 ==> n > 0)
  {
    if s == "" || room == 0 then 0 else if s[0] == '\n' then 1 else 1 + LineLength(s[1..], room - 1)
  }

  function Lines(s: string): (ls: seq<string>)
    ensures |ls| <= |s|
    decreases |s|
  {
    var n := LineLength(s, MAX_LINE - 1);
    if s == "" then [] else [s[..n]] + Lines(s[n..])
  }

  function Joined(ls: seq<string>): string {
    if ls == [] then "" else ls[0] + Joined(ls[1..])
  }

  /** A newline only at the end, which every line but the last has unless it is full. */
  ghost predicate LineOk(l: string) {
    0 < |l| < MAX_LINE && (forall i :: 0 <= i < |l| - 1 ==> l[i] != '\n')
  }

  lemma {:induction false} LengthOk(s: string, room: nat)
    ensures var n := LineLength(s, room);
      && (forall i :: 0 <= i < n - 1 ==> s[i] != '\n')
      && (n == |s| || n == room || (n > 0 && s[n - 1] == '\n'))
  {
    if s != "" && room > 0 && s[0] != '\n' {
      LengthOk(s[1..], room - 1);
      var n := LineLength(s[1..], room - 1);
      forall i | 0 <= i < n ensures s[i] != '\n' {
        if i > 0 { assert s[i] == s[1..][i - 1]; }
      }
      assert n > 0 ==> s[n] == s[1..][n - 1];
    }
  }

  /** The lines of a string are the string. */
  lemma {:induction false} LinesJoin(s: string)
    ensures Joined(Lines(s)) == s && forall i :: 0 <= i < |Lines(s)| ==> LineOk(Lines(s)[i])
    decreases |s|
  {
    if s != "" {
      hide LineLength, LineOk;
      var n := LineLength(s, MAX_LINE - 1);
      FirstLineOk(s);
      LinesJoin(s[n..]);
      assert Lines(s) == [s[..n]] + Lines(s[n..]);
      assert Lines(s)[1..] == Lines(s[n..]);
    }
  }

  lemma FirstLineOk(s: string)
    requires s != ""
    ensures LineOk(s[..LineLength(s, MAX_LINE - 1)])
  {
    LengthOk(s, MAX_LINE - 1);
  }

  /** `ini_reader_string` over the rest of the string, which it takes the line from. */
  method ReadLine(line: array<char>, left: string) returns (more: bool, rest: string)
    requires line.Length == MAX_LINE && NUL !in left
    modifies line
    ensures more <==> left != ""
    ensures more ==>
      var n := LineLength(left, MAX_LINE - 1);
      IsStr(line[..], 0, left[..n]) && rest == left[n..]
    ensures !more ==> rest == left
  {
    hide IsStr;
    rest := left;
    if |left| == 0 {
      return false, left;
    }
    var num, strp := MAX_LINE, 0;
    assert rest[0..] == rest;
    while num > 1 && |rest| != 0
      invariant num >= 1 && strp + num <= MAX_LINE && strp <= |left| && rest == left[strp..]
      invariant line[..strp] == left[..strp]
      invariant strp + LineLength(rest, num - 1) == LineLength(left, MAX_LINE - 1)
      decreases num, |rest|
    {
      var c := rest[0];
      rest := rest[1..];
      line[strp] := c;
      strp := strp + 1;
      assert line[..strp] == left[..strp];
      if c == '\n' { break; }
      num := num - 1;
    }
    line[strp] := NUL;
    assert line[..strp] == left[..strp];
    LineIs(line[..], left[..strp], left);
    more := true;
  }

  lemma LineIs(b: seq<char>, s: string, all: string)
    requires |s| < |b| && b[..|s|] == s && b[|s|] == NUL && s <= all && NUL !in all
    ensures IsStr(b, 0, s)
  {
    assert b[0..0 + |s|] == s;
    forall t | 0 <= t < |s| ensures s[t] != NUL {
      assert all[t] in all;
    }
  }

  // ---------------------------------------------------------------- what a line says

  /** The section in force, and the name that an indented line continues. */
  datatype State = State(section: string, prev: string)

  datatype Call = Call(section: string, name: string, value: string)

  datatype Item = Nothing | Section(name: string) | Pair(name: string, value: string) | Continued(value: string) | Bad

  const BOM: string := ['\U{0000EF}', '\U{0000BB}', '\U{0000BF}']

  /** A byte order mark before the first line is passed over. */
  function AfterBom(line: string, first: bool): (r: string)
    ensures |r| <= |line| && line[|line| - |r|..] == r
  {
    if first && |line| >= 3 && line[..3] == BOM then line[3..] else line
  }

  /** `t` follows the opening bracket. */
  function SectionOf(t: string): Item {
    var e := Find(t, "]", false);
    if e < |t| && t[e] == ']' then Section(t[..e]) else Bad
  }

  function PairOf(t: string): Item {
    var e := Find(t, "=:", false);
    if e < |t| && (t[e] == '=' || t[e] == ':') then Pair(TrimEnd(t[..e]), TrimEnd(TrimStart(Uncommented(t[e + 1..]))))
    else Bad
  }

  function Classify(line: string, prev: string, first: bool): Item {
    var body := TrimStart(AfterBom(line, first));
    var t := TrimEnd(body);
    if t == "" || t[0] == ';' || t[0] == '#' then Nothing
    else if prev != "" && |body| < |line| then Continued(TrimEnd(Uncommented(t)))
    else if t[0] == '[' then SectionOf(t[1..])
    else PairOf(t)
  }

  function Next(st: State, item: Item): State {
    match item
    case Section(name) => State(Copied(name, MAX_SECTION), "")
    case Pair(name, _) => State(st.section, Copied(name, MAX_NAME))
    case _ => st
  }

  function CallOf(st: State, item: Item): Option<Call> {
    match item
    case Pair(name, value) => Some(Call(st.section, name, value))
    case Continued(value) => Some(Call(st.section, st.prev, value))
    case _ => None
  }

  /** The state before line `k`. */
  function StateAt(lines: seq<string>, k: nat): State
    requires k <= |lines|
    decreases k, 0
  {
    if k == 0 then State("", "") else Next(StateAt(lines, k - 1), ItemAt(lines, k - 1))
  }

  function ItemAt(lines: seq<string>, k: nat): Item
    requires k < |lines|
    decreases k, 1
  {
    Classify(lines[k], StateAt(lines, k).prev, k == 0)
  }

  /** The calls of the first `k` lines. */
  function CallsTo(lines: seq<string>, k: nat): seq<Call>
    requires k <= |lines|
  {
    if k == 0 then []
    else
      var c := CallOf(StateAt(lines, k - 1), ItemAt(lines, k - 1));
      CallsTo(lines, k - 1) + if c.Some? then [c.value] else []
  }

  /** A handler says whether it accepts the last of the calls made so far; what it says may depend on all of
      them, as with the state that the source hands through. */
  type Handler = seq<Call> -> bool

  /** Line `k` has no meaning, or the handler does not accept what it says. */
  predicate Fails(lines: seq<string>, k: nat, handler: Handler)
    requires k < |lines|
  {
    var item := ItemAt(lines, k);
    var c := CallOf(StateAt(lines, k), item);
    item == Bad || (c.Some? && !handler(CallsTo(lines, k + 1)))
  }

  // ---------------------------------------------------------------- one line, in the buffer

  /** The indented line of a value that goes on. */
  method ContinuedLine(line: array<char>, start: nat, ghost t: string) returns (value: string)
    requires IsStr(line[..], start, t)
    modifies line
    ensures value == TrimEnd(Uncommented(t))
  {
    hide IsStr;
    var end := FindCharsOrComment(line, start, "", t);
    Cut(line, start, end - start, t);
    RStrip(line, start, Uncommented(t));
    value := StringAt(line, start, TrimEnd(Uncommented(t)));
  }

  /** The string that a pointer into the buffer stands for. */
  method StringAt(line: array<char>, s: nat, ghost str: string) returns (r: string)
    requires IsStr(line[..], s, str)
    ensures r == str
  {
    var n := StrLen(line, s, str);
    r := line[s..s + n];
    assert r == line[..][s..s + n];
  }

  /** `[section]`, from behind the bracket. */
  method SectionLine(line: array<char>, start: nat, ghost t: string) returns (item: Item)
    requires IsStr(line[..], start, t)
    modifies line
    ensures item == SectionOf(t)
  {
    hide IsStr, Find;
    var end := FindCharsOrComment(line, start, "]", t);
    NotNul(line[..], start, t, end - start);
    if line[end] == ']' {
      Cut(line, start, end - start, t);
      var name := StringAt(line, start, t[..end - start]);
      item := Section(name);
    } else {
      item := Bad;
    }
  }

  lemma NotNul(b: seq<char>, i: nat, s: string, k: nat)
    requires IsStr(b, i, s) && k <= |s|
    ensures k < |s| ==> s[k] != NUL
  {
    StrAt(b, i, s, k);
  }

  /** `name = value`, cut apart in the buffer. */
  method PairLine(line: array<char>, start: nat, ghost t: string) returns (item: Item)
    requires IsStr(line[..], start, t)
    modifies line
    ensures item == PairOf(t)
  {
    hide IsStr, Find, TrimEnd, TrimStart, Uncommented;
    var end := FindCharsOrComment(line, start, "=:", t);
    var e := end - start;
    NotNul(line[..], start, t, e);
    if line[end] == '=' || line[end] == ':' {
      StrAt(line[..], start, t, e + 1);
      StrFits(line[..], start, t);
      ghost var rest, name := t[e + 1..], t[..e];
      ghost var b0 := line[..];
      Cut(line, start, e, t);
      StrKept(b0, line[..], end + 1, rest, end + 1);
      ghost var b1 := line[..];
      RStrip(line, start, name);
      assert line[..][end + 1..] == b1[end + 1..] by { assert line[end..][1..] == line[end + 1..]; }
      StrKept(b1, line[..], end + 1, rest, end + 1);
      StrFits(line[..], start, TrimEnd(name));
      ValueBehind(line, start, end + 1, TrimEnd(name), rest);
      var v := LSkip(line, end + 1, Uncommented(rest));
      ghost var b2 := line[..];
      RStrip(line, v, TrimStart(Uncommented(rest)));
      StrKept(b2, line[..], start, TrimEnd(name), v);
      var n := StringAt(line, start, TrimEnd(name));
      var value := StringAt(line, v, TrimEnd(TrimStart(Uncommented(rest))));
      item := Pair(n, value);
    } else {
      item := Bad;
    }
  }

  /** The comment behind a value is cut off; the name in front of it stays. */
  method ValueBehind(line: array<char>, start: nat, value: nat, ghost name: string, ghost rest: string)
    requires IsStr(line[..], start, name) && IsStr(line[..], value, rest) && start + |name| < value
    modifies line
    ensures IsStr(line[..], start, name) && IsStr(line[..], value, Uncommented(rest))
  {
    hide IsStr, Find;
    StrFits(line[..], value, rest);
    ghost var was := line[..];
    var end := FindCharsOrComment(line, value, "", rest);
    Cut(line, value, end - value, rest);
    StrKept(was, line[..], start, name, value);
  }

  /** What the line in the buffer says. */
  method ReadItem(line: array<char>, prev_name: string, first: bool, ghost raw: string) returns (item: Item)
    requires IsStr(line[..], 0, raw)
    modifies line
    ensures item == Classify(raw, prev_name, first)
  {
    hide IsStr, Find, TrimEnd, TrimStart, Uncommented, SectionOf, PairOf, AfterBom;
    ghost var body := AfterBom(raw, first);
    var start := SkipBom(line, first, raw);
    start := LSkip(line, start, body);
    RStrip(line, start, TrimStart(body));
    ghost var t := TrimEnd(TrimStart(body));
    StrAt(line[..], start, t, 0);
    StrFits(line[..], start, t);
    if line[start] == NUL || line[start] == ';' || line[start] == '#' {
      item := Nothing;
    } else if prev_name != "" && start > 0 {
      var value := ContinuedLine(line, start, t);
      item := Continued(value);
    } else if line[start] == '[' {
      StrAt(line[..], start, t, 1);
      item := SectionLine(line, start + 1, t[1..]);
    } else {
      item := PairLine(line, start, t);
    }
  }

  method SkipBom(line: array<char>, first: bool, ghost raw: string) returns (start: nat)
    requires IsStr(line[..], 0, raw)
    ensures start == |raw| - |AfterBom(raw, first)| && IsStr(line[..], start, AfterBom(raw, first))
  {
    hide IsStr;
    StrFits(line[..], 0, raw);
    start := 0;
    BomAt(line[..], raw);
    if first && |BOM| < line.Length && line[0] == BOM[0] && line[1] == BOM[1] && line[2] == BOM[2] {
      start := 3;
      StrAt(line[..], 0, raw, 3);
    }
  }

  lemma BomAt(b: seq<char>, raw: string)
    requires IsStr(b, 0, raw)
    ensures |raw| >= 3 && raw[..3] == BOM <==> |b| > 3 && b[0] == BOM[0] && b[1] == BOM[1] && b[2] == BOM[2]
  {
    hide IsStr;
    StrFits(b, 0, raw);
    StrAt(b, 0, raw, 0);
    if |raw| >= 1 { StrAt(b, 0, raw, 1); }
    if |raw| >= 2 { StrAt(b, 0, raw, 2); }
    assert |raw| >= 3 ==> raw[..3] == [raw[0], raw[1], raw[2]];
  }

  // ---------------------------------------------------------------- all lines

  /** `ini_parse_string`: the calls are those of the lines in turn, and the result is the number of the
      first line that fails, or 0. */
  method ParseString(input: string, handler: Handler) returns (error: nat, calls: seq<Call>)
    requires NUL !in input
    ensures calls == CallsTo(Lines(input), |Lines(input)|)
    ensures error == 0 <==> forall k :: 0 <= k < |Lines(input)| ==> !Fails(Lines(input), k, handler)
    ensures error > 0 ==>
      && error <= |Lines(input)| && Fails(Lines(input), error - 1, handler)
      && forall k :: 0 <= k < error - 1 ==> !Fails(Lines(input), k, handler)
  {
    hide Lines, Classify, LineLength, StateAt, ItemAt, CallsTo, Fails, IsStr;
    ghost var lines := Lines(input);
    var line := new char[MAX_LINE];
    var section, prev_name, lineno := "", "", 0;
    error, calls := 0, [];
    FirstState(lines);
    assert lines[0..] == lines;
    var more, left := ReadLine(line, input);
    ghost var at := input;
    FirstLine(input);
    while more
      invariant lineno <= |lines| && (more ==> at != "") && (!more ==> lineno == |lines|)
      invariant more ==>
        && NUL !in left && Lines(at) == lines[lineno..]
        && var n := LineLength(at, MAX_LINE - 1); IsStr(line[..], 0, at[..n]) && left == at[n..]
      invariant State(section, prev_name) == StateAt(lines, lineno) && calls == CallsTo(lines, lineno)
      invariant error == 0 ==> forall k :: 0 <= k < lineno ==> !Fails(lines, k, handler)
      invariant error > 0 ==>
        error <= lineno && Fails(lines, error - 1, handler) && forall k :: 0 <= k < error - 1 ==> !Fails(lines, k, handler)
      decreases |left|, more
    {
      NextLine(at, lines, lineno);
      ghost var raw := lines[lineno];
      lineno := lineno + 1;
      var item := ReadItem(line, prev_name, lineno == 1, raw);
      LineMeans(lines, lineno - 1, item, handler);
      match item {
      case Nothing =>
      case Section(name) =>
        section, prev_name := Copied(name, MAX_SECTION), "";
      case Pair(name, value) =>
        prev_name := Copied(name, MAX_NAME);
        calls := calls + [Call(section, name, value)];
        if !handler(calls) && error == 0 { error := lineno; }
      case Continued(value) =>
        calls := calls + [Call(section, prev_name, value)];
        if !handler(calls) && error == 0 { error := lineno; }
      case Bad =>
        if error == 0 { error := lineno; }
      }
      at := left;
      EndOfLines(at);
      more, left := ReadLine(line, left);
    }
  }

  lemma FirstState(lines: seq<string>)
    ensures StateAt(lines, 0) == State("", "") && CallsTo(lines, 0) == []
  {
  }

  lemma FirstLine(input: string)
    ensures input == "" ==> Lines(input) == []
    ensures Lines(input)[0..] == Lines(input)
  {
  }

  lemma EndOfLines(at: string)
    ensures at == "" <==> Lines(at) == []
    ensures at != "" ==> |at[LineLength(at, MAX_LINE - 1)..]| < |at|
  {
  }

  lemma NextLine(at: string, lines: seq<string>, lineno: nat)
    requires lineno <= |lines| && Lines(at) == lines[lineno..] && at != ""
    ensures lineno < |lines| && lines[lineno] == at[..LineLength(at, MAX_LINE - 1)]
    ensures Lines(at[LineLength(at, MAX_LINE - 1)..]) == lines[lineno + 1..]
    ensures LineLength(at, MAX_LINE - 1) > 0
  {
    var n := LineLength(at, MAX_LINE - 1);
    assert Lines(at) == [at[..n]] + Lines(at[n..]);
    assert lines[lineno..][0] == lines[lineno] && lines[lineno..][1..] == lines[lineno + 1..];
  }

  /** One line's part of the specification. */
  lemma LineMeans(lines: seq<string>, k: nat, item: Item, handler: Handler)
    requires k < |lines| && item == Classify(lines[k], StateAt(lines, k).prev, k == 0)
    ensures StateAt(lines, k + 1) == Next(StateAt(lines, k), item)
    ensures var c := CallOf(StateAt(lines, k), item);
      && CallsTo(lines, k + 1) == CallsTo(lines, k) + (if c.Some? then [c.value] else [])
      && Fails(lines, k, handler) == (item == Bad || (c.Some? && !handler(CallsTo(lines, k + 1))))
  {
  }
}
