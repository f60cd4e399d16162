/** Text of INI files: what the helpers of ini.c compute, on strings and in place on a line buffer. */
module IniText {

  predicate IsSpace(c: char) {
    c == ' ' || '\t' <= c <= '\r'
  }

  const NUL: char := '\0'

  // ---------------------------------------------------------------- on strings

  function TrimStart(s: string): (r: string)
    ensures |r| <= |s| && s[|s| - |r|..] == r && (r != "" ==> !IsSpace(r[0]))
  {
    if s != "" && IsSpace(s[0]) then TrimStart(s[1..]) else s
  }

  function TrimEnd(s: string): (r: string)
    ensures |r| <= |s| && s[..|r|] == r && (r != "" ==> !IsSpace(r[|r| - 1]))
  {
    if s != "" && IsSpace(s[|s| - 1]) then TrimEnd(s[..|s| - 1]) else s
  }

  /** The first of `chars`, or the first semicolon behind a space, or the end. */
  function Find(s: string, chars: string, wasSpace: bool): (n: nat)
    ensures n <= |s|
  {
    if s == "" || s[0] in chars || (wasSpace && s[0] == ';') then 0
    else 1 + Find(s[1..], chars, IsSpace(s[0]))
  }

  function Uncommented(s: string): string {
    s[..Find(s, "", false)]
  }

  /** At most `size - 1` characters. */
  function Copied(s: string, size: nat): (r: string)
    requires size >= 1
    ensures |r| < size && r <= s
  {
    if |s| < size then s else s[..size - 1]
  }

  // ---------------------------------------------------------------- in place

  /** The string `s` stands at `i`, ended by a NUL. */
  ghost predicate IsStr(b: seq<char>, i: nat, s: string) {
    i + |s| < |b| && b[i..i + |s|] == s && b[i + |s|] == NUL && NUL !in s
  }

  lemma StrAt(b: seq<char>, i: nat, s: string, k: nat)
    requires IsStr(b, i, s) && k <= |s|
    ensures IsStr(b, i + k, s[k..])
    ensures k < |s| ==> b[i + k] == s[k] != NUL
    ensures b[i + k] == NUL <==> k == |s|
  {
    assert k < |s| ==> b[i..i + |s|][k] == s[k];
    assert k < |s| ==> s[k] in s;
  }

  method StrLen(line: array<char>, s: nat, ghost str: string) returns (n: nat)
    requires IsStr(line[..], s, str)
    ensures n == |str|
  {
    n := 0;
    StrAt(line[..], s, str, 0);
    while line[s + n] != NUL
      invariant n <= |str| && IsStr(line[..], s, str)
      invariant s + n < line.Length
      decreases |str| - n
    {
      StrAt(line[..], s, str, n);
      n := n + 1;
    }
    StrAt(line[..], s, str, n);
  }

  lemma StrFits(b: seq<char>, i: nat, s: string)
    requires IsStr(b, i, s)
    ensures i + |s| < |b|
  {
  }

  /** A string stays when the buffer changes only behind it, or only in front of it. */
  lemma StrKept(b: seq<char>, b': seq<char>, i: nat, s: string, m: nat)
    requires IsStr(b, i, s) && |b| == |b'| && m <= |b|
    requires (i + |s| < m && b[..m] == b'[..m]) || (m <= i && b[m..] == b'[m..])
    ensures IsStr(b', i, s)
  {
    forall t | i <= t <= i + |s| ensures b'[t] == b[t] {
      if i + |s| < m && b[..m] == b'[..m] {
        assert b[..m][t] == b'[..m][t];
      } else {
        assert b[m..][t - m] == b'[m..][t - m];
      }
    }
    assert b'[i..i + |s|] == b[i..i + |s|];
  }

  lemma CutAt(b: seq<char>, i: nat, s: string, k: nat)
    requires IsStr(b, i, s) && k <= |s|
    ensures IsStr(b[i + k := NUL], i, s[..k])
  {
    var c := b[i + k := NUL];
    assert c[i..i + k] == b[i..i + |s|][..k];
    forall t | 0 <= t < k ensures s[..k][t] != NUL {
      assert s[t] in s;
    }
  }

  /** `*end = '\0'` */
  method Cut(line: array<char>, s: nat, k: nat, ghost str: string)
    requires IsStr(line[..], s, str) && k <= |str|
    modifies line
    ensures IsStr(line[..], s, str[..k]) && line[..s] == old(line[..s]) && line[s + k + 1..] == old(line[s + k + 1..])
  {
    CutAt(line[..], s, str, k);
    ghost var was := line[..];
    line[s + k] := NUL;
    assert line[..] == was[s + k := NUL];
  }

  lemma TrimStops(s: string)
    requires s != "" && !IsSpace(s[|s| - 1])
    ensures TrimEnd(s) == s
  {
  }

  lemma TrimGoes(s: string)
    requires s != "" && IsSpace(s[|s| - 1])
    ensures TrimEnd(s) == TrimEnd(s[..|s| - 1])
  {
  }

  lemma TrimNothing()
    ensures TrimEnd("") == ""
  {
  }

  /** `ini_rstrip` */
  method RStrip(line: array<char>, s: nat, ghost str: string)
    requires IsStr(line[..], s, str)
    modifies line
    ensures s + |str| <= line.Length
    ensures IsStr(line[..], s, TrimEnd(str)) && line[..s] == old(line[..s]) && line[s + |str|..] == old(line[s + |str|..])
  {
    hide TrimEnd, IsSpace, IsStr;
    StrAt(line[..], s, str, 0);
    StrFits(line[..], s, str);
    var p := StrLen(line, s, str);
    ghost var cur := str;
    while p > 0
      invariant p == |cur| <= |str| && IsStr(line[..], s, cur) && TrimEnd(cur) == TrimEnd(str)
      invariant line[..s] == old(line[..s]) && line[s + |str|..] == old(line[s + |str|..])
    {
      p := p - 1;
      StrAt(line[..], s, cur, p);
      if !IsSpace(line[s + p]) {
        TrimStops(cur);
        break;
      }
      TrimGoes(cur);
      ghost var tail := line[s + p + 1..];
      Cut(line, s, p, cur);
      assert line[s + |str|..] == line[s + p + 1..][|str| - p - 1..];
      cur := cur[..p];
    }
    if p == 0 { TrimNothing(); }
  }

  /** `ini_lskip` */
  method LSkip(line: array<char>, s: nat, ghost str: string) returns (p: nat)
    requires IsStr(line[..], s, str)
    ensures p == s + |str| - |TrimStart(str)| && IsStr(line[..], p, TrimStart(str))
  {
    p := s;
    ghost var cur := str;
    StrAt(line[..], s, cur, 0);
    while line[p] != NUL && IsSpace(line[p])
      invariant p + |cur| == s + |str| && IsStr(line[..], p, cur) && TrimStart(cur) == TrimStart(str)
      invariant line[p] == NUL <==> cur == ""
      invariant cur != "" ==> line[p] == cur[0]
      decreases |cur|
    {
      StrAt(line[..], p, cur, 1);
      cur := cur[1..];
      p := p + 1;
      StrAt(line[..], p, cur, 0);
    }
  }

  /** `ini_find_chars_or_comment` */
  method FindCharsOrComment(line: array<char>, s: nat, chars: string, ghost str: string) returns (p: nat)
    requires IsStr(line[..], s, str)
    ensures p == s + Find(str, chars, false) && p < line.Length
    ensures line[p] == if p == s + |str| then NUL else str[p - s]
  {
    hide IsStr, IsSpace, Find;
    StrFits(line[..], s, str);
    p := s;
    var was_space := false;
    ghost var cur := str;
    StrAt(line[..], s, cur, 0);
    assert str[0..] == str;
    while line[p] != NUL && line[p] !in chars && !(was_space && line[p] == ';')
      invariant s <= p < line.Length && p + |cur| == s + |str| && IsStr(line[..], p, cur) && cur == str[p - s..]
      invariant p - s + Find(cur, chars, was_space) == Find(str, chars, false)
      invariant line[p] == NUL <==> cur == ""
      invariant cur != "" ==> line[p] == cur[0]
      decreases |cur|
    {
      FindGoes(cur, chars, was_space);
      was_space := IsSpace(line[p]);
      StrAt(line[..], p, cur, 1);
      StrFits(line[..], p, cur);
      cur := cur[1..];
      p := p + 1;
      StrAt(line[..], p, cur, 0);
    }
    FindStops(cur, chars, was_space);
  }

  lemma FindGoes(s: string, chars: string, wasSpace: bool)
    requires s != "" && s[0] !in chars && !(wasSpace && s[0] == ';')
    ensures Find(s, chars, wasSpace) == 1 + Find(s[1..], chars, IsSpace(s[0]))
  {
  }

  lemma FindStops(s: string, chars: string, wasSpace: bool)
    requires s == "" || s[0] in chars || (wasSpace && s[0] == ';')
    ensures Find(s, chars, wasSpace) == 0
  {
  }
}
