/** The string functions of the Go library the modelled code relies on, for ASCII text. */
module Text {
  predicate HasPrefix(s: string, p: string) {
    |p| <= |s| && s[..|p|] == p
  }

  predicate HasSuffix(s: string, p: string) {
    |p| <= |s| && s[|s| - |p|..] == p
  }

  predicate Contains(s: string, part: string) {
    exists i :: 0 <= i <= |s| && HasPrefix(s[i..], part)
  }

  function Lower(c: char): char {
    if 'A' <= c <= 'Z' then (c as int + 32) as char else c
  }

  function ToLower(s: string): (r: string)
    ensures |r| == |s| && forall i :: 0 <= i < |s| ==> r[i] == Lower(s[i])
  {
    seq(|s|, i requires 0 <= i < |s| => Lower(s[i]))
  }

  predicate IsSpace(c: char) {
    c in {' ', '\t', '\n', '\r'} || c as int in {11, 12}
  }

  function TrimLeft(s: string): string {
    if s != [] && IsSpace(s[0]) then TrimLeft(s[1..]) else s
  }

  function TrimRight(s: string): string {
    if s != [] && IsSpace(s[|s| - 1]) then TrimRight(s[..|s| - 1]) else s
  }

  function TrimSpace(s: string): string {
    TrimRight(TrimLeft(s))
  }

  function TrimBlank(s: string): (r: string)
    ensures |r| <= |s|
  {
    if s != [] && s[0] in {' ', '\t'} then TrimBlank(s[1..]) else s
  }

  function LastIndex(s: string, c: char): (r: int)
    ensures -1 <= r < |s| && (r >= 0 ==> s[r] == c) && forall i :: r < i < |s| ==> s[i] != c
  {
    if s == [] then -1 else if s[|s| - 1] == c then |s| - 1 else LastIndex(s[..|s| - 1], c)
  }

  function Index(s: string, c: char): (r: int)
    ensures -1 <= r < |s| && (r >= 0 ==> s[r] == c)
    ensures forall i :: 0 <= i < (if r < 0 then |s| else r) ==> s[i] != c
  {
    if s == [] then -1
    else if s[0] == c then 0
    else if Index(s[1..], c) < 0 then -1
    else Index(s[1..], c) + 1
  }

  /** The leading spaces and tabs. */
  function Indent(s: string): string {
    if s != [] && s[0] in {' ', '\t'} then [s[0]] + Indent(s[1..]) else []
  }

  predicate NoSpaces(s: string) {
    forall i :: 0 <= i < |s| ==> !IsSpace(s[i])
  }

  predicate AllSpaces(s: string) {
    forall i :: 0 <= i < |s| ==> IsSpace(s[i])
  }

  /** Starts and ends with something visible. */
  predicate Trimmed(s: string) {
    s != [] && !IsSpace(s[0]) && !IsSpace(s[|s| - 1])
  }

  function WordLength(s: string): (n: nat)
    ensures n <= |s| && NoSpaces(s[..n]) && (n < |s| ==> IsSpace(s[n]))
  {
    if s == [] || IsSpace(s[0]) then 0
    else
      var n := WordLength(s[1..]);
      assert forall i :: 0 < i < n + 1 ==> s[i] == s[1..][i - 1];
      1 + n
  }

  lemma TrimLeftShrinks(s: string)
    ensures |TrimLeft(s)| <= |s| && (TrimLeft(s) != [] ==> !IsSpace(TrimLeft(s)[0]))
  {
  }

  /** strings.Fields: the words between runs of white space. */
  function Fields(s: string): seq<string>
    decreases |s|
  {
    TrimLeftShrinks(s);
    var t := TrimLeft(s);
    if t == [] then []
    else [t[..WordLength(t)]] + Fields(t[WordLength(t)..])
  }

  // ---------- lemmas ----------

  lemma {:induction false} TrimLeftSpaces(indent: string, s: string)
    requires AllSpaces(indent) && (s == [] || !IsSpace(s[0]))
    ensures TrimLeft(indent + s) == s
  {
    if indent == [] {
      assert indent + s == s;
    } else {
      assert (indent + s)[1..] == indent[1..] + s;
      TrimLeftSpaces(indent[1..], s);
    }
  }

  lemma TrimIndented(indent: string, s: string)
    requires AllSpaces(indent) && Trimmed(s)
    ensures TrimSpace(indent + s) == s
  {
    TrimLeftSpaces(indent, s);
  }

  lemma {:induction false} TrimRightSpaces(s: string, trail: string)
    requires AllSpaces(trail) && (s == [] || !IsSpace(s[|s| - 1]))
    ensures TrimRight(s + trail) == s
  {
    if trail == [] {
      assert s + trail == s;
    } else {
      var init := trail[..|trail| - 1];
      assert (s + trail)[..|s + trail| - 1] == s + init;
      TrimRightSpaces(s, init);
    }
  }

  /** White space around a text is trimmed, whatever it is made of. */
  lemma TrimAround(indent: string, s: string, trail: string)
    requires AllSpaces(indent) && Trimmed(s) && AllSpaces(trail)
    ensures TrimSpace(indent + (s + trail)) == s
  {
    assert (s + trail)[0] == s[0];
    TrimLeftSpaces(indent, s + trail);
    TrimRightSpaces(s, trail);
  }

  lemma WordThenSpace(w: string, rest: string)
    requires w != [] && NoSpaces(w) && (rest == [] || IsSpace(rest[0]))
    ensures Fields(w + rest) == [w] + Fields(rest)
  {
    var s := w + rest;
    assert s[0] == w[0] && TrimLeft(s) == s;
    var n := WordLength(s);
    assert forall i :: 0 <= i < n ==> !IsSpace(s[..n][i]) && s[..n][i] == s[i];
    assert forall i :: 0 <= i < |w| ==> s[i] == w[i];
    assert |w| < |s| ==> s[|w|] == rest[0];
    assert n == |w|;
    assert s[..|w|] == w && s[|w|..] == rest;
  }

  lemma FieldsOfTwo(a: string, b: string)
    requires a != [] && b != [] && NoSpaces(a) && NoSpaces(b)
    ensures Fields(a + (" " + b)) == [a, b]
  {
    WordThenSpace(a, " " + b);
    assert TrimLeft(" " + b) == b by {
      TrimLeftSpaces(" ", b);
    }
    FieldsOfOne(b);
    assert Fields(" " + b) == Fields(b) by {
      assert TrimLeft(b) == b;
    }
  }

  lemma TwoAndMore(a: string, b: string, rest: string)
    requires a != [] && b != [] && NoSpaces(a) && NoSpaces(b) && (rest == [] || IsSpace(rest[0]))
    ensures Fields(a + (" " + (b + rest))) == [a, b] + Fields(rest)
  {
    var s := b + rest;
    WordThenSpace(a, " " + s);
    assert s[0] == b[0];
    assert TrimLeft(" " + s) == s by {
      TrimLeftSpaces(" ", s);
    }
    WordThenSpace(b, rest);
    assert Fields(" " + s) == Fields(s) by {
      assert TrimLeft(s) == s;
    }
  }

  lemma FieldsOfOne(b: string)
    requires b != [] && NoSpaces(b)
    ensures Fields(b) == [b]
  {
    assert b + [] == b;
    WordThenSpace(b, []);
  }

  lemma {:induction false} TrimLeftLeaves(s: string)
    requires s != [] && !IsSpace(s[|s| - 1])
    ensures TrimLeft(s) != []
  {
    if IsSpace(s[0]) {
      TrimLeftLeaves(s[1..]);
    }
  }

  lemma SomeWord(s: string)
    requires s != [] && !IsSpace(s[|s| - 1])
    ensures Fields(s) != []
  {
    TrimLeftLeaves(s);
  }

  /** White space between visible ends separates words. */
  lemma SeveralWords(s: string, i: nat)
    requires Trimmed(s) && i < |s| && IsSpace(s[i])
    ensures |Fields(s)| >= 2
  {
    var n := WordLength(s);
    assert s[..|s|] == s;
    SomeWord(s[n..]);
    assert TrimLeft(s) == s;
  }

  lemma {:induction false} IndentIs(indent: string, s: string)
    requires (forall i :: 0 <= i < |indent| ==> indent[i] in {' ', '\t'}) && (s == [] || s[0] !in {' ', '\t'})
    ensures Indent(indent + s) == indent
  {
    if indent == [] {
      assert indent + s == s;
    } else {
      assert (indent + s)[1..] == indent[1..] + s;
      IndentIs(indent[1..], s);
    }
  }

  lemma {:induction false} IndentIsSpace(s: string)
    ensures AllSpaces(Indent(s)) && Indent(s) <= s
  {
    if s != [] && s[0] in {' ', '\t'} {
      IndentIsSpace(s[1..]);
    }
  }

  // ---------- lines ----------

  /** strings.Split on the newline. */
  function SplitLines(s: string): (ls: seq<string>)
    ensures ls != []
  {
    if s == [] then [[]]
    else
      var ls := SplitLines(s[1..]);
      if s[0] == '\n' then [[]] + ls else [[s[0]] + ls[0]] + ls[1..]
  }

  /** strings.Join with the newline. */
  function JoinLines(ls: seq<string>): string {
    if ls == [] then [] else if |ls| == 1 then ls[0] else ls[0] + ("\n" + JoinLines(ls[1..]))
  }

  predicate OneLine(s: string) {
    forall i :: 0 <= i < |s| ==> s[i] != '\n'
  }

  lemma {:induction false} SplitFirstLine(l: string, rest: string)
    requires OneLine(l)
    ensures SplitLines(l + ("\n" + rest)) == [l] + SplitLines(rest)
    ensures SplitLines(l) == [l]
  {
    if l == [] {
      assert l + ("\n" + rest) == "\n" + rest;
      assert ("\n" + rest)[1..] == rest;
    } else {
      SplitFirstLine(l[1..], rest);
      assert (l + ("\n" + rest))[1..] == l[1..] + ("\n" + rest);
      assert [l[0]] + l[1..] == l;
    }
  }

  /** A file written from lines reads back as those lines. */
  lemma {:induction false} SplitJoin(ls: seq<string>)
    requires ls != [] && forall l :: l in ls ==> OneLine(l)
    ensures SplitLines(JoinLines(ls)) == ls
  {
    if |ls| == 1 {
      SplitFirstLine(ls[0], []);
    } else {
      SplitJoin(ls[1..]);
      SplitFirstLine(ls[0], JoinLines(ls[1..]));
    }
  }

  lemma JoinMore(c: char, l: string, ls: seq<string>)
    ensures JoinLines([[c] + l] + ls) == [c] + JoinLines([l] + ls)
  {
    if ls != [] {
      assert ([[c] + l] + ls)[1..] == ls && ([l] + ls)[1..] == ls;
    }
  }

  lemma JoinEmpty(ls: seq<string>)
    requires ls != []
    ensures JoinLines([[]] + ls) == "\n" + JoinLines(ls)
  {
    assert ([[]] + ls)[1..] == ls;
  }

  lemma {:induction false} SplitJoins(s: string)
    ensures JoinLines(SplitLines(s)) == s
  {
    if s != [] {
      var ls := SplitLines(s[1..]);
      SplitJoins(s[1..]);
      JoinEmpty(ls);
      JoinMore(s[0], ls[0], ls[1..]);
      assert [ls[0]] + ls[1..] == ls;
      assert [s[0]] + s[1..] == s;
    }
  }

  lemma {:induction false} SplitIsLines(s: string)
    ensures forall l :: l in SplitLines(s) ==> OneLine(l)
    ensures JoinLines(SplitLines(s)) == s
  {
    SplitJoins(s);
    SplitOneLines(s);
  }

  lemma {:induction false} SplitOneLines(s: string)
    ensures forall i :: 0 <= i < |SplitLines(s)| ==> OneLine(SplitLines(s)[i])
  {
    if s != [] {
      SplitOneLines(s[1..]);
    }
  }
}
