/**
 The ssh client configuration as lines, what OpenSSH obtains from them for one host by the
 first-obtained-value rule of ssh_config(5), and the edit that makes three directives effective.
 */
module SshConfig {
  import opened Wrappers
  import opened Text
  import opened Numerals

  // ---------- one line ----------

  function IndexAny(s: string, set_: set<char>): (n: nat)
    ensures n <= |s| && (n < |s| ==> s[n] in set_) && forall i :: 0 <= i < n ==> s[i] !in set_
  {
    if s == [] || s[0] in set_ then 0 else 1 + IndexAny(s[1..], set_)
  }

  function TrimLeftSet(s: string, set_: set<char>): string {
    if s != [] && s[0] in set_ then TrimLeftSet(s[1..], set_) else s
  }

  const SEPARATORS: set<char> := {' ', '\t', '='}

  datatype Directive = Directive(key: string, value: string)

  /** Keyword and arguments of a line; the keyword is empty for blank lines and comments. */
  function Parse(line: string): Directive {
    var t := TrimSpace(line);
    if t == "" || t[0] == '#' then Directive("", "")
    else
      var i := IndexAny(t, SEPARATORS);
      if i == |t| then Directive(t, "")
      else Directive(t[..i], TrimSpace(TrimLeftSet(t[i..], SEPARATORS)))
  }

  /** A line of the file together with what it reads as; keywords are case-insensitive. */
  datatype Line = Line(text: string, key: string, value: string, blank: bool)

  function Read(text: string): Line {
    Line(text, ToLower(Parse(text).key), Parse(text).value, TrimSpace(text) == "")
  }

  predicate IsBlockStart(line: Line) {
    line.key == "host" || line.key == "match"
  }

  /** What a line without blanks around it is split into. */
  lemma ParseSplits(text: string, key: string, tail: string)
    requires key != "" && NoSpaces(key) && key[0] != '#' && forall i :: 0 <= i < |key| ==> key[i] !in SEPARATORS
    requires tail != "" && tail[0] == ' ' && !IsSpace(tail[|tail| - 1]) && text == key + tail
    ensures Trimmed(text) && Parse(text) == Directive(key, TrimSpace(TrimLeftSet(tail, SEPARATORS)))
  {
    assert text[0] == key[0] && text[|text| - 1] == tail[|tail| - 1];
    assert [] + text == text;
    TrimIndented([], text);
    assert text[|key|] == ' ' && forall j :: 0 <= j < |key| ==> text[j] == key[j];
    assert IndexAny(text, SEPARATORS) == |key|;
    assert text[..|key|] == key && text[|key|..] == tail;
  }

  lemma ParseIndented(indent: string, text: string)
    requires AllSpaces(indent) && Trimmed(text)
    ensures Parse(indent + text) == Parse(text)
  {
    TrimIndented(indent, text);
    assert [] + text == text;
    TrimIndented([], text);
  }

  lemma ValueBehindSpace(value: string)
    requires Trimmed(value) && value[0] != '='
    ensures TrimSpace(TrimLeftSet(" " + value, SEPARATORS)) == value
  {
    assert (" " + value)[1..] == value;
    assert TrimLeftSet(value, SEPARATORS) == value;
    assert [] + value == value;
    TrimIndented([], value);
  }

  /** A directive written as this program writes it reads back as itself. */
  lemma ParseWritten(indent: string, key: string, value: string)
    requires AllSpaces(indent) && Trimmed(value) && value[0] != '='
    requires key != "" && NoSpaces(key) && key[0] != '#' && forall i :: 0 <= i < |key| ==> key[i] !in SEPARATORS
    ensures Parse(indent + (key + (" " + value))) == Directive(key, value)
  {
    var tail := " " + value;
    ParseSplits(key + tail, key, tail);
    ParseIndented(indent, key + tail);
    ValueBehindSpace(value);
  }

  /** Something a keyword and its value may be separated by: any run of blanks, tabs and equals signs. */
  predicate Separates(sep: string) {
    sep != "" && forall i :: 0 <= i < |sep| ==> sep[i] in {' ', '\t', '='}
  }

  /** A keyword: it starts visibly, is no comment, and ends at the first separator. */
  predicate IsKeyword(key: string) {
    && key != "" && !IsSpace(key[0]) && key[0] != '#'
    && forall i :: 0 <= i < |key| ==> key[i] != ' ' && key[i] != '\t' && key[i] != '='
  }

  /** A directive as it may stand in the file. */
  function DirectiveText(indent: string, key: string, sep: string, value: string, trail: string): string {
    indent + ((key + (sep + value)) + trail)
  }

  lemma {:induction false} SeparatorsGo(sep: string, value: string)
    requires (forall i :: 0 <= i < |sep| ==> sep[i] in {' ', '\t', '='}) && Trimmed(value) && value[0] != '='
    ensures TrimLeftSet(sep + value, SEPARATORS) == value
  {
    if sep == "" {
      assert sep + value == value;
    } else {
      assert (sep + value)[1..] == sep[1..] + value;
      SeparatorsGo(sep[1..], value);
    }
  }

  /** Keyword and value are told apart whatever blanks, tabs and equals signs stand between them. */
  lemma ParseSeparated(indent: string, key: string, sep: string, value: string, trail: string)
    requires AllSpaces(indent) && IsKeyword(key) && Separates(sep) && Trimmed(value) && value[0] != '=' && AllSpaces(trail)
    ensures Parse(DirectiveText(indent, key, sep, value, trail)) == Directive(key, value)
  {
    var t := key + (sep + value);
    assert t[0] == key[0] && t[|t| - 1] == value[|value| - 1];
    TrimAround(indent, t, trail);
    assert t[|key|] == sep[0] && forall j :: 0 <= j < |key| ==> t[j] == key[j];
    assert IndexAny(t, SEPARATORS) == |key|;
    assert t[..|key|] == key && t[|key|..] == sep + value;
    SeparatorsGo(sep, value);
    TrimAround("", value, "");
    assert "" + (value + "") == value;
  }

  /** A keyword without a value. */
  lemma ParseAlone(indent: string, key: string, trail: string)
    requires AllSpaces(indent) && IsKeyword(key) && Trimmed(key) && AllSpaces(trail)
    ensures Parse(indent + (key + trail)) == Directive(key, "")
  {
    TrimAround(indent, key, trail);
    assert IndexAny(key, SEPARATORS) == |key|;
  }

  /** So a Host line names the words of its value. */
  lemma HostLineIsRead(indent: string, key: string, sep: string, names: string, trail: string, host: string)
    requires AllSpaces(indent) && IsKeyword(key) && Separates(sep) && Trimmed(names) && names[0] != '=' && AllSpaces(trail)
    ensures NamesHost(Read(DirectiveText(indent, key, sep, names, trail)), host) <==> ToLower(key) == "host" && host in Fields(names)
  {
    ParseSeparated(indent, key, sep, names, trail);
  }

  // ---------- what OpenSSH obtains ----------

  /** A pattern of a Host line: `*` matches any run of characters, `?` any one. */
  predicate Glob(pattern: string, text: string)
    decreases |pattern| + |text|
  {
    if pattern == [] then text == []
    else if pattern[0] == '*' then Glob(pattern[1..], text) || (text != [] && Glob(pattern, text[1..]))
    else text != [] && (pattern[0] == '?' || pattern[0] == text[0]) && Glob(pattern[1..], text[1..])
  }

  predicate Negates(pattern: string, host: string) {
    pattern != [] && pattern[0] == '!' && Glob(pattern[1..], host)
  }

  predicate Accepts(pattern: string, host: string) {
    (pattern == [] || pattern[0] != '!') && Glob(pattern, host)
  }

  /** Some pattern accepts the host and none negates it. */
  predicate HostMatches(patterns: seq<string>, host: string) {
    (exists p :: p in patterns && Accepts(p, host)) && forall p :: p in patterns ==> !Negates(p, host)
  }

  // An active Include hands the decision to files this configuration does not show.
  datatype Obtained = Unset | Value(value: string) | Elsewhere

  /** The line names the host literally, which is what this program looks for. */
  predicate NamesHost(line: Line, host: string) {
    line.key == "host" && host in Fields(line.value)
  }

  /** Is the configuration still active for the host after `line`? Match criteria are the oracle's business. */
  predicate ActiveAfter(line: Line, active: bool, host: string, matches: string -> bool) {
    if line.key == "host" then HostMatches(Fields(line.value), host)
    else if line.key == "match" then matches(line.value)
    else active
  }

  /** The first value obtained for `key` from `lines`. */
  function First(lines: seq<Line>, key: string, active: bool, host: string, matches: string -> bool): Obtained {
    if lines == [] then Unset
    else if active && lines[0].key == "include" then Elsewhere
    else if active && lines[0].key == key then Value(lines[0].value)
    else First(lines[1..], key, ActiveAfter(lines[0], active, host, matches), host, matches)
  }

  /** The values of every active RemoteForward; they all apply. */
  function Forwards(lines: seq<Line>, active: bool, host: string, matches: string -> bool): seq<string> {
    if lines == [] then []
    else
      (if active && lines[0].key == "remoteforward" then [lines[0].value] else [])
      + Forwards(lines[1..], ActiveAfter(lines[0], active, host, matches), host, matches)
  }

  lemma {:induction false} GlobSelf(p: string)
    ensures Glob(p, p)
  {
    if p != [] {
      GlobSelf(p[1..]);
    }
  }

  // ---------- forwards and values ----------

  /** net.SplitHostPort. */
  function SplitHostPort(s: string): Option<(string, string)> {
    var i := LastIndex(s, ':');
    if i < 0 then None
    else if s[0] == '[' then
      var end := Index(s, ']');
      if end < 1 || end + 1 != i then None
      else if '[' in s[1..] || ']' in s[end + 1..] then None
      else Some((s[1..end], s[i + 1..]))
    else if ':' in s[..i] || '[' in s || ']' in s then None
    else Some((s[..i], s[i + 1..]))
  }

  /** `isLoopbackIP` is the library's parse of an IP address and its loopback test. */
  predicate ForwardMatches(value: string, port: nat, isLoopbackIP: string -> bool) {
    var fields := Fields(value);
    && |fields| >= 2 && fields[0] == Itoa(port)
    && var target := SplitHostPort(fields[1]);
      target.Some? && target.value.1 == Itoa(port) && IsLoopback(target.value.0, isLoopbackIP)
  }

  predicate IsLoopback(host: string, isLoopbackIP: string -> bool) {
    var h := ToLower(TrimSpace(host));
    h == "localhost" || isLoopbackIP(h)
  }

  function JoinSpace(words: seq<string>): string {
    if words == [] then "" else if |words| == 1 then words[0] else words[0] + (" " + JoinSpace(words[1..]))
  }

  function Normalized(value: string): string {
    ToLower(JoinSpace(Fields(value)))
  }

  function ForwardValue(port: nat): string {
    Itoa(port) + (" " + ("127.0.0.1:" + Itoa(port)))
  }

  lemma LoopbackTarget(p: string)
    requires forall i :: 0 <= i < |p| ==> IsDigit(p[i])
    ensures SplitHostPort("127.0.0.1:" + p) == Some(("127.0.0.1", p))
  {
    var s := "127.0.0.1:" + p;
    assert s[9] == ':' && forall i :: 10 <= i < |s| ==> s[i] == p[i - 10];
    assert LastIndex(s, ':') == 9;
    assert s[..9] == "127.0.0.1" && s[10..] == p;
    assert forall i :: 0 <= i < |s| ==> s[i] != '[' && s[i] != ']';
  }

  lemma ForwardValueMatches(port: nat, isLoopbackIP: string -> bool)
    requires isLoopbackIP("127.0.0.1")
    ensures ForwardMatches(ForwardValue(port), port, isLoopbackIP)
  {
    var p := Itoa(port);
    ValueOfDigits(port);
    assert forall i :: 0 <= i < |p| ==> IsDigit(p[i]);
    TargetHasNoSpaces(p);
    LoopbackTarget(p);
    LoopbackHost("127.0.0.1", isLoopbackIP);
    MatchesFrom(p, "127.0.0.1:" + p, "127.0.0.1", port, isLoopbackIP);
  }

  /** A target of a forward, with or without brackets around the host. */
  function TargetText(host: string, bracketed: bool, p: string): string {
    (if bracketed then "[" + (host + "]") else host) + (":" + p)
  }

  predicate HasNone(s: string, cs: set<char>) {
    forall i :: 0 <= i < |s| ==> s[i] !in cs
  }

  lemma SplitsPlain(host: string, p: string)
    requires HasNone(host, {'[', ']', ':'}) && HasNone(p, {'[', ']', ':'})
    ensures SplitHostPort(host + (":" + p)) == Some((host, p))
  {
    var s := host + (":" + p);
    assert s[|host|] == ':' && forall i :: |host| < i < |s| ==> s[i] == p[i - |host| - 1];
    assert LastIndex(s, ':') == |host|;
    assert s[..|host|] == host && s[|host| + 1..] == p;
    assert HasNone(s, {'[', ']'});
  }

  lemma SplitsBracketed(host: string, p: string)
    requires HasNone(host, {'[', ']'}) && HasNone(p, {'[', ']', ':'})
    ensures SplitHostPort("[" + (host + "]") + (":" + p)) == Some((host, p))
  {
    var s := "[" + (host + "]") + (":" + p);
    var end := |host| + 1;
    assert s[0] == '[' && s[end] == ']' && s[end + 1] == ':';
    assert forall i :: 0 < i < end ==> s[i] == host[i - 1];
    assert forall i :: end + 1 < i < |s| ==> s[i] == p[i - end - 2];
    assert LastIndex(s, ':') == end + 1 && Index(s, ']') == end;
    assert s[1..end] == host && s[end + 2..] == p;
    assert HasNone(s[1..], {'['}) && HasNone(s[end + 1..], {']'});
  }

  lemma SplitsTarget(host: string, bracketed: bool, p: string)
    requires HasNone(host, if bracketed then {'[', ']'} else {'[', ']', ':'}) && HasNone(p, {'[', ']', ':'})
    ensures SplitHostPort(TargetText(host, bracketed, p)) == Some((host, p))
  {
    if bracketed {
      SplitsBracketed(host, p);
    } else {
      SplitsPlain(host, p);
    }
  }

  lemma TargetIsOneWord(host: string, bracketed: bool, p: string)
    requires NoSpaces(host) && NoSpaces(p)
    ensures NoSpaces(TargetText(host, bracketed, p)) && TargetText(host, bracketed, p) != ""
  {
    assert NoSpaces("[" + (host + "]")) && NoSpaces(":" + p);
  }

  lemma LoopbackMeans(host: string, isLoopbackIP: string -> bool)
    requires NoSpaces(host)
    ensures IsLoopback(host, isLoopbackIP) <==> ToLower(host) == "localhost" || isLoopbackIP(ToLower(host))
  {
    if host != "" {
      TrimAround("", host, "");
      assert "" + (host + "") == host;
    }
  }

  lemma WantedFrom(listen: string, target: string, rest: string, host: string, p: string, port: nat, isLoopbackIP: string -> bool)
    requires listen != "" && target != "" && NoSpaces(listen) && NoSpaces(target) && SplitHostPort(target) == Some((host, p))
    requires rest == "" || IsSpace(rest[0])
    ensures ForwardMatches(listen + (" " + (target + rest)), port, isLoopbackIP) <==>
      listen == Itoa(port) && p == Itoa(port) && IsLoopback(host, isLoopbackIP)
  {
    TwoAndMore(listen, target, rest);
  }

  /**
   A RemoteForward is the wanted one exactly when it listens on the port and leads to the same port of
   localhost, in any case of letters, or of a loopback address, whatever words follow.
   */
  lemma ForwardIsWanted(listen: string, host: string, bracketed: bool, p: string, rest: string, port: nat, isLoopbackIP: string -> bool)
    requires listen != "" && NoSpaces(listen) && NoSpaces(host) && NoSpaces(p) && (rest == "" || IsSpace(rest[0]))
    requires HasNone(host, if bracketed then {'[', ']'} else {'[', ']', ':'}) && HasNone(p, {'[', ']', ':'})
    ensures ForwardMatches(listen + (" " + (TargetText(host, bracketed, p) + rest)), port, isLoopbackIP) <==>
      && listen == Itoa(port) && p == Itoa(port)
      && (ToLower(host) == "localhost" || isLoopbackIP(ToLower(host)))
  {
    TargetIsOneWord(host, bracketed, p);
    SplitsTarget(host, bracketed, p);
    LoopbackMeans(host, isLoopbackIP);
    WantedFrom(listen, TargetText(host, bracketed, p), rest, host, p, port, isLoopbackIP);
  }

  lemma OneWordIsNoForward(word: string, port: nat, isLoopbackIP: string -> bool)
    requires NoSpaces(word)
    ensures !ForwardMatches(word, port, isLoopbackIP)
  {
    if word != "" {
      FieldsOfOne(word);
    }
  }

  /** Two values agree but for case and white space exactly when they are the same word but for case. */
  lemma NormalizedMeans(value: string, word: string)
    requires Trimmed(value) && word != "" && NoSpaces(word) && ToLower(word) == word
    ensures Normalized(value) == Normalized(word) <==> ToLower(value) == word
  {
    FieldsOfOne(word);
    if NoSpaces(value) {
      FieldsOfOne(value);
    } else {
      var i :| 0 <= i < |value| && IsSpace(value[i]);
      SeveralWords(value, i);
      var words := Fields(value);
      assert JoinSpace(words)[|words[0]|] == ' ';
      assert Normalized(value)[|words[0]|] == ' ';
      assert IsSpace(ToLower(value)[i]);
    }
  }

  lemma MatchesFrom(p: string, target: string, host: string, port: nat, isLoopbackIP: string -> bool)
    requires p == Itoa(port) && p != "" && target != "" && NoSpaces(p) && NoSpaces(target)
    requires SplitHostPort(target) == Some((host, p)) && IsLoopback(host, isLoopbackIP)
    ensures ForwardMatches(p + (" " + target), port, isLoopbackIP)
  {
    FieldsOfTwo(p, target);
  }

  lemma TargetHasNoSpaces(p: string)
    requires forall i :: 0 <= i < |p| ==> IsDigit(p[i])
    ensures NoSpaces(p) && NoSpaces("127.0.0.1:" + p)
  {
    assert NoSpaces("127.0.0.1:");
  }

  lemma LoopbackHost(h: string, isLoopbackIP: string -> bool)
    requires Trimmed(h) && isLoopbackIP(h) && forall i :: 0 <= i < |h| ==> !('A' <= h[i] <= 'Z')
    ensures IsLoopback(h, isLoopbackIP)
  {
    assert [] + h == h;
    TrimIndented([], h);
    assert ToLower(h) == h;
  }

  lemma ForwardValueShape(port: nat)
    ensures Trimmed(ForwardValue(port)) && ForwardValue(port)[0] != '=' && OneLine(ForwardValue(port))
  {
    var p := Itoa(port);
    ValueOfDigits(port);
    assert forall i :: 0 <= i < |p| ==> IsDigit(p[i]);
    assert ForwardValue(port)[|ForwardValue(port)| - 1] == p[|p| - 1];
  }
}
