/**
 The notify line of the Codex configuration: a scanner for one-line TOML arrays of strings, a printer
 it is held against, and the judgement of a line that already invokes this program.
 */
module CodexNotify {
  import opened Wrappers
  import opened Text
  import opened Numerals

  // ---------- the scanner ----------

  /** Just past the quote that closes a literal string. */
  function SingleEnd(s: string, i: nat): (end: Option<nat>)
    ensures end.Some? ==> i < end.value <= |s|
    decreases |s| - i
  {
    if i >= |s| then None else if s[i] == '\'' then Some(i + 1) else SingleEnd(s, i + 1)
  }

  /** Just past the quote that closes a basic string; a backslash takes the next character with it. */
  function DoubleEnd(s: string, i: nat): (end: Option<nat>)
    ensures end.Some? ==> i < end.value <= |s|
    decreases |s| - i
  {
    if i >= |s| then None
    else if s[i] == '"' then Some(i + 1)
    else if s[i] != '\\' then DoubleEnd(s, i + 1)
    else if i + 1 < |s| && s[i + 1] != '\n' then DoubleEnd(s, i + 2)
    else None
  }

  /** How long the string element at the front is. */
  function Element(rest: string): (n: Option<nat>)
    ensures n.Some? ==> 2 <= n.value <= |rest|
  {
    if rest == [] then None
    else if rest[0] == '"' then DoubleEnd(rest, 1)
    else if rest[0] == '\'' then SingleEnd(rest, 1)
    else None
  }

  /** A basic string stands for itself unless it has an escape or a newline in it, which `decode` sees to. */
  function ElementValue(element: string, decode: string -> Option<string>): Option<string>
    requires |element| >= 2
  {
    var inner := element[1..|element| - 1];
    if element[0] == '"' && ('\\' in inner || '\n' in inner) then decode(inner) else Some(inner)
  }

  /** The elements up to the closing bracket, behind those in `argv`, and what follows the bracket. */
  function Elements(rest: string, argv: seq<string>, decode: string -> Option<string>): Option<(seq<string>, string)>
    decreases |rest|
  {
    if rest != [] && rest[0] == ']' then Some((argv, rest[1..]))
    else
      var n := Element(rest);
      if n.None? then None
      else
        var value := ElementValue(rest[..n.value], decode);
        var after := TrimBlank(rest[n.value..]);
        if value.None? || after == [] then None
        else if after[0] == ',' then Elements(TrimBlank(after[1..]), argv + [value.value], decode)
        else if after[0] == ']' then Elements(after, argv + [value.value], decode)
        else None
  }

  predicate NothingOrComment(tail: string) {
    var t := TrimSpace(tail);
    t == "" || t[0] == '#'
  }

  function Argv(line: string, decode: string -> Option<string>): Option<seq<string>> {
    var eq := Index(line, '=');
    if eq < 0 then None
    else
      var rest := TrimSpace(line[eq + 1..]);
      if rest == [] || rest[0] != '[' then None
      else
        var elements := Elements(TrimBlank(rest[1..]), [], decode);
        if elements.Some? && NothingOrComment(elements.value.1) then Some(elements.value.0) else None
  }

  method CodexNotifyArgv(line: string, decode: string -> Option<string>) returns (argv: seq<string>, ok: bool)
    ensures Argv(line, decode) == if ok then Some(argv) else None
  {
    argv, ok := [], false;
    var eq := Index(line, '=');
    if eq < 0 {
      return;
    }
    var rest := TrimSpace(line[eq + 1..]);
    if rest == [] || rest[0] != '[' {
      return;
    }
    rest := TrimBlank(rest[1..]);
    ghost var start := rest;
    while !(rest != [] && rest[0] == ']')
      invariant Elements(rest, argv, decode) == Elements(start, [], decode)
      decreases |rest|
    {
      var n := Element(rest);
      if n.None? {
        return;
      }
      var value := ElementValue(rest[..n.value], decode);
      if value.None? {
        return;
      }
      argv := argv + [value.value];
      rest := TrimBlank(rest[n.value..]);
      if rest != [] && rest[0] == ',' {
        rest := TrimBlank(rest[1..]);
      } else if rest == [] || rest[0] != ']' {
        return;
      }
    }
    ok := NothingOrComment(rest[1..]);
  }

  // ---------- the printer ----------

  /** An element with its quote, and the blanks before and after the comma that follows it. */
  datatype Item = Item(elem: string, quote: char, before: string, after: string)

  predicate Blank(s: string) {
    forall i :: 0 <= i < |s| ==> s[i] == ' ' || s[i] == '\t'
  }

  /** A literal string without its quote in it, or a basic string without anything special in it. */
  predicate Printable(item: Item) {
    && Blank(item.before) && Blank(item.after)
    && if item.quote == '\'' then '\'' !in item.elem
       else item.quote == '"' && '"' !in item.elem && '\\' !in item.elem && '\n' !in item.elem
  }

  predicate AllPrintable(items: seq<Item>) {
    items == [] || (Printable(items[0]) && AllPrintable(items[1..]))
  }

  function Quoted(item: Item): string {
    [item.quote] + (item.elem + [item.quote])
  }

  /** The elements, a comma between any two and, if `trailing`, behind the last; then the bracket and `tail`. */
  function Printed(items: seq<Item>, trailing: bool, tail: string): string {
    if items == [] then "]" + tail
    else
      var rest := Printed(items[1..], trailing, tail);
      Quoted(items[0]) + (items[0].before + if |items| > 1 || trailing then "," + (items[0].after + rest) else rest)
  }

  function Elems(items: seq<Item>): seq<string> {
    if items == [] then [] else [items[0].elem] + Elems(items[1..])
  }

  lemma {:induction false} TrimBlankBlanks(blanks: string, s: string)
    requires Blank(blanks) && s != [] && s[0] != ' ' && s[0] != '\t'
    ensures TrimBlank(blanks + s) == s
  {
    if blanks == [] {
      assert blanks + s == s;
    } else {
      assert (blanks + s)[1..] == blanks[1..] + s;
      TrimBlankBlanks(blanks[1..], s);
    }
  }

  lemma {:induction false} SingleEndAt(s: string, i: nat, end: nat)
    requires i <= end < |s| && s[end] == '\'' && forall j :: i <= j < end ==> s[j] != '\''
    ensures SingleEnd(s, i) == Some(end + 1)
    decreases end - i
  {
    if i < end {
      SingleEndAt(s, i + 1, end);
    }
  }

  lemma {:induction false} DoubleEndAt(s: string, i: nat, end: nat)
    requires i <= end < |s| && s[end] == '"' && forall j :: i <= j < end ==> s[j] != '"' && s[j] != '\\'
    ensures DoubleEnd(s, i) == Some(end + 1)
    decreases end - i
  {
    if i < end {
      DoubleEndAt(s, i + 1, end);
    }
  }

  /** A printed element is found and read as itself. */
  lemma QuotedIsElement(item: Item, rest: string, decode: string -> Option<string>)
    requires Printable(item)
    ensures var text := Quoted(item) + rest;
      && Element(text) == Some(|Quoted(item)|) && text[..|Quoted(item)|] == Quoted(item) && text[|Quoted(item)|..] == rest
    ensures ElementValue(Quoted(item), decode) == Some(item.elem)
  {
    var text, end := Quoted(item) + rest, |item.elem| + 1;
    assert forall j :: 1 <= j < end ==> text[j] == item.elem[j - 1];
    assert text[end] == item.quote;
    if item.quote == '"' {
      DoubleEndAt(text, 1, end);
    } else {
      SingleEndAt(text, 1, end);
    }
    assert Quoted(item)[1..|Quoted(item)| - 1] == item.elem;
  }

  lemma PrintedStarts(items: seq<Item>, trailing: bool, tail: string)
    requires AllPrintable(items)
    ensures var text := Printed(items, trailing, tail);
      text != [] && text[0] != ' ' && text[0] != '\t' && text[0] != ','
    ensures items == [] ==> Printed(items, trailing, tail)[0] == ']' && Printed(items, trailing, tail)[1..] == tail
    ensures items != [] ==> Printed(items, trailing, tail)[0] != ']'
  {
  }

  /** The elements that were printed are the elements that are read. */
  lemma {:induction false} PrintedIsRead(items: seq<Item>, trailing: bool, tail: string, argv: seq<string>, decode: string -> Option<string>)
    requires AllPrintable(items)
    ensures Elements(Printed(items, trailing, tail), argv, decode) == Some((argv + Elems(items), tail))
    decreases items
  {
    PrintedStarts(items, trailing, tail);
    if items == [] {
      assert argv + [] == argv;
    } else {
      var item, rest := items[0], Printed(items[1..], trailing, tail);
      var comma := |items| > 1 || trailing;
      var next := if comma then "," + (item.after + rest) else rest;
      PrintedStarts(items[1..], trailing, tail);
      PrintedIsRead(items[1..], trailing, tail, argv + [item.elem], decode);
      QuotedIsElement(item, item.before + next, decode);
      TrimBlankBlanks(item.before, next);
      if comma {
        assert next[1..] == item.after + rest;
        TrimBlankBlanks(item.after, rest);
      }
      assert (argv + [item.elem]) + Elems(items[1..]) == argv + Elems(items);
    }
  }

  // ---------- whole lines ----------

  /** Blanks, and perhaps a comment. */
  datatype Tail = Tail(blanks: string, comment: string)

  predicate TailFormed(t: Tail) {
    AllSpaces(t.blanks) && (t.comment == "" || t.comment[0] == '#')
  }

  /** A line with a key, the blanks around the equals sign and the opening bracket, the array and a tail. */
  function Line(key: string, gap: string, lead: string, items: seq<Item>, trailing: bool, tail: Tail): string {
    key + ("=" + (gap + ("[" + (lead + Printed(items, trailing, tail.blanks + tail.comment)))))
  }

  lemma {:induction false} TrimRightSpaces(s: string)
    requires AllSpaces(s)
    ensures TrimRight(s) == []
  {
    if s != [] {
      TrimRightSpaces(s[..|s| - 1]);
    }
  }

  lemma {:induction false} TrimRightAppend(s: string, t: string)
    requires s != [] && !IsSpace(s[|s| - 1])
    ensures TrimRight(s + t) == s + TrimRight(t)
  {
    if t == [] {
      assert s + t == s;
    } else {
      assert (s + t)[..|s + t| - 1] == s + t[..|t| - 1];
      if IsSpace(t[|t| - 1]) {
        TrimRightAppend(s, t[..|t| - 1]);
      }
    }
  }

  lemma TrimmedTail(t: Tail)
    requires TailFormed(t)
    ensures NothingOrComment(TrimRight(t.blanks + t.comment))
  {
    if t.comment == "" {
      assert t.blanks + t.comment == t.blanks;
      TrimRightSpaces(t.blanks);
    } else {
      var c, rest := t.comment[..1], t.comment[1..];
      assert t.comment == c + rest;
      TrimRightAppend(t.blanks + c, rest);
      assert t.blanks + t.comment == (t.blanks + c) + rest;
      var trimmed := c + TrimRight(rest);
      assert TrimRight(t.blanks + t.comment) == t.blanks + trimmed;
      TrimLeftSpaces(t.blanks, trimmed);
      TrimRightAppend(c, TrimRight(rest));
    }
  }

  lemma {:induction false} PrintedTail(items: seq<Item>, trailing: bool, tail: string)
    ensures Printed(items, trailing, tail) == Printed(items, trailing, "") + tail
    ensures Printed(items, trailing, "") != [] && Printed(items, trailing, "")[|Printed(items, trailing, "")| - 1] == ']'
    decreases items
  {
    if items != [] {
      PrintedTail(items[1..], trailing, tail);
      var rest := Printed(items[1..], trailing, "");
      assert Printed(items[1..], trailing, tail) == rest + tail && rest != [] && rest[|rest| - 1] == ']';
    }
  }

  lemma BehindEquals(line: string, key: string, gap: string, body: string, t: string)
    requires '=' !in key && AllSpaces(gap) && Trimmed(body) && line == key + ("=" + (gap + (body + t)))
    ensures Index(line, '=') == |key| && TrimSpace(line[|key| + 1..]) == body + TrimRight(t)
  {
    assert line[|key|] == '=' && forall i :: 0 <= i < |key| ==> line[i] == key[i];
    assert Index(line, '=') == |key|;
    assert line[|key| + 1..] == gap + (body + t);
    TrimLeftSpaces(gap, body + t);
    TrimRightAppend(body, t);
  }

  lemma ReadOf(line: string, rest: string, elems: seq<string>, tail: string, decode: string -> Option<string>)
    requires Index(line, '=') >= 0 && TrimSpace(line[Index(line, '=') + 1..]) == rest && rest != [] && rest[0] == '['
    requires Elements(TrimBlank(rest[1..]), [], decode) == Some((elems, tail)) && NothingOrComment(tail)
    ensures Argv(line, decode) == Some(elems)
  {
  }

  lemma BodyIsRead(lead: string, items: seq<Item>, trailing: bool, t: string, decode: string -> Option<string>)
    requires Blank(lead) && AllPrintable(items)
    ensures var body := "[" + (lead + Printed(items, trailing, ""));
      Trimmed(body) && Elements(TrimBlank((body + t)[1..]), [], decode) == Some((Elems(items), t))
  {
    var elements := Printed(items, trailing, "");
    PrintedTail(items, trailing, t);
    PrintedStarts(items, trailing, t);
    Bracketed(lead, elements, t);
    TrimBlankBlanks(lead, elements + t);
    PrintedIsRead(items, trailing, t, [], decode);
    assert [] + Elems(items) == Elems(items);
  }

  lemma Bracketed(lead: string, elements: string, t: string)
    requires elements != [] && elements[|elements| - 1] == ']'
    ensures var body := "[" + (lead + elements); Trimmed(body) && (body + t)[1..] == lead + (elements + t)
  {
    var body := "[" + (lead + elements);
    assert body[|body| - 1] == ']' && body[0] == '[';
  }

  /**
   Every line that was printed, with literal strings or plain basic ones, with any blanks, with or without
   a trailing comma and a comment, is read as the strings that were printed.
   */
  lemma LineIsRead(key: string, gap: string, lead: string, items: seq<Item>, trailing: bool, tail: Tail, decode: string -> Option<string>)
    requires '=' !in key && AllSpaces(gap) && Blank(lead) && AllPrintable(items) && TailFormed(tail)
    ensures Argv(Line(key, gap, lead, items, trailing, tail), decode) == Some(Elems(items))
  {
    var t := tail.blanks + tail.comment;
    var body := "[" + (lead + Printed(items, trailing, ""));
    var line := Line(key, gap, lead, items, trailing, tail);
    PrintedTail(items, trailing, t);
    assert body + t == "[" + (lead + Printed(items, trailing, t));
    BodyIsRead(lead, items, trailing, TrimRight(t), decode);
    BehindEquals(line, key, gap, body, t);
    TrimmedTail(tail);
    ReadOf(line, body + TrimRight(t), Elems(items), TrimRight(t), decode);
  }

  // ---------- the judgement ----------

  datatype Verdict = Wired | Unconfirmed | OtherPort(port: int)

  const DEFAULT_PORT: int := 18339
  const PORT_VARIABLE := "CC_CLIP_PORT="

  predicate IsProgram(word: string, name: string) {
    word == name || HasSuffix(word, "/" + name)
  }

  predicate IsAssignment(word: string) {
    '=' in word && !HasPrefix(word, "-")
  }

  /** A program is named by itself or at the end of a path. */
  lemma ProgramMeans(word: string, name: string)
    ensures IsProgram(word, name) <==> word == name || exists dir :: word == dir + ("/" + name)
  {
    var tail := "/" + name;
    if HasSuffix(word, tail) {
      assert word == word[..|word| - |tail|] + tail;
    }
    forall dir | word == dir + tail ensures HasSuffix(word, tail) {
      assert word[|dir|..] == tail;
    }
  }

  ghost predicate Assigns(word: string, name: string, value: string) {
    word == name + ("=" + value) && (name == "" || name[0] != '-')
  }

  /** An assignment has an equals sign and is no flag. */
  lemma AssignmentMeans(word: string)
    ensures IsAssignment(word) <==> exists name, value :: Assigns(word, name, value)
  {
    if IsAssignment(word) {
      var i :| 0 <= i < |word| && word[i] == '=';
      assert word[..1] == [word[0]];
      assert Assigns(word, word[..i], word[i + 1..]);
    }
    forall name, value | Assigns(word, name, value) ensures IsAssignment(word) {
      assert word[|name|] == '=';
      assert word[0] == if name == "" then '=' else name[0];
    }
  }

  /** The port a variable sets, if it is a number. */
  function PortSet(word: string, port: int): int {
    if HasPrefix(word, PORT_VARIABLE) && Atoi(word[|PORT_VARIABLE|..]).Some? then Atoi(word[|PORT_VARIABLE|..]).value
    else port
  }

  /** The words behind the assignments, and the port they leave. */
  function AfterAssignments(words: seq<string>, port: int): (seq<string>, int) {
    if words != [] && IsAssignment(words[0]) then AfterAssignments(words[1..], PortSet(words[0], port)) else (words, port)
  }

  function PortFlag(args: seq<string>): Option<int> {
    if |args| == 4 && args[0] == "notify" && args[1] == "--port" && args[3] == "--from-codex" then Atoi(args[2])
    else if |args| == 3 && args[0] == "notify" && HasPrefix(args[1], "--port=") && args[2] == "--from-codex" then
      Atoi(args[1][|"--port="|..])
    else None
  }

  /** The port of a command without environment, if it has one of the known shapes. */
  function CommandPort(words: seq<string>, port: int): Option<int> {
    if words == [] || !IsProgram(words[0], "cc-clip") then None
    else if words[1..] == ["plugin", "run", "codex-notify"] || words[1..] == ["notify", "--from-codex"] then Some(port)
    else PortFlag(words[1..])
  }

  function ArgvPort(argv: seq<string>): Option<int> {
    if argv != [] && IsProgram(argv[0], "env") then
      var (words, port) := AfterAssignments(argv[1..], DEFAULT_PORT);
      CommandPort(words, port)
    else CommandPort(argv, DEFAULT_PORT)
  }

  function Judged(line: string, port: int, decode: string -> Option<string>): Verdict {
    var argv := Argv(line, decode);
    if argv.None? || ArgvPort(argv.value).None? then Unconfirmed
    else if ArgvPort(argv.value).value != port then OtherPort(ArgvPort(argv.value).value)
    else Wired
  }

  method CodexNotifyLineProblem(line: string, port: int, decode: string -> Option<string>) returns (verdict: Verdict)
    ensures verdict == Judged(line, port, decode)
  {
    var argv, ok := CodexNotifyArgv(line, decode);
    if !ok {
      return Unconfirmed;
    }
    var linePort, rest := DEFAULT_PORT, argv;
    if |rest| > 0 && IsProgram(rest[0], "env") {
      rest := rest[1..];
      while |rest| > 0 && IsAssignment(rest[0])
        invariant AfterAssignments(rest, linePort) == AfterAssignments(argv[1..], DEFAULT_PORT)
        decreases |rest|
      {
        linePort := PortSet(rest[0], linePort);
        rest := rest[1..];
      }
    }
    var found := CommandPort(rest, linePort);
    if found.None? {
      return Unconfirmed;
    }
    return if found.value != port then OtherPort(found.value) else Wired;
  }

  // ---------- what the judgement means ----------

  /** What follows the program: the plugin runner, or the notifier with or without a port of its own. */
  datatype Action = Runner | Notifier | NotifierOn(text: string, joined: bool)

  /** A command as it is documented: an optional env with variables, the program, and what it is to do. */
  datatype Command = Command(env: Option<string>, variables: seq<string>, program: string, action: Action)

  function ActionWords(a: Action): seq<string> {
    match a
    case Runner => ["plugin", "run", "codex-notify"]
    case Notifier => ["notify", "--from-codex"]
    case NotifierOn(text, joined) =>
      if joined then ["notify", "--port=" + text, "--from-codex"] else ["notify", "--port", text, "--from-codex"]
  }

  function Words(c: Command): seq<string> {
    (if c.env.Some? then [c.env.value] + c.variables else []) + ([c.program] + ActionWords(c.action))
  }

  /** Behind env the program must not read as a variable itself, for env too would take it for one. */
  ghost predicate Documented(c: Command) {
    && IsProgram(c.program, "cc-clip")
    && (if c.env.None? then c.variables == []
        else IsProgram(c.env.value, "env") && !IsAssignment(c.program) && forall w :: w in c.variables ==> IsAssignment(w))
  }

  /** The port a word sets, if it is the port variable with a number. */
  function PortIn(word: string): Option<int> {
    if HasPrefix(word, "CC_CLIP_PORT=") then Atoi(word[13..]) else None
  }

  ghost predicate LastAt(words: seq<string>, i: int, port: int) {
    0 <= i < |words| && PortIn(words[i]) == Some(port) && forall j {:trigger words[j]} :: i < j < |words| ==> PortIn(words[j]).None?
  }

  /** The last of the words that sets a port sets this one, or none does and it is the default. */
  ghost predicate LeavesPort(words: seq<string>, otherwise: int, port: int) {
    (exists i :: LastAt(words, i, port)) || (port == otherwise && forall j :: 0 <= j < |words| ==> PortIn(words[j]).None?)
  }

  /** The port the command posts to: the flag's, else the last the variables set, else the default. */
  ghost predicate PostsTo(c: Command, port: int) {
    if c.action.NotifierOn? then Atoi(c.action.text) == Some(port) else LeavesPort(c.variables, 18339, port)
  }

  lemma {:induction false} AssignmentsLeave(words: seq<string>, rest: seq<string>, otherwise: int)
    requires (forall w :: w in words ==> IsAssignment(w)) && (rest != [] ==> !IsAssignment(rest[0]))
    ensures AfterAssignments(words + rest, otherwise).0 == rest
    ensures LeavesPort(words, otherwise, AfterAssignments(words + rest, otherwise).1)
    decreases |words|
  {
    if words == [] {
      assert words + rest == rest;
    } else {
      var first := words[0];
      assert first in words && (words + rest)[0] == first && (words + rest)[1..] == words[1..] + rest;
      AssignmentsLeave(words[1..], rest, PortSet(first, otherwise));
      LeavesOneMore(words, otherwise, AfterAssignments(words + rest, otherwise).1);
    }
  }

  lemma LeavesOneMore(words: seq<string>, otherwise: int, port: int)
    requires words != [] && LeavesPort(words[1..], PortSet(words[0], otherwise), port)
    ensures LeavesPort(words, otherwise, port)
  {
    if i :| LastAt(words[1..], i, port) {
      assert forall j :: i + 1 < j < |words| ==> words[j] == words[1..][j - 1];
      assert LastAt(words, i + 1, port);
    } else {
      assert forall j :: 0 < j < |words| ==> words[j] == words[1..][j - 1];
      if PortIn(words[0]).Some? {
        assert LastAt(words, 0, port);
      }
    }
  }

  /** Where the variables end. */
  function Variables(words: seq<string>): (n: nat)
    ensures n <= |words| && (n < |words| ==> !IsAssignment(words[n])) && forall i :: 0 <= i < n ==> IsAssignment(words[i])
  {
    if words == [] || !IsAssignment(words[0]) then 0 else 1 + Variables(words[1..])
  }

  lemma ActionOf(words: seq<string>, port: int) returns (a: Action)
    requires CommandPort(words, port).Some?
    ensures words == [words[0]] + ActionWords(a) && IsProgram(words[0], "cc-clip")
    ensures CommandPort(words, port) == if a.NotifierOn? then Atoi(a.text) else Some(port)
  {
    var args := words[1..];
    assert words == [words[0]] + args;
    if args == ActionWords(Runner) {
      a := Runner;
    } else if args == ActionWords(Notifier) {
      a := Notifier;
    } else if |args| == 4 {
      a := NotifierOn(args[2], false);
      assert args == ActionWords(a);
    } else {
      a := NotifierOn(args[1][|"--port="|..], true);
      assert args[1] == "--port=" + a.text;
      assert args == ActionWords(a);
    }
  }

  lemma ActionPort(program: string, a: Action, port: int)
    requires IsProgram(program, "cc-clip")
    ensures CommandPort([program] + ActionWords(a), port) == if a.NotifierOn? then Atoi(a.text) else Some(port)
  {
    var words := [program] + ActionWords(a);
    assert words[1..] == ActionWords(a);
    match a
    case Runner =>
    case Notifier => assert ActionWords(a)[0] != ActionWords(Runner)[0];
    case NotifierOn(text, joined) =>
      assert ActionWords(a)[0] == "notify" != "plugin";
      if joined {
        assert |ActionWords(a)| == 3 && ("--port=" + text)[|"--port="|..] == text;
      } else {
        assert |ActionWords(a)| == 4;
      }
  }

  lemma LeavesOnePort(words: seq<string>, otherwise: int, p: int, q: int)
    requires LeavesPort(words, otherwise, p) && LeavesPort(words, otherwise, q)
    ensures p == q
  {
    if i :| LastAt(words, i, p) {
      var j :| LastAt(words, j, q);
      assert i == j;
    }
  }

  /** A documented command is understood exactly as posting where it posts to. */
  lemma CommandIsUnderstood(c: Command, p: int)
    requires Documented(c)
    ensures ArgvPort(Words(c)) == Some(p) <==> PostsTo(c, p)
  {
    var rest := [c.program] + ActionWords(c.action);
    if c.env.None? {
      assert Words(c) == rest && rest[0] == c.program;
      NotEnv(c.program);
      ActionPort(c.program, c.action, DEFAULT_PORT);
    } else {
      assert Words(c)[1..] == c.variables + rest && rest[0] == c.program;
      AssignmentsLeave(c.variables, rest, DEFAULT_PORT);
      var q := AfterAssignments(c.variables + rest, DEFAULT_PORT).1;
      ActionPort(c.program, c.action, q);
      if PostsTo(c, p) && !c.action.NotifierOn? {
        LeavesOnePort(c.variables, DEFAULT_PORT, p, q);
      }
    }
  }

  lemma NotEnv(program: string)
    requires IsProgram(program, "cc-clip")
    ensures !IsProgram(program, "env")
  {
    assert program[|program| - 1] == 'p' by {
      assert "cc-clip"[6] == 'p' && ("/" + "cc-clip")[7] == 'p';
    }
    assert "env"[2] == 'v' && ("/" + "env")[3] == 'v';
  }

  /** Whatever is understood is a documented command. */
  lemma UnderstoodIsCommand(argv: seq<string>) returns (c: Command)
    requires ArgvPort(argv).Some?
    ensures Documented(c) && Words(c) == argv
  {
    if IsProgram(argv[0], "env") {
      c := EnvIsCommand(argv);
    } else {
      var a := ActionOf(argv, DEFAULT_PORT);
      c := Command(None, [], argv[0], a);
      assert Words(c) == [] + argv;
    }
  }

  lemma EnvIsCommand(argv: seq<string>) returns (c: Command)
    requires ArgvPort(argv).Some? && IsProgram(argv[0], "env")
    ensures Documented(c) && Words(c) == argv
  {
    var words := argv[1..];
    var n := Variables(words);
    var vars, rest := words[..n], words[n..];
    assert words == vars + rest;
    AssignmentsLeave(vars, rest, DEFAULT_PORT);
    var a := ActionOf(rest, AfterAssignments(words, DEFAULT_PORT).1);
    c := Command(Some(argv[0]), vars, rest[0], a);
    WordsOfEnv(argv, vars, rest, c);
  }

  lemma WordsOfEnv(argv: seq<string>, vars: seq<string>, rest: seq<string>, c: Command)
    requires argv != [] && argv[1..] == vars + rest && rest == [c.program] + ActionWords(c.action)
    requires c.env == Some(argv[0]) && c.variables == vars
    ensures Words(c) == argv
  {
    assert argv == [argv[0]] + argv[1..];
    assert [argv[0]] + (vars + rest) == [argv[0]] + vars + rest;
  }

  /** The line is one of the documented commands that posts to this port. */
  ghost predicate RunsFor(line: string, port: int, decode: string -> Option<string>) {
    exists c :: Documented(c) && Argv(line, decode) == Some(Words(c)) && PostsTo(c, port)
  }

  /**
   A line is accepted for a port exactly when it is a documented command that posts to that port, is said to
   be for another port exactly when it is one that posts there, and is unconfirmed when it is none.
   */
  lemma JudgedByShape(line: string, port: int, other: int, decode: string -> Option<string>)
    ensures Judged(line, port, decode).Wired? <==> RunsFor(line, port, decode)
    ensures Judged(line, port, decode) == OtherPort(other) <==> other != port && RunsFor(line, other, decode)
  {
    var argv := Argv(line, decode);
    if argv.Some? && ArgvPort(argv.value).Some? {
      var c := UnderstoodIsCommand(argv.value);
      CommandIsUnderstood(c, ArgvPort(argv.value).value);
    }
    RunsForOnly(line, port, decode);
    RunsForOnly(line, other, decode);
  }

  lemma RunsForOnly(line: string, port: int, decode: string -> Option<string>)
    ensures RunsFor(line, port, decode) ==> Argv(line, decode).Some? && ArgvPort(Argv(line, decode).value) == Some(port)
  {
    if RunsFor(line, port, decode) {
      var c :| Documented(c) && Argv(line, decode) == Some(Words(c)) && PostsTo(c, port);
      CommandIsUnderstood(c, port);
    }
  }

  // ---------- the line this program writes ----------

  const RUN_WORDS: seq<string> := ["cc-clip", "plugin", "run", "codex-notify"]

  function ManagedArgv(port: int): seq<string> {
    if port == DEFAULT_PORT then RUN_WORDS else ["env", PORT_VARIABLE + Itoa(port)] + RUN_WORDS
  }

  /** The array of these words as it is written. */
  function Listed(words: seq<string>): string {
    if words == [] then "]"
    else "\"" + (words[0] + ("\"" + ((if |words| > 1 then ", " else "") + Listed(words[1..]))))
  }

  function ManagedLine(port: int): string {
    "notify = [" + Listed(ManagedArgv(port))
  }

  function ManagedBlock(start: string, end: string, port: int): string {
    start + ("\n" + (ManagedLine(port) + ("\n" + end)))
  }

  /** Basic strings with a comma and a space behind each but the last. */
  function PlainItems(words: seq<string>): seq<Item> {
    if words == [] then [] else [Item(words[0], '"', "", " ")] + PlainItems(words[1..])
  }

  lemma {:induction false} PlainElems(words: seq<string>)
    ensures Elems(PlainItems(words)) == words && |PlainItems(words)| == |words|
  {
    if words != [] {
      PlainElems(words[1..]);
    }
  }

  predicate PlainWord(word: string) {
    '"' !in word && '\\' !in word && '\n' !in word
  }

  lemma {:induction false} PlainPrintable(words: seq<string>)
    requires forall w :: w in words ==> PlainWord(w)
    ensures AllPrintable(PlainItems(words))
  {
    if words != [] {
      assert forall w :: w in words[1..] ==> w in words;
      PlainPrintable(words[1..]);
      assert PlainItems(words)[1..] == PlainItems(words[1..]);
      assert words[0] in words && PlainWord(words[0]);
      assert Printable(Item(words[0], '"', "", " "));
    }
  }

  lemma {:induction false} PlainIsListed(words: seq<string>)
    ensures Printed(PlainItems(words), false, "") == Listed(words)
  {
    if words != [] {
      PlainIsListed(words[1..]);
      PlainElems(words);
      assert PlainItems(words)[1..] == PlainItems(words[1..]);
      var rest := Listed(words[1..]);
      assert "," + (" " + rest) == ", " + rest;
      assert "" + rest == rest;
    }
  }

  lemma NumberIsPlain(port: int)
    ensures PlainWord(Itoa(port))
  {
    forall k | 0 <= k < |Itoa(port)| ensures Itoa(port)[k] != '"' && Itoa(port)[k] != '\\' && Itoa(port)[k] != '\n' {
      ItoaChars(port, k);
    }
  }

  lemma JoinIsPlain(a: string, b: string)
    requires PlainWord(a) && PlainWord(b)
    ensures PlainWord(a + b)
  {
  }

  lemma RunIsPlain()
    ensures PlainWord("cc-clip") && PlainWord("plugin") && PlainWord("run") && PlainWord("codex-notify")
  {
  }

  lemma EnvIsPlain()
    ensures PlainWord("env") && PlainWord(PORT_VARIABLE)
  {
  }

  lemma ManagedIsPlain(port: int)
    ensures forall w :: w in ManagedArgv(port) ==> PlainWord(w)
  {
    RunIsPlain();
    EnvIsPlain();
    NumberIsPlain(port);
    JoinIsPlain(PORT_VARIABLE, Itoa(port));
  }

  lemma {:induction false} ListedIsOneLine(words: seq<string>)
    requires forall w :: w in words ==> PlainWord(w)
    ensures OneLine(Listed(words))
  {
    if words != [] {
      assert words[0] in words && forall w :: w in words[1..] ==> w in words;
      ListedIsOneLine(words[1..]);
    }
  }

  /** The block between the markers is one line of the file, the one that is judged. */
  lemma ManagedBlockLines(start: string, end: string, port: int)
    requires OneLine(start) && OneLine(end)
    ensures SplitLines(ManagedBlock(start, end, port)) == [start, ManagedLine(port), end]
  {
    ManagedIsPlain(port);
    ListedIsOneLine(ManagedArgv(port));
    assert OneLine("notify = [");
    var line := ManagedLine(port);
    SplitFirstLine(start, line + ("\n" + end));
    SplitFirstLine(line, end);
    SplitFirstLine(end, []);
  }

  /** The line this program writes is read as the words it was written from. */
  lemma ManagedIsRead(port: int, decode: string -> Option<string>)
    ensures Argv(ManagedLine(port), decode) == Some(ManagedArgv(port))
  {
    var words := ManagedArgv(port);
    ManagedIsPlain(port);
    PlainIsListed(words);
    PlainElems(words);
    PlainPrintable(words);
    LineIsRead("notify ", " ", "", PlainItems(words), false, Tail("", ""), decode);
    LineOfWords("notify ", " ", words);
    NotifyPrefix();
  }

  lemma PrefixJoins(key: string, gap: string, text: string)
    ensures key + ("=" + (gap + ("[" + text))) == (key + "=" + gap + "[") + text
  {
  }

  lemma LineOfWords(key: string, gap: string, words: seq<string>)
    ensures Line(key, gap, "", PlainItems(words), false, Tail("", "")) == (key + "=" + gap + "[") + Listed(words)
  {
    PlainIsListed(words);
    LineWithoutTail(key, gap, PlainItems(words));
    PrefixJoins(key, gap, Listed(words));
  }

  lemma LineWithoutTail(key: string, gap: string, items: seq<Item>)
    ensures Line(key, gap, "", items, false, Tail("", "")) == key + ("=" + (gap + ("[" + Printed(items, false, ""))))
  {
    var none: string := "";
    assert none + none == none;
    assert none + Printed(items, false, none) == Printed(items, false, none);
  }

  lemma NotifyPrefix()
    ensures "notify " + "=" + " " + "[" == "notify = ["
  {
  }

  lemma AssignedValue(name: string, value: string)
    requires name != "" && name[0] != '-' && name[|name| - 1] == '='
    ensures IsAssignment(name + value) && HasPrefix(name + value, name) && (name + value)[|name|..] == value
  {
    var word := name + value;
    assert word[|name| - 1] == '=' && word[0] == name[0];
    assert word[..|name|] == name;
  }

  lemma PortVariableSets(port: int, word: string)
    requires -0x8000_0000_0000_0000 <= port < 0x8000_0000_0000_0000 && word == PORT_VARIABLE + Itoa(port)
    ensures IsAssignment(word) && PortSet(word, DEFAULT_PORT) == port
  {
    AssignedValue(PORT_VARIABLE, Itoa(port));
    AtoiOfItoa(port);
  }

  lemma RunWordsRun(port: int)
    ensures !IsAssignment(RUN_WORDS[0]) && !IsProgram(RUN_WORDS[0], "env") && CommandPort(RUN_WORDS, port) == Some(port)
  {
    assert '=' !in "cc-clip";
    assert RUN_WORDS[1..] == ["plugin", "run", "codex-notify"];
    assert "cc-clip"[6] == 'p' && ("/" + "env")[3] == 'v';
  }

  lemma EnvPort(argv: seq<string>, word: string, words: seq<string>)
    requires argv == ["env", word] + words && words != [] && IsAssignment(word) && !IsAssignment(words[0])
    ensures ArgvPort(argv) == CommandPort(words, PortSet(word, DEFAULT_PORT))
  {
    var rest := argv[1..];
    assert rest == [word] + words && rest[1..] == words;
    assert AfterAssignments(words, PortSet(word, DEFAULT_PORT)) == (words, PortSet(word, DEFAULT_PORT));
    assert AfterAssignments(rest, DEFAULT_PORT) == (words, PortSet(word, DEFAULT_PORT));
  }

  lemma ManagedPort(port: int)
    requires -0x8000_0000_0000_0000 <= port < 0x8000_0000_0000_0000
    ensures ArgvPort(ManagedArgv(port)) == Some(port)
  {
    RunWordsRun(port);
    if port != DEFAULT_PORT {
      var word := PORT_VARIABLE + Itoa(port);
      PortVariableSets(port, word);
      EnvPort(ManagedArgv(port), word, RUN_WORDS);
    }
  }

  /** The line written for a port is accepted for that port and for no other. */
  lemma ManagedLineFitsItsPort(written: int, asked: int, decode: string -> Option<string>)
    requires -0x8000_0000_0000_0000 <= written < 0x8000_0000_0000_0000
    ensures Judged(ManagedLine(written), asked, decode) == if asked == written then Wired else OtherPort(written)
  {
    ManagedIsRead(written, decode);
    ManagedPort(written);
  }
}
