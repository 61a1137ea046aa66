/**
 The edit of the ssh client configuration: find the block of the host or make one, add the forward,
 and make ControlMaster and ControlPath say what they must by rewriting the first occurrence.
 */
module SshConfigEdit {
  import opened Wrappers
  import opened Text
  import opened Numerals
  import opened SshConfig

  // ---------- the block of a host ----------

  datatype Found = Found(key: string, value: string, line: nat)

  datatype Block = Block(start: nat, end: nat, directives: seq<Found>)

  /** The first line that names the host, or the end of the file. */
  function FirstNaming(lines: seq<Line>, host: string): (first: nat)
    ensures first <= |lines| && (first < |lines| ==> NamesHost(lines[first], host))
    ensures forall i :: 0 <= i < first ==> !NamesHost(lines[i], host)
  {
    if lines == [] || NamesHost(lines[0], host) then 0 else 1 + FirstNaming(lines[1..], host)
  }

  /**
   Lines `start` to `end` are the block: the first block that names the host, where later blocks that
   name it and follow without another block in between take its place.
   */
  ghost predicate IsBlock(lines: seq<Line>, host: string, start: int, end: int) {
    && FirstNaming(lines, host) <= start < end <= |lines|
    && NamesHost(lines[start], host)
    && (forall i :: FirstNaming(lines, host) <= i <= start && IsBlockStart(lines[i]) ==> NamesHost(lines[i], host))
    && (forall i :: start < i < end ==> !IsBlockStart(lines[i]))
    && (end < |lines| ==> IsBlockStart(lines[end]) && !NamesHost(lines[end], host))
  }

  /** There is only one such block. */
  lemma BlockUnique(lines: seq<Line>, host: string, s1: int, e1: int, s2: int, e2: int)
    requires IsBlock(lines, host, s1, e1) && IsBlock(lines, host, s2, e2)
    ensures s1 == s2 && e1 == e2
  {
    assert IsBlockStart(lines[s1]) && IsBlockStart(lines[s2]);
  }

  predicate HasBlock(lines: seq<Line>, host: string) {
    FirstNaming(lines, host) < |lines|
  }

  /** The directives between `start` and `end`, with their line numbers. */
  function DirectivesIn(lines: seq<Line>, start: nat, end: nat): seq<Found>
    requires end <= |lines|
  {
    if end <= start + 1 then []
    else
      DirectivesIn(lines, start, end - 1)
      + if lines[end - 1].key != "" then [Found(lines[end - 1].key, lines[end - 1].value, end - 1)] else []
  }

  method FindHostBlock(lines: seq<Line>, host: string) returns (block: Option<Block>)
    ensures block.Some? <==> HasBlock(lines, host)
    ensures block.Some? ==> IsBlock(lines, host, block.value.start, block.value.end)
    ensures block.Some? ==> block.value.directives == DirectivesIn(lines, block.value.start, block.value.end)
  {
    block := None;
    ghost var first := FirstNaming(lines, host);
    var i := 0;
    while i < |lines|
      invariant 0 <= i <= |lines|
      invariant block.None? ==> i <= first
      invariant block.Some? ==> first <= block.value.start < i && NamesHost(lines[block.value.start], host)
      invariant block.Some? ==> forall j :: block.value.start < j < i ==> !IsBlockStart(lines[j])
      invariant block.Some? ==> forall j :: first <= j <= block.value.start && IsBlockStart(lines[j]) ==> NamesHost(lines[j], host)
      invariant block.Some? ==> block.value.directives == DirectivesIn(lines, block.value.start, i)
    {
      var line := lines[i];
      if NamesHost(line, host) {
        block := Some(Block(i, 0, []));
      } else if block.Some? && IsBlockStart(line) {
        block := Some(block.value.(end := i));
        return;
      } else if block.Some? {
        if line.key != "" {
          block := Some(block.value.(directives := block.value.directives + [Found(line.key, line.value, i)]));
        }
      }
      i := i + 1;
    }
    if block.Some? {
      block := Some(block.value.(end := |lines|));
    }
  }

  // ---------- looking into a block ----------

  /** The first line from `i` to `end` with this keyword, or `end`. */
  function FirstAt(lines: seq<Line>, i: nat, end: nat, key: string): (at: nat)
    requires i <= end <= |lines|
    ensures i <= at <= end && (at < end ==> lines[at].key == key)
    ensures forall j :: i <= j < at ==> lines[j].key != key
    decreases end - i
  {
    if i == end || lines[i].key == key then i else FirstAt(lines, i + 1, end, key)
  }

  function FirstFound(ds: seq<Found>, key: string): Option<Found> {
    if ds == [] then None else if ds[0].key == key then Some(ds[0]) else FirstFound(ds[1..], key)
  }

  lemma {:induction false} FirstFoundSnoc(ds: seq<Found>, d: Found, key: string)
    ensures FirstFound(ds + [d], key) ==
      if FirstFound(ds, key).Some? then FirstFound(ds, key) else if d.key == key then Some(d) else None
  {
    if ds != [] {
      assert (ds + [d])[1..] == ds[1..] + [d];
      FirstFoundSnoc(ds[1..], d, key);
    }
  }

  lemma FirstAtSnoc(lines: seq<Line>, i: nat, end: nat, key: string)
    requires i < end <= |lines|
    ensures FirstAt(lines, i, end, key) ==
      if FirstAt(lines, i, end - 1, key) < end - 1 then FirstAt(lines, i, end - 1, key)
      else if lines[end - 1].key == key then end - 1 else end
  {
  }

  /** The recorded directives know the first line with a keyword. */
  lemma {:induction false} FirstInDirectives(lines: seq<Line>, start: nat, end: nat, key: string)
    requires start < end <= |lines| && key != ""
    ensures var at := FirstAt(lines, start + 1, end, key);
      FirstFound(DirectivesIn(lines, start, end), key) ==
      if at < end then Some(Found(key, lines[at].value, at)) else None
    decreases end
  {
    if start + 1 < end {
      var init, line := DirectivesIn(lines, start, end - 1), lines[end - 1];
      FirstInDirectives(lines, start, end - 1, key);
      FirstAtSnoc(lines, start + 1, end, key);
      if line.key != "" {
        FirstFoundSnoc(init, Found(line.key, line.value, end - 1), key);
      } else {
        assert init + [] == init;
      }
    }
  }

  /** The first occurrence, the one OpenSSH honours for single-valued directives. */
  method FirstDirective(directives: seq<Found>, key: string) returns (found: Option<Found>)
    ensures found == FirstFound(directives, key)
  {
    var i := 0;
    while i < |directives|
      invariant 0 <= i <= |directives|
      invariant FirstFound(directives, key) == FirstFound(directives[i..], key)
    {
      if directives[i].key == key {
        return Some(directives[i]);
      }
      i := i + 1;
    }
    return None;
  }

  // `wanted` says whether the value of a RemoteForward is the loopback forward of the port.
  predicate IsForward(d: Directive, wanted: string -> bool) {
    d.key == "remoteforward" && wanted(d.value)
  }

  predicate AnyForward(ds: seq<Found>, wanted: string -> bool) {
    exists i :: 0 <= i < |ds| && IsForward(Directive(ds[i].key, ds[i].value), wanted)
  }

  predicate ForwardAt(lines: seq<Line>, i: nat, wanted: string -> bool)
    requires i < |lines|
  {
    IsForward(Directive(lines[i].key, lines[i].value), wanted)
  }

  ghost predicate HasForward(lines: seq<Line>, start: nat, end: nat, wanted: string -> bool)
    requires end <= |lines|
  {
    exists i {:trigger ForwardAt(lines, i, wanted)} :: start < i < end && ForwardAt(lines, i, wanted)
  }

  lemma {:induction false} AnyInDirectives(lines: seq<Line>, start: nat, end: nat, wanted: string -> bool)
    requires end <= |lines|
    ensures AnyForward(DirectivesIn(lines, start, end), wanted) <==> HasForward(lines, start, end, wanted)
    decreases end
  {
    if start + 1 < end {
      AnyInDirectives(lines, start, end - 1, wanted);
      assert HasForward(lines, start, end, wanted) <==>
        HasForward(lines, start, end - 1, wanted) || ForwardAt(lines, end - 1, wanted);
      var all, init, line := DirectivesIn(lines, start, end), DirectivesIn(lines, start, end - 1), lines[end - 1];
      if AnyForward(init, wanted) {
        var i :| 0 <= i < |init| && IsForward(Directive(init[i].key, init[i].value), wanted);
        assert all[i] == init[i];
      } else if IsForward(Directive(line.key, line.value), wanted) {
        assert all[|init|] == Found(line.key, line.value, end - 1);
      }
    }
  }

  method HasRemoteForward(directives: seq<Found>, wanted: string -> bool) returns (has: bool)
    ensures has == AnyForward(directives, wanted)
  {
    var i := 0;
    while i < |directives|
      invariant 0 <= i <= |directives|
      invariant forall j :: 0 <= j < i ==> !IsForward(Directive(directives[j].key, directives[j].value), wanted)
    {
      if IsForward(Directive(directives[i].key, directives[i].value), wanted) {
        return true;
      }
      i := i + 1;
    }
    return false;
  }

  // ---------- changing a block ----------

  function Write(indent: string, name: string, value: string): Line {
    Read(indent + (name + (" " + value)))
  }

  lemma WriteReads(indent: string, name: string, value: string)
    requires AllSpaces(indent) && Trimmed(value) && value[0] != '='
    requires name != "" && NoSpaces(name) && name[0] != '#' && forall i :: 0 <= i < |name| ==> name[i] !in SEPARATORS
    ensures Write(indent, name, value).key == ToLower(name) && Write(indent, name, value).value == value
    ensures !Write(indent, name, value).blank
  {
    ParseWritten(indent, name, value);
    assert Parse(indent + (name + (" " + value))).key != "";
  }

  /** A single-valued directive the block must end up with: the values that will do, and how it is written. */
  datatype Required = Required(key: string, fits: string -> bool, write: string -> Line)

  /** A value will do when it is the required one but for case and white space. */
  function Require(name: string, value: string): Required {
    Required(ToLower(name), (v: string) => Normalized(v) == Normalized(value), (indent: string) => Write(indent, name, value))
  }

  /** However it is indented, the directive reads as itself and its value will do. */
  ghost predicate Reads(r: Required) {
    forall indent {:trigger r.write(indent)} :: AllSpaces(indent) ==>
      r.write(indent).key == r.key && r.fits(r.write(indent).value) && !r.write(indent).blank
  }

  lemma RequireReads(name: string, value: string)
    requires Trimmed(value) && value[0] != '='
    requires name != "" && NoSpaces(name) && name[0] != '#' && forall i :: 0 <= i < |name| ==> name[i] !in SEPARATORS
    ensures Reads(Require(name, value))
  {
    var r := Require(name, value);
    forall indent | AllSpaces(indent)
      ensures r.write(indent).key == r.key && r.fits(r.write(indent).value) && !r.write(indent).blank
    {
      WriteReads(indent, name, value);
    }
  }

  /** What the block must end up with: a forward that is wanted, and two single-valued directives. */
  datatype Plan = Plan(forward: Line, wanted: string -> bool, master: Required, path: Required)

  predicate PlainKey(key: string) {
    key != "" && key != "host" && key != "match" && key != "remoteforward" && key != "include"
  }

  ghost predicate ValidPlan(plan: Plan) {
    && Reads(plan.master) && Reads(plan.path) && PlainKey(plan.master.key) && PlainKey(plan.path.key)
    && plan.master.key != plan.path.key
    && plan.forward.key == "remoteforward" && !plan.forward.blank && plan.wanted(plan.forward.value)
  }

  /** RemoteForward of the port to itself, ControlMaster no, ControlPath none. */
  function PlanFor(port: nat, isLoopbackIP: string -> bool): Plan {
    Plan(Write("    ", "RemoteForward", ForwardValue(port)), (value: string) => ForwardMatches(value, port, isLoopbackIP),
         Require("ControlMaster", "no"), Require("ControlPath", "none"))
  }

  lemma ForwardReads(port: nat)
    ensures var forward := Write("    ", "RemoteForward", ForwardValue(port));
      forward.key == "remoteforward" && forward.value == ForwardValue(port) && !forward.blank
  {
    ForwardValueShape(port);
    ForwardName();
    assert AllSpaces("    ");
    WriteReads("    ", "RemoteForward", ForwardValue(port));
  }

  lemma ForwardName()
    ensures var name := "RemoteForward";
      ToLower(name) == "remoteforward" && NoSpaces(name) && name[0] != '#' && forall i :: 0 <= i < |name| ==> name[i] !in SEPARATORS
  {
  }

  lemma PlanKeys()
    ensures ToLower("ControlMaster") == "controlmaster" && ToLower("ControlPath") == "controlpath"
  {
  }

  lemma ValidFrom(forward: Line, wanted: string -> bool, master: Required, path: Required)
    requires Reads(master) && Reads(path) && master.key == "controlmaster" && path.key == "controlpath"
    requires forward.key == "remoteforward" && !forward.blank && wanted(forward.value)
    ensures ValidPlan(Plan(forward, wanted, master, path))
  {
  }

  lemma PlanIsValid(port: nat, isLoopbackIP: string -> bool)
    requires isLoopbackIP("127.0.0.1")
    ensures ValidPlan(PlanFor(port, isLoopbackIP))
  {
    RequireReads("ControlMaster", "no");
    RequireReads("ControlPath", "none");
    PlanKeys();
    ForwardReads(port);
    ForwardValueMatches(port, isLoopbackIP);
    var plan := PlanFor(port, isLoopbackIP);
    ValidFrom(plan.forward, plan.wanted, plan.master, plan.path);
  }

  /** Where a new directive of the block goes: after its last line that is not blank. */
  function InsertPos(lines: seq<Line>, start: nat, end: nat): (p: nat)
    requires start < end <= |lines|
    ensures start < p <= end && forall i :: p <= i < end ==> lines[i].blank
    ensures p > start + 1 ==> !lines[p - 1].blank
    decreases end
  {
    if end > start + 1 && lines[end - 1].blank then InsertPos(lines, start, end - 1) else end
  }

  /** The place is the only one with these properties. */
  lemma InsertPosAt(lines: seq<Line>, start: nat, end: nat, p: nat)
    requires start < p <= end <= |lines|
    requires forall i :: p <= i < end ==> lines[i].blank
    requires p > start + 1 ==> !lines[p - 1].blank
    ensures InsertPos(lines, start, end) == p
  {
    var before := lines[p - 1];
    assert InsertPos(lines, start, end) < p ==> before.blank;
  }

  method InsertDirectiveInBlock(lines: seq<Line>, start: nat, end: nat, directive: Line) returns (result: seq<Line>)
    requires start < end <= |lines|
    ensures result == Assembled(lines, InsertPos(lines, start, end), [directive])
  {
    var insertAt := end;
    while insertAt > start + 1 && lines[insertAt - 1].blank
      invariant start < insertAt <= end
      invariant InsertPos(lines, start, end) == InsertPos(lines, start, insertAt)
    {
      insertAt := insertAt - 1;
    }
    result := lines[..insertAt] + [directive] + lines[insertAt..];
  }

  function Assembled(base: seq<Line>, p: nat, added: seq<Line>): seq<Line>
    requires p <= |base|
  {
    base[..p] + added + base[p..]
  }

  /** The first occurrence in the block is there and has the value. */
  predicate Satisfied(base: seq<Line>, start: nat, end: nat, r: Required)
    requires start < end <= |base|
  {
    var at := FirstAt(base, start + 1, end, r.key);
    at < end && r.fits(base[at].value)
  }

  /** The base with the first occurrence of a single-valued directive rewritten where it disagrees. */
  function Fixed(base: seq<Line>, start: nat, end: nat, r: Required): (fixed: seq<Line>)
    requires start < end <= |base|
    ensures |fixed| == |base|
  {
    var at := FirstAt(base, start + 1, end, r.key);
    if at < end && !Satisfied(base, start, end, r)
    then base[at := r.write(Indent(base[at].text))]
    else base
  }

  /** The line to add where the directive is missing. */
  function Extra(base: seq<Line>, start: nat, end: nat, r: Required): seq<Line>
    requires start < end <= |base|
  {
    if FirstAt(base, start + 1, end, r.key) == end then [r.write("    ")] else []
  }

  datatype Change = Unchanged | Updated | Added | Created | Warning(aboutInclude: bool)

  /** What is to be reported of a single-valued directive. */
  function ChangeOf(base: seq<Line>, start: nat, end: nat, r: Required): Change
    requires start < end <= |base|
  {
    if Satisfied(base, start, end, r) then Unchanged
    else if FirstAt(base, start + 1, end, r.key) < end then Updated
    else Added
  }

  /** Adding after what was added before: the place moves along with the lines before it. */
  lemma InsertAfterAdded(base: seq<Line>, start: nat, end: nat, added: seq<Line>, line: Line)
    requires start < end <= |base| && forall l :: l in added ==> !l.blank
    ensures var p := InsertPos(base, start, end);
      Assembled(Assembled(base, p, added), InsertPos(Assembled(base, p, added), start, end + |added|), [line])
      == Assembled(base, p, added + [line])
  {
    var p := InsertPos(base, start, end);
    var lines := Assembled(base, p, added);
    InsertPosAt(lines, start, end + |added|, p + |added|);
    assert lines[..p + |added|] == base[..p] + added;
    assert lines[p + |added|..] == base[p..];
  }

  ghost predicate FoundAt(directives: seq<Found>, base: seq<Line>, start: nat, end: nat, key: string)
    requires start < end <= |base|
  {
    var at := FirstAt(base, start + 1, end, key);
    && FirstFound(directives, key) == (if at < end then Some(Found(key, base[at].value, at)) else None)
    && (at < end ==> at < InsertPos(base, start, end))
  }

  /** One single-valued directive: leave it, rewrite its first occurrence, or add it. */
  method EnsureSingle(lines: seq<Line>, ghost base: seq<Line>, start: nat, ghost end0: nat, end: nat, ghost added: seq<Line>,
                      directives: seq<Found>, r: Required)
    returns (result: seq<Line>, end': nat, change: Change, ghost added': seq<Line>)
    requires start < end0 <= |base| && end == end0 + |added| && forall l :: l in added ==> !l.blank
    requires lines == Assembled(base, InsertPos(base, start, end0), added)
    requires FoundAt(directives, base, start, end0, r.key)
    ensures added' == added + Extra(base, start, end0, r) && end' == end0 + |added'|
    ensures result == Assembled(Fixed(base, start, end0, r), InsertPos(base, start, end0), added')
    ensures change == ChangeOf(base, start, end0, r)
  {
    var found := FirstDirective(directives, r.key);
    ghost var p := InsertPos(base, start, end0);
    added' := added + Extra(base, start, end0, r);
    if found.Some? && r.fits(found.value.value) {
      result, end', change := lines, end, Unchanged;
    } else if found.Some? {
      var at := found.value.line;
      assert lines[at] == base[at];
      var line := r.write(Indent(lines[at].text));
      result, end', change := lines[at := line], end, Updated;
    } else {
      var line := r.write("    ");
      result := InsertDirectiveInBlock(lines, start, end, line);
      InsertAfterAdded(base, start, end0, added, line);
      end', change := end + 1, Added;
    }
  }

  // ---------- the whole edit ----------

  ghost predicate WellRead(lines: seq<Line>) {
    forall i :: 0 <= i < |lines| ==> lines[i] == Read(lines[i].text)
  }

  /** The line to add where no RemoteForward of the block is the wanted one. */
  ghost function ForwardExtra(lines: seq<Line>, start: nat, end: nat, plan: Plan): seq<Line>
    requires end <= |lines|
  {
    if HasForward(lines, start, end, plan.wanted) then [] else [plan.forward]
  }

  ghost function Extras(lines: seq<Line>, start: nat, end: nat, plan: Plan): seq<Line>
    requires start < end <= |lines|
  {
    ForwardExtra(lines, start, end, plan) + Extra(lines, start, end, plan.master) + Extra(lines, start, end, plan.path)
  }

  ghost function EditedBlock(lines: seq<Line>, start: nat, end: nat, plan: Plan): seq<Line>
    requires start < end <= |lines|
  {
    Assembled(Fixed(Fixed(lines, start, end, plan.master), start, end, plan.path), InsertPos(lines, start, end),
              Extras(lines, start, end, plan))
  }

  function NewBlock(host: string, plan: Plan): seq<Line> {
    [Write("", "Host", host), plan.forward, plan.master.write("    "),
     plan.path.write("    "), Read("")]
  }

  /** Where a new block goes: before the block that names every host, or at the end. */
  function NewBlockPos(lines: seq<Line>): nat {
    FirstNaming(lines, "*")
  }

  function WithNewBlock(lines: seq<Line>, host: string, plan: Plan): seq<Line> {
    var p := NewBlockPos(lines);
    if p < |lines| then lines[..p] + NewBlock(host, plan) + lines[p..]
    else (if lines != [] && !lines[|lines| - 1].blank then lines + [Read("")] else lines) + NewBlock(host, plan)
  }

  /** What an edit makes of the lines; there is exactly one such result. */
  ghost predicate EditOf(result: seq<Line>, lines: seq<Line>, host: string, plan: Plan) {
    if HasBlock(lines, host) then exists s: nat, e: nat :: IsBlock(lines, host, s, e) && result == EditedBlock(lines, s, e, plan)
    else result == WithNewBlock(lines, host, plan)
  }

  lemma EditIsUnique(a: seq<Line>, b: seq<Line>, lines: seq<Line>, host: string, plan: Plan)
    requires EditOf(a, lines, host, plan) && EditOf(b, lines, host, plan)
    ensures a == b
  {
    if HasBlock(lines, host) {
      var s1: nat, e1: nat :| IsBlock(lines, host, s1, e1) && a == EditedBlock(lines, s1, e1, plan);
      var s2: nat, e2: nat :| IsBlock(lines, host, s2, e2) && b == EditedBlock(lines, s2, e2, plan);
      BlockUnique(lines, host, s1, e1, s2, e2);
    }
  }

  // ---------- the first directive of a block, however it is written ----------

  /** The first ControlMaster (or ControlPath) of the block: any keyword, separator and indentation that OpenSSH takes. */
  ghost predicate FirstWritten(lines: seq<Line>, start: nat, end: nat, at: nat, name: string, indent: string, key: string,
                               sep: string, value: string, trail: string) {
    && start < at < end <= |lines| && WellRead(lines)
    && lines[at].text == DirectiveText(indent, key, sep, value, trail)
    && (forall i :: 0 <= i < |indent| ==> indent[i] in {' ', '\t'}) && AllSpaces(trail)
    && IsKeyword(key) && ToLower(key) == ToLower(name)
    && Separates(sep) && Trimmed(value) && value[0] != '='
    && forall j :: start < j < at ==> lines[j].key != ToLower(name)
  }

  lemma FirstWrittenReads(lines: seq<Line>, start: nat, end: nat, at: nat, name: string, word: string, indent: string, key: string,
                          sep: string, value: string, trail: string)
    requires FirstWritten(lines, start, end, at, name, indent, key, sep, value, trail)
    requires word != "" && NoSpaces(word) && ToLower(word) == word
    ensures var r := Require(name, word);
      && FirstAt(lines, start + 1, end, r.key) == at
      && (Satisfied(lines, start, end, r) <==> ToLower(value) == word)
      && Indent(lines[at].text) == indent
      && r.write(indent).text == indent + (name + (" " + word))
  {
    ParseSeparated(indent, key, sep, value, trail);
    assert lines[at] == Read(lines[at].text);
    FirstAtIs(lines, start + 1, end, ToLower(name), at);
    NormalizedMeans(value, word);
    IndentIs(indent, (key + (sep + value)) + trail);
  }

  /** A line with this keyword stands where one stood before, before or behind the lines that were added. */
  ghost predicate OnlyMoved(result: seq<Line>, lines: seq<Line>, key: string) {
    && |lines| <= |result|
    && forall i :: 0 <= i < |result| && result[i].key == key ==>
      (i < |lines| && lines[i].key == key) || (0 <= i - (|result| - |lines|) && lines[i - (|result| - |lines|)].key == key)
  }

  lemma AddedElsewhere(both: seq<Line>, lines: seq<Line>, p: nat, added: seq<Line>, at: nat, key: string)
    requires SameShape(both, lines) && at < p <= |lines| && forall l :: l in added ==> l.key != key
    ensures OnlyMoved(Assembled(both, p, added), lines, key) && Assembled(both, p, added)[at] == both[at]
  {
    var result := Assembled(both, p, added);
    assert forall i :: p <= i < p + |added| ==> result[i] in added;
    forall i | 0 <= i < |result| && result[i].key == key
      ensures (i < |lines| && lines[i].key == key) || (0 <= i - |added| && lines[i - |added|].key == key)
    {
    }
  }

  /** Rewriting one directive and then the other does to the first line of each what concerns it. */
  lemma BothFixed(lines: seq<Line>, start: nat, end: nat, plan: Plan, r: Required, at: nat)
    requires start < end <= |lines| && BlanksAreEmpty(lines) && ValidPlan(plan) && (r == plan.master || r == plan.path)
    requires at == FirstAt(lines, start + 1, end, r.key) < end
    ensures var both := Fixed(Fixed(lines, start, end, plan.master), start, end, plan.path);
      SameShape(both, lines) && both[at] == Fixed(lines, start, end, r)[at]
  {
    FixedKeeps(lines, start, end, plan.master);
    var fixed := Fixed(lines, start, end, plan.master);
    ShapeDecides(fixed, lines, start, end, plan.path.key);
    FixedKeeps(fixed, start, end, plan.path);
  }

  lemma NoExtra(lines: seq<Line>, start: nat, end: nat, plan: Plan, r: Required)
    requires start < end <= |lines| && ValidPlan(plan) && (r == plan.master || r == plan.path)
    requires FirstAt(lines, start + 1, end, r.key) < end
    ensures forall l :: l in Extras(lines, start, end, plan) ==> l.key != r.key
  {
    ExtraReads(lines, start, end, plan.master);
    ExtraReads(lines, start, end, plan.path);
  }

  lemma BothInPlace(lines: seq<Line>, start: nat, end: nat, plan: Plan, r: Required, at: nat)
    requires start < end <= |lines| && BlanksAreEmpty(lines) && ValidPlan(plan) && (r == plan.master || r == plan.path)
    requires at == FirstAt(lines, start + 1, end, r.key) < end
    ensures var result := EditedBlock(lines, start, end, plan);
      OnlyMoved(result, lines, r.key) && result[at] == Fixed(lines, start, end, r)[at]
  {
    BothFixed(lines, start, end, plan, r, at);
    NoExtra(lines, start, end, plan, r);
    IndexStaysValid(lines, start, end, r.key, []);
    var both := Fixed(Fixed(lines, start, end, plan.master), start, end, plan.path);
    AddedElsewhere(both, lines, InsertPos(lines, start, end), Extras(lines, start, end, plan), at, r.key);
  }

  lemma FirstIsFixed(lines: seq<Line>, start: nat, end: nat, at: nat, plan: Plan, name: string, word: string, indent: string, key: string,
                     sep: string, value: string, trail: string)
    requires FirstWritten(lines, start, end, at, name, indent, key, sep, value, trail) && ValidPlan(plan)
    requires Require(name, word) == plan.master || Require(name, word) == plan.path
    requires word != "" && NoSpaces(word) && ToLower(word) == word
    ensures var result := EditedBlock(lines, start, end, plan);
      && OnlyMoved(result, lines, ToLower(name))
      && result[at].text == if ToLower(value) == word then lines[at].text else indent + (name + (" " + word))
  {
    FirstWrittenReads(lines, start, end, at, name, word, indent, key, sep, value, trail);
    BlankIsEmpty(lines);
    BothInPlace(lines, start, end, plan, Require(name, word), at);
  }

  lemma PlanWords(port: nat, isLoopbackIP: string -> bool)
    ensures NoSpaces("no") && ToLower("no") == "no" && NoSpaces("none") && ToLower("none") == "none"
    ensures PlanFor(port, isLoopbackIP).master == Require("ControlMaster", "no")
    ensures PlanFor(port, isLoopbackIP).path == Require("ControlPath", "none")
  {
  }

  lemma ResultIs(result: seq<Line>, lines: seq<Line>, host: string, start: nat, end: nat, plan: Plan)
    requires EditOf(result, lines, host, plan) && IsBlock(lines, host, start, end)
    ensures result == EditedBlock(lines, start, end, plan)
  {
    var s: nat, e: nat :| IsBlock(lines, host, s, e) && result == EditedBlock(lines, s, e, plan);
    BlockUnique(lines, host, s, e, start, end);
  }

  /**
   However the first ControlMaster of the block is indented, capitalised and separated from its value: that very
   line stays, if its value is "no" in any case of letters, or is rewritten in its place and indentation; and no
   other ControlMaster is added.
   */
  lemma MasterIsRewritten(result: seq<Line>, lines: seq<Line>, host: string, start: nat, end: nat, at: nat, indent: string,
                            key: string, sep: string, value: string, trail: string, port: nat, isLoopbackIP: string -> bool)
    requires isLoopbackIP("127.0.0.1") && EditOf(result, lines, host, PlanFor(port, isLoopbackIP)) && IsBlock(lines, host, start, end)
    requires FirstWritten(lines, start, end, at, "ControlMaster", indent, key, sep, value, trail)
    ensures OnlyMoved(result, lines, ToLower("ControlMaster"))
    ensures result[at].text == if ToLower(value) == "no" then lines[at].text else indent + ("ControlMaster" + (" " + "no"))
  {
    var plan := PlanFor(port, isLoopbackIP);
    PlanIsValid(port, isLoopbackIP);
    PlanWords(port, isLoopbackIP);
    ResultIs(result, lines, host, start, end, plan);
    FirstIsFixed(lines, start, end, at, plan, "ControlMaster", "no", indent, key, sep, value, trail);
  }

  /** The same for ControlPath and "none". */
  lemma PathIsRewritten(result: seq<Line>, lines: seq<Line>, host: string, start: nat, end: nat, at: nat, indent: string,
                            key: string, sep: string, value: string, trail: string, port: nat, isLoopbackIP: string -> bool)
    requires isLoopbackIP("127.0.0.1") && EditOf(result, lines, host, PlanFor(port, isLoopbackIP)) && IsBlock(lines, host, start, end)
    requires FirstWritten(lines, start, end, at, "ControlPath", indent, key, sep, value, trail)
    ensures OnlyMoved(result, lines, ToLower("ControlPath"))
    ensures result[at].text == if ToLower(value) == "none" then lines[at].text else indent + ("ControlPath" + (" " + "none"))
  {
    var plan := PlanFor(port, isLoopbackIP);
    PlanIsValid(port, isLoopbackIP);
    PlanWords(port, isLoopbackIP);
    ResultIs(result, lines, host, start, end, plan);
    FirstIsFixed(lines, start, end, at, plan, "ControlPath", "none", indent, key, sep, value, trail);
  }

  /** How many of the three directives the block still lacks. */
  ghost function Missing(lines: seq<Line>, start: nat, end: nat, plan: Plan): nat
    requires start < end <= |lines|
  {
    (if HasForward(lines, start, end, plan.wanted) then 0 else 1)
    + (if Satisfied(lines, start, end, plan.master) then 0 else 1)
    + (if Satisfied(lines, start, end, plan.path) then 0 else 1)
  }

  /** There is nothing to do for the host. */
  ghost predicate Settled(lines: seq<Line>, host: string, plan: Plan) {
    exists s: nat, e: nat :: IsBlock(lines, host, s, e) && Missing(lines, s, e, plan) == 0
  }

  // ---------- what an edit keeps of the shape ----------

  ghost predicate SameShape(a: seq<Line>, b: seq<Line>) {
    && |a| == |b|
    && forall i :: 0 <= i < |a| ==> a[i].key == b[i].key && a[i].blank == b[i].blank
  }

  lemma FirstAtIs(lines: seq<Line>, i: nat, end: nat, key: string, at: nat)
    requires i <= at <= end <= |lines| && (at < end ==> lines[at].key == key)
    requires forall j :: i <= j < at ==> lines[j].key != key
    ensures FirstAt(lines, i, end, key) == at
  {
  }

  lemma ShapeDecides(a: seq<Line>, b: seq<Line>, start: nat, end: nat, key: string)
    requires SameShape(a, b) && start < end <= |a|
    ensures FirstAt(a, start + 1, end, key) == FirstAt(b, start + 1, end, key)
    ensures InsertPos(a, start, end) == InsertPos(b, start, end)
  {
    FirstAtIs(a, start + 1, end, key, FirstAt(b, start + 1, end, key));
    InsertPosAt(a, start, end, InsertPos(b, start, end));
  }

  ghost predicate BlanksAreEmpty(lines: seq<Line>) {
    forall i :: 0 <= i < |lines| && lines[i].blank ==> lines[i].key == ""
  }

  /** Rewriting one directive keeps every other line and the keyword of every line. */
  lemma FixedKeeps(base: seq<Line>, start: nat, end: nat, r: Required)
    requires start < end <= |base| && Reads(r) && BlanksAreEmpty(base) && r.key != ""
    ensures SameShape(Fixed(base, start, end, r), base)
    ensures forall i :: 0 <= i < |base| && base[i].key != r.key ==> Fixed(base, start, end, r)[i] == base[i]
    ensures BlanksAreEmpty(Fixed(base, start, end, r))
    ensures var at := FirstAt(base, start + 1, end, r.key);
      at < end ==> Satisfied(Fixed(base, start, end, r), start, end, r)
  {
    var at := FirstAt(base, start + 1, end, r.key);
    if at < end {
      IndentIsSpace(base[at].text);
      var line := r.write(Indent(base[at].text));
      assert line.key == r.key;
      FirstAtIs(Fixed(base, start, end, r), start + 1, end, r.key, at);
    }
  }

  // ---------- the edit, step by step ----------

  lemma BlankIsEmpty(lines: seq<Line>)
    requires WellRead(lines)
    ensures BlanksAreEmpty(lines)
  {
  }

  /** A directive found in the block stays at its line number whatever was added before. */
  lemma IndexStaysValid(base: seq<Line>, start: nat, end: nat, key: string, added: seq<Line>)
    requires start < end <= |base| && BlanksAreEmpty(base) && key != ""
    ensures var at, p := FirstAt(base, start + 1, end, key), InsertPos(base, start, end);
      at < end ==> at < p && Assembled(base, p, added)[at] == base[at]
  {
  }

  /** Several forwards coexist, so a missing one is added. */
  method EnsureForward(lines: seq<Line>, block: Block, plan: Plan)
    returns (result: seq<Line>, end: nat, change: Change)
    requires ValidPlan(plan) && block.start < block.end <= |lines| && block.directives == DirectivesIn(lines, block.start, block.end)
    ensures var added := ForwardExtra(lines, block.start, block.end, plan);
      && result == Assembled(lines, InsertPos(lines, block.start, block.end), added)
      && end == block.end + |added| && forall l :: l in added ==> !l.blank
    ensures change == if HasForward(lines, block.start, block.end, plan.wanted) then Unchanged else Added
  {
    AnyInDirectives(lines, block.start, block.end, plan.wanted);
    var has := HasRemoteForward(block.directives, plan.wanted);
    if has {
      return lines, block.end, Unchanged;
    }
    result := InsertDirectiveInBlock(lines, block.start, block.end, plan.forward);
    return result, block.end + 1, Added;
  }

  /** ControlMaster, then ControlPath, in a block to which `added` was added before. */
  method EnsureBoth(plan: Plan, lines: seq<Line>, ghost base: seq<Line>, start: nat, ghost end0: nat, end: nat, ghost added: seq<Line>,
                    directives: seq<Found>)
    returns (result: seq<Line>, master: Change, path: Change)
    requires start < end0 <= |base| && end == end0 + |added| && forall l :: l in added ==> !l.blank
    requires lines == Assembled(base, InsertPos(base, start, end0), added)
    requires ValidPlan(plan) && BlanksAreEmpty(base) && directives == DirectivesIn(base, start, end0)
    ensures result == Assembled(Fixed(Fixed(base, start, end0, plan.master), start, end0, plan.path), InsertPos(base, start, end0),
                                added + Extra(base, start, end0, plan.master) + Extra(base, start, end0, plan.path))
    ensures master == ChangeOf(base, start, end0, plan.master) && path == ChangeOf(base, start, end0, plan.path)
  {
    BothFound(plan, base, start, end0, directives);
    ExtraReads(base, start, end0, plan.master);
    var end1, end2;
    ghost var added1, added2;
    result, end1, master, added1 := EnsureSingle(lines, base, start, end0, end, added, directives, plan.master);
    result, end2, path, added2 := EnsureSingle(result, Fixed(base, start, end0, plan.master), start, end0, end1, added1, directives, plan.path);
  }

  /** What is to be reported of an edited block. */
  ghost function ChangesIn(lines: seq<Line>, start: nat, end: nat, plan: Plan): seq<Change>
    requires start < end <= |lines|
  {
    [if HasForward(lines, start, end, plan.wanted) then Unchanged else Added,
     ChangeOf(lines, start, end, plan.master), ChangeOf(lines, start, end, plan.path)]
  }

  method EditBlock(lines: seq<Line>, block: Block, plan: Plan) returns (result: seq<Line>, changes: seq<Change>)
    requires ValidPlan(plan) && WellRead(lines) && block.start < block.end <= |lines|
    requires block.directives == DirectivesIn(lines, block.start, block.end)
    ensures result == EditedBlock(lines, block.start, block.end, plan)
    ensures changes == ChangesIn(lines, block.start, block.end, plan)
  {
    BlankIsEmpty(lines);
    ghost var added := ForwardExtra(lines, block.start, block.end, plan);
    var end, forward, master, path;
    result, end, forward := EnsureForward(lines, block, plan);
    result, master, path := EnsureBoth(plan, result, lines, block.start, block.end, end, added, block.directives);
    changes := [forward, master, path];
  }

  lemma ExtraReads(lines: seq<Line>, start: nat, end: nat, r: Required)
    requires start < end <= |lines| && Reads(r)
    ensures forall l :: l in Extra(lines, start, end, r) ==> l.key == r.key && r.fits(l.value) && !l.blank
  {
    assert AllSpaces("    ");
    var line := r.write("    ");
  }

  /** What was recorded of the block holds at both steps: seeing to ControlMaster leaves ControlPath alone. */
  lemma BothFound(plan: Plan, lines: seq<Line>, start: nat, end: nat, directives: seq<Found>)
    requires start < end <= |lines| && BlanksAreEmpty(lines) && ValidPlan(plan)
    requires directives == DirectivesIn(lines, start, end)
    ensures FoundAt(directives, lines, start, end, plan.master.key)
    ensures var base := Fixed(lines, start, end, plan.master);
      && InsertPos(base, start, end) == InsertPos(lines, start, end)
      && FoundAt(directives, base, start, end, plan.path.key)
      && Extra(base, start, end, plan.path) == Extra(lines, start, end, plan.path)
      && ChangeOf(base, start, end, plan.path) == ChangeOf(lines, start, end, plan.path)
  {
    FirstInDirectives(lines, start, end, plan.master.key);
    IndexStaysValid(lines, start, end, plan.master.key, []);
    FixedKeeps(lines, start, end, plan.master);
    var base := Fixed(lines, start, end, plan.master);
    ShapeDecides(base, lines, start, end, plan.path.key);
    FirstInDirectives(lines, start, end, plan.path.key);
    IndexStaysValid(lines, start, end, plan.path.key, []);
  }

  // ---------- warnings, and the file ----------

  ghost predicate IncludeAbove(lines: seq<Line>, cutoff: nat)
    requires cutoff <= |lines|
  {
    exists i :: 0 <= i < cutoff && lines[i].key == "include"
  }

  ghost predicate ConflictAbove(lines: seq<Line>, cutoff: nat, plan: Plan)
    requires cutoff <= |lines|
  {
    exists i :: 0 <= i < cutoff && (lines[i].key == plan.master.key || lines[i].key == plan.path.key)
  }

  /** The lines OpenSSH reads before the ones this program answers for are those before `cutoff`. */
  ghost predicate IsCutoff(lines: seq<Line>, host: string, cutoff: nat) {
    && cutoff <= |lines|
    && if HasBlock(lines, host) then exists e: nat :: IsBlock(lines, host, cutoff, e) else cutoff == NewBlockPos(lines)
  }

  ghost function WarningsOf(lines: seq<Line>, cutoff: nat, plan: Plan): seq<Change>
    requires cutoff <= |lines|
  {
    (if IncludeAbove(lines, cutoff) then [Warning(true)] else [])
    + (if ConflictAbove(lines, cutoff, plan) then [Warning(false)] else [])
  }

  /** Everything a run reports: the warnings first, then the block made or what was done to each directive. */
  ghost predicate IsReport(changes: seq<Change>, lines: seq<Line>, host: string, plan: Plan, cutoff: nat) {
    && IsCutoff(lines, host, cutoff)
    && if HasBlock(lines, host)
       then exists e: nat :: IsBlock(lines, host, cutoff, e) && changes == WarningsOf(lines, cutoff, plan) + ChangesIn(lines, cutoff, e, plan)
       else changes == WarningsOf(lines, cutoff, plan) + [Created]
  }

  method ScopeWarnings(lines: seq<Line>, cutoff: nat, plan: Plan) returns (out: seq<Change>)
    requires ValidPlan(plan) && cutoff <= |lines|
    ensures out == WarningsOf(lines, cutoff, plan)
  {
    var sawInclude, sawConflict, i := false, false, 0;
    while i < cutoff
      invariant 0 <= i <= cutoff
      invariant sawInclude <==> IncludeAbove(lines, i)
      invariant sawConflict <==> ConflictAbove(lines, i, plan)
    {
      if lines[i].key == "include" {
        sawInclude := true;
      } else if lines[i].key == plan.master.key || lines[i].key == plan.path.key {
        sawConflict := true;
      }
      i := i + 1;
    }
    out := (if sawInclude then [Warning(true)] else []) + (if sawConflict then [Warning(false)] else []);
  }

  method FindHostStarLine(lines: seq<Line>) returns (star: int)
    ensures star == if HasBlock(lines, "*") then NewBlockPos(lines) else -1
  {
    var i := 0;
    while i < |lines|
      invariant 0 <= i <= |lines|
      invariant i <= NewBlockPos(lines)
    {
      if NamesHost(lines[i], "*") {
        return i;
      }
      i := i + 1;
    }
    return -1;
  }

  method InsertNewBlock(lines: seq<Line>, host: string, plan: Plan) returns (result: seq<Line>)
    ensures result == WithNewBlock(lines, host, plan)
  {
    var star := FindHostStarLine(lines);
    if star >= 0 {
      result := lines[..star] + NewBlock(host, plan) + lines[star..];
    } else {
      result := lines;
      if |result| > 0 && !result[|result| - 1].blank {
        result := result + [Read("")];
      }
      result := result + NewBlock(host, plan);
    }
  }

  method EditFound(lines: seq<Line>, host: string, block: Block, plan: Plan)
    returns (result: seq<Line>, edits: seq<Change>, modified: bool)
    requires ValidPlan(plan) && WellRead(lines) && IsBlock(lines, host, block.start, block.end)
    requires block.directives == DirectivesIn(lines, block.start, block.end)
    ensures EditOf(result, lines, host, plan) && edits == ChangesIn(lines, block.start, block.end, plan)
    ensures modified <==> !Settled(lines, host, plan)
  {
    result, edits := EditBlock(lines, block, plan);
    modified := !(edits[0].Unchanged? && edits[1].Unchanged? && edits[2].Unchanged?);
    EditSettles(lines, host, block.start, block.end, plan);
  }

  lemma EditSettles(lines: seq<Line>, host: string, s: nat, e: nat, plan: Plan)
    requires IsBlock(lines, host, s, e)
    ensures EditOf(EditedBlock(lines, s, e, plan), lines, host, plan)
    ensures var edits := ChangesIn(lines, s, e, plan);
      Settled(lines, host, plan) <==> edits[0].Unchanged? && edits[1].Unchanged? && edits[2].Unchanged?
  {
    OneBlockSettles(lines, host, s, e, plan);
  }

  method EnsureLines(lines: seq<Line>, host: string, plan: Plan)
    returns (result: seq<Line>, changes: seq<Change>, modified: bool, cutoff: nat)
    requires ValidPlan(plan) && WellRead(lines)
    ensures EditOf(result, lines, host, plan)
    ensures modified <==> !Settled(lines, host, plan)
    ensures IsReport(changes, lines, host, plan, cutoff)
  {
    var block := FindHostBlock(lines, host);
    var star := FindHostStarLine(lines);
    cutoff := if block.Some? then block.value.start else if star >= 0 then star else |lines|;
    var warnings := ScopeWarnings(lines, cutoff, plan);
    if block.None? {
      result := InsertNewBlock(lines, host, plan);
      return result, warnings + [Created], true, cutoff;
    }
    var edits;
    result, edits, modified := EditFound(lines, host, block.value, plan);
    changes := warnings + edits;
  }

  predicate IsEdit(c: Change) {
    c.Unchanged? || c.Updated? || c.Added? || c.Created?
  }

  /** The report tells of no change. */
  ghost predicate NoChange(changes: seq<Change>) {
    forall c :: c in changes ==> c.Unchanged? || c.Warning?
  }

  lemma WarningsFirst(edits: seq<Change>, aboutInclude: bool, aboutConflict: bool)
    requires forall c :: c in edits ==> IsEdit(c)
    ensures var changes := (if aboutInclude then [Warning(true)] else []) + (if aboutConflict then [Warning(false)] else []) + edits;
      && (Warning(true) in changes <==> aboutInclude) && (Warning(false) in changes <==> aboutConflict)
      && (NoChange(changes) <==> NoChange(edits))
  {
    var warnings := (if aboutInclude then [Warning(true)] else []) + (if aboutConflict then [Warning(false)] else []);
    assert forall c :: c in warnings + edits <==> c in warnings || c in edits;
  }

  lemma ChangesSettle(lines: seq<Line>, s: nat, e: nat, plan: Plan)
    requires s < e <= |lines|
    ensures var edits := ChangesIn(lines, s, e, plan);
      (forall c :: c in edits ==> IsEdit(c)) && (NoChange(edits) <==> Missing(lines, s, e, plan) == 0)
  {
    var edits := ChangesIn(lines, s, e, plan);
    assert edits[0] in edits && edits[1] in edits && edits[2] in edits;
  }

  /** A report warns of exactly what stands above, and tells of no change exactly when nothing was missing. */
  lemma ReportMeans(changes: seq<Change>, lines: seq<Line>, host: string, plan: Plan, cutoff: nat)
    requires IsReport(changes, lines, host, plan, cutoff)
    ensures Warning(true) in changes <==> IncludeAbove(lines, cutoff)
    ensures Warning(false) in changes <==> ConflictAbove(lines, cutoff, plan)
    ensures Settled(lines, host, plan) <==> NoChange(changes)
  {
    var edits := [Created];
    if HasBlock(lines, host) {
      var e: nat :| IsBlock(lines, host, cutoff, e) && changes == WarningsOf(lines, cutoff, plan) + ChangesIn(lines, cutoff, e, plan);
      OneBlockSettles(lines, host, cutoff, e, plan);
      ChangesSettle(lines, cutoff, e, plan);
      edits := ChangesIn(lines, cutoff, e, plan);
    } else {
      assert edits[0] in edits;
    }
    WarningsFirst(edits, IncludeAbove(lines, cutoff), ConflictAbove(lines, cutoff, plan));
  }

  lemma OneBlockSettles(lines: seq<Line>, host: string, s: nat, e: nat, plan: Plan)
    requires IsBlock(lines, host, s, e)
    ensures Settled(lines, host, plan) <==> Missing(lines, s, e, plan) == 0
  {
    if Settled(lines, host, plan) {
      var s2: nat, e2: nat :| IsBlock(lines, host, s2, e2) && Missing(lines, s2, e2, plan) == 0;
      BlockUnique(lines, host, s, e, s2, e2);
    }
  }

  function ReadAll(texts: seq<string>): (lines: seq<Line>)
    ensures |lines| == |texts| && WellRead(lines) && forall i :: 0 <= i < |texts| ==> lines[i] == Read(texts[i])
  {
    seq(|texts|, i requires 0 <= i < |texts| => Read(texts[i]))
  }

  function Texts(lines: seq<Line>): (texts: seq<string>)
    ensures |texts| == |lines| && forall i :: 0 <= i < |texts| ==> texts[i] == lines[i].text
  {
    seq(|lines|, i requires 0 <= i < |lines| => lines[i].text)
  }

  /** The lines of a file; a missing file reads as an empty one. */
  function LinesOf(content: string): seq<Line> {
    ReadAll(SplitLines(content))
  }

  /** ssh matches Host patterns against the host name alone, without the user. */
  function HostPattern(destination: string): string {
    var at := LastIndex(destination, '@');
    if at >= 0 && at + 1 < |destination| then destination[at + 1..] else destination
  }

  lemma PatternDropsUser(user: string, host: string)
    requires host != "" && '@' !in host
    ensures HostPattern(user + ("@" + host)) == host && HostPattern(host) == host
  {
    var destination := user + ("@" + host);
    assert destination[|user|] == '@' && destination[|user| + 1..] == host;
    assert forall i :: |user| < i < |destination| ==> destination[i] == host[i - |user| - 1];
    assert LastIndex(destination, '@') == |user|;
    assert LastIndex(host, '@') == -1;
  }

  /** What the file may hold after a run on its text. */
  ghost predicate RunOf(after: string, text: string, host: string, plan: Plan) {
    if Settled(LinesOf(text), host, plan) then after == text
    else exists result :: EditOf(result, LinesOf(text), host, plan) && after == JoinLines(Texts(result))
  }

  /** How a write to a file ends; one that fails may leave anything. */
  datatype Writing = Done | Fails(leaves: Option<string>)

  function Written(text: string, w: Writing): Option<string> {
    if w.Done? then Some(text) else w.leaves
  }

  function TextIn(file: Option<string>): string {
    if file.Some? then file.value else ""
  }

  /** A run that went through: what it leaves, and what it reports. */
  ghost predicate Ran(text: string, after: string, changes: seq<Change>, destination: string, port: nat, isLoopbackIP: string -> bool) {
    var host, plan := HostPattern(destination), PlanFor(port, isLoopbackIP);
    RunOf(after, text, host, plan) && exists cutoff: nat :: IsReport(changes, LinesOf(text), host, plan, cutoff)
  }

  /**
   The configuration and its backup after a run. The configuration is only touched once its text is in
   the backup, so whatever fails the user's text is in one of the two.
   */
  method EnsureSSHConfigAt(content: Option<string>, kept: Option<string>, destination: string, port: nat,
                           isLoopbackIP: string -> bool, onBackup: Writing, onWrite: Writing)
    returns (config: Option<string>, backup: Option<string>, changes: Option<seq<Change>>)
    requires isLoopbackIP("127.0.0.1")
    ensures config == content || TextIn(content) == "" || backup == content
    ensures var text, host, plan := TextIn(content), HostPattern(destination), PlanFor(port, isLoopbackIP);
      && (changes.Some? <==> Settled(LinesOf(text), host, plan) || ((text == "" || onBackup.Done?) && onWrite.Done?))
      && (changes.Some? ==> Ran(text, TextIn(config), changes.value, destination, port, isLoopbackIP))
      && (Settled(LinesOf(text), host, plan) ==> config == content && backup == kept)
      && (changes.None? && text != "" && onBackup.Fails? ==> config == content)
  {
    var text := TextIn(content);
    var lines := LinesOf(text);
    PlanIsValid(port, isLoopbackIP);
    var result, report, modified, cutoff := EnsureLines(lines, HostPattern(destination), PlanFor(port, isLoopbackIP));
    config, backup, changes := content, kept, Some(report);
    if modified {
      if |text| > 0 {
        backup := Written(text, onBackup);
        if onBackup.Fails? {
          return config, backup, None;
        }
      }
      config := Written(JoinLines(Texts(result)), onWrite);
      if onWrite.Fails? {
        changes := None;
      }
    }
  }
}
