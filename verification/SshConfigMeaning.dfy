/**
 What the edit of the ssh client configuration means: which lines it keeps, that it settles after one
 run, and what OpenSSH obtains for the host afterwards.
 */
module SshConfigMeaning {
  import opened Wrappers
  import opened Text
  import opened Numerals
  import opened SshConfig
  import opened SshConfigEdit

  // ---------- the edited block ----------

  /** The lines that open blocks or name the host are the same lines. */
  ghost predicate SameOpenings(a: seq<Line>, b: seq<Line>) {
    && |a| == |b|
    && forall i :: 0 <= i < |a| ==> (a[i] == b[i] || (!IsBlockStart(a[i]) && !IsBlockStart(b[i])))
  }

  lemma FirstNamingIs(lines: seq<Line>, host: string, first: nat)
    requires first < |lines| && NamesHost(lines[first], host)
    requires forall i :: 0 <= i < first ==> !NamesHost(lines[i], host)
    ensures FirstNaming(lines, host) == first
  {
  }

  /** `grown` is `base` with `added` put in at `p`. */
  ghost predicate Grown(grown: seq<Line>, base: seq<Line>, p: nat, added: seq<Line>) {
    && p <= |base| && |grown| == |base| + |added|
    && (forall i :: 0 <= i < p ==> grown[i] == base[i])
    && (forall i :: p <= i < p + |added| ==> grown[i] == added[i - p])
    && (forall i :: p + |added| <= i < |grown| ==> grown[i] == base[i - |added|])
  }

  lemma AssembledGrows(base: seq<Line>, p: nat, added: seq<Line>)
    requires p <= |base|
    ensures Grown(Assembled(base, p, added), base, p, added)
  {
  }

  lemma GrownIsBlock(grown: seq<Line>, lines: seq<Line>, fixed: seq<Line>, host: string, s: nat, e: nat, e': nat, p: nat, added: seq<Line>)
    requires e' == e + |added|
    requires IsBlock(lines, host, s, e) && SameOpenings(fixed, lines) && Grown(grown, fixed, p, added) && s < p <= e
    requires forall i :: 0 <= i < |added| ==> !IsBlockStart(added[i])
    ensures IsBlock(grown, host, s, e')
  {
    var first := FirstNaming(lines, host);
    assert forall i :: 0 <= i < p ==> (NamesHost(grown[i], host) <==> NamesHost(lines[i], host));
    FirstNamingIs(grown, host, first);
    assert e' < |grown| ==> grown[e'] == fixed[e];
  }

  lemma FixedOpenings(base: seq<Line>, start: nat, end: nat, r: Required)
    requires start < end <= |base| && Reads(r) && BlanksAreEmpty(base)
    requires r.key != "" && r.key != "host" && r.key != "match"
    ensures SameOpenings(Fixed(base, start, end, r), base)
  {
    FixedKeeps(base, start, end, r);
  }

  /** Both single-valued directives rewritten where they disagree. */
  ghost function Rewritten(lines: seq<Line>, start: nat, end: nat, plan: Plan): seq<Line>
    requires start < end <= |lines|
  {
    Fixed(Fixed(lines, start, end, plan.master), start, end, plan.path)
  }

  lemma RewrittenKeeps(lines: seq<Line>, start: nat, end: nat, plan: Plan)
    requires start < end <= |lines| && BlanksAreEmpty(lines) && ValidPlan(plan)
    ensures var fixed := Rewritten(lines, start, end, plan);
      && SameShape(fixed, lines) && SameOpenings(fixed, lines) && BlanksAreEmpty(fixed)
      && forall i :: 0 <= i < |lines| && lines[i].key != plan.master.key && lines[i].key != plan.path.key ==> fixed[i] == lines[i]
  {
    var once := Fixed(lines, start, end, plan.master);
    FixedKeeps(lines, start, end, plan.master);
    FixedOpenings(lines, start, end, plan.master);
    FixedKeeps(once, start, end, plan.path);
    FixedOpenings(once, start, end, plan.path);
  }

  lemma ExtrasOpenNothing(lines: seq<Line>, start: nat, end: nat, plan: Plan)
    requires start < end <= |lines| && ValidPlan(plan)
    ensures forall l :: l in Extras(lines, start, end, plan) ==> !IsBlockStart(l)
  {
    ExtraReads(lines, start, end, plan.master);
    ExtraReads(lines, start, end, plan.path);
  }

  /** The block from `start` to `end` is followed by blank lines from `p` on. */
  ghost predicate EndsAt(lines: seq<Line>, start: nat, end: nat, p: nat)
    requires end <= |lines|
  {
    start < p <= end && (forall i :: p <= i < end ==> lines[i].blank) && (p > start + 1 ==> !lines[p - 1].blank)
  }

  /** `edited` is the edited block from `start` to `end`, and `added` the lines it gained at `p`. */
  ghost predicate Edited(edited: seq<Line>, lines: seq<Line>, start: nat, end: nat, p: nat, plan: Plan, added: seq<Line>) {
    && start < end <= |lines| && BlanksAreEmpty(lines) && ValidPlan(plan) && EndsAt(lines, start, end, p)
    && edited == Assembled(Rewritten(lines, start, end, plan), p, added)
    && added == Extras(lines, start, end, plan)
  }

  /** The edited block is where the block was, and longer by the lines added. */
  lemma EditedIsBlock(edited: seq<Line>, lines: seq<Line>, host: string, s: nat, e: nat, e': nat, p: nat, plan: Plan, added: seq<Line>)
    requires e' == e + |added|
    requires IsBlock(lines, host, s, e) && Edited(edited, lines, s, e, p, plan, added)
    ensures IsBlock(edited, host, s, e')
  {
    RewrittenKeeps(lines, s, e, plan);
    ExtrasOpenNothing(lines, s, e, plan);
    AssembledGrows(Rewritten(lines, s, e, plan), p, added);
    GrownIsBlock(edited, lines, Rewritten(lines, s, e, plan), host, s, e, e', p, added);
  }

  // ---------- one run settles ----------

  /** A keyword found in a block is found at the same line once lines were added at its end. */
  lemma FoundInGrown(grown: seq<Line>, base: seq<Line>, start: nat, end: nat, end': nat, added: seq<Line>, key: string)
    requires end' == end + |added|
    requires start < end <= |base| && BlanksAreEmpty(base) && key != ""
    requires Grown(grown, base, InsertPos(base, start, end), added)
    requires FirstAt(base, start + 1, end, key) < end
    ensures FirstAt(grown, start + 1, end', key) == FirstAt(base, start + 1, end, key) < InsertPos(base, start, end)
  {
    var at := FirstAt(base, start + 1, end, key);
    assert !base[at].blank;
    FirstAtIs(grown, start + 1, end', key, at);
  }

  /** A keyword missing from a block is found among the lines added. */
  lemma AddedInGrown(grown: seq<Line>, base: seq<Line>, start: nat, end: nat, end': nat, p: nat, added: seq<Line>, key: string)
    requires end' == end + |added|
    requires start < p <= end <= |base| && Grown(grown, base, p, added)
    requires FirstAt(base, start + 1, end, key) == end && FirstAt(added, 0, |added|, key) < |added|
    ensures FirstAt(grown, start + 1, end', key) == p + FirstAt(added, 0, |added|, key)
  {
    var n := FirstAt(added, 0, |added|, key);
    assert grown[p + n] == added[n];
    FirstAtIs(grown, start + 1, end', key, p + n);
  }

  /** The added lines hold what was missing and nothing that contradicts it. */
  ghost predicate Supplies(added: seq<Line>, missing: bool, r: Required) {
    && (missing ==> exists i :: 0 <= i < |added| && added[i].key == r.key)
    && forall i :: 0 <= i < |added| && added[i].key == r.key ==> r.fits(added[i].value)
  }

  lemma SatisfiedInGrown(base: seq<Line>, start: nat, end: nat, end': nat, added: seq<Line>, r: Required)
    requires end' == end + |added|
    requires start < end <= |base| && BlanksAreEmpty(base) && r.key != ""
    requires FirstAt(base, start + 1, end, r.key) < end ==> Satisfied(base, start, end, r)
    requires Supplies(added, FirstAt(base, start + 1, end, r.key) == end, r)
    ensures Satisfied(Assembled(base, InsertPos(base, start, end), added), start, end', r)
  {
    var at, p := FirstAt(base, start + 1, end, r.key), InsertPos(base, start, end);
    var grown := Assembled(base, p, added);
    AssembledGrows(base, p, added);
    if at == end {
      var i :| 0 <= i < |added| && added[i].key == r.key;
      assert FirstAt(added, 0, |added|, r.key) <= i;
      AddedInGrown(grown, base, start, end, end', p, added, r.key);
    } else {
      FoundInGrown(grown, base, start, end, end', added, r.key);
    }
  }

  lemma RewrittenSatisfies(lines: seq<Line>, start: nat, end: nat, plan: Plan)
    requires start < end <= |lines| && BlanksAreEmpty(lines) && ValidPlan(plan)
    ensures var fixed := Rewritten(lines, start, end, plan);
      && (FirstAt(fixed, start + 1, end, plan.master.key) < end ==> Satisfied(fixed, start, end, plan.master))
      && (FirstAt(fixed, start + 1, end, plan.path.key) < end ==> Satisfied(fixed, start, end, plan.path))
  {
    var once := Fixed(lines, start, end, plan.master);
    FixedKeeps(lines, start, end, plan.master);
    FixedKeeps(once, start, end, plan.path);
    ShapeDecides(once, lines, start, end, plan.master.key);
    ShapeDecides(Fixed(once, start, end, plan.path), once, start, end, plan.master.key);
    ShapeDecides(Fixed(once, start, end, plan.path), once, start, end, plan.path.key);
  }

  lemma SuppliesAppend(a: seq<Line>, b: seq<Line>, x: bool, y: bool, r: Required)
    requires Supplies(a, x, r) && Supplies(b, y, r)
    ensures Supplies(a + b, x || y, r)
  {
    if x {
      var i :| 0 <= i < |a| && a[i].key == r.key;
      assert (a + b)[i].key == r.key;
    } else if y {
      var i :| 0 <= i < |b| && b[i].key == r.key;
      assert (a + b)[|a| + i].key == r.key;
    }
  }

  lemma ExtraSupplies(lines: seq<Line>, start: nat, end: nat, r: Required, about: Required)
    requires start < end <= |lines| && Reads(r) && (r == about || r.key != about.key)
    ensures Supplies(Extra(lines, start, end, r), r == about && FirstAt(lines, start + 1, end, r.key) == end, about)
  {
    ExtraReads(lines, start, end, r);
    var extra := Extra(lines, start, end, r);
    assert FirstAt(lines, start + 1, end, r.key) == end ==> extra[0].key == r.key;
  }

  lemma ExtrasSupply(lines: seq<Line>, start: nat, end: nat, plan: Plan, about: Required)
    requires start < end <= |lines| && ValidPlan(plan) && (about == plan.master || about == plan.path)
    ensures Supplies(Extras(lines, start, end, plan), FirstAt(lines, start + 1, end, about.key) == end, about)
  {
    var f := ForwardExtra(lines, start, end, plan);
    var m, q := Extra(lines, start, end, plan.master), Extra(lines, start, end, plan.path);
    assert Supplies(f, false, about);
    ExtraSupplies(lines, start, end, plan.master, about);
    ExtraSupplies(lines, start, end, plan.path, about);
    var x, y := about == plan.master && FirstAt(lines, start + 1, end, plan.master.key) == end, about == plan.path && FirstAt(lines, start + 1, end, plan.path.key) == end;
    SuppliesAppend(f, m, false, x, about);
    SuppliesAppend(f + m, q, x, y, about);
  }

  lemma ForwardInGrown(grown: seq<Line>, lines: seq<Line>, fixed: seq<Line>, start: nat, end: nat, end': nat, added: seq<Line>, wanted: string -> bool)
    requires end' == end + |added|
    requires start < end <= |lines| == |fixed| && BlanksAreEmpty(lines) && Grown(grown, fixed, InsertPos(lines, start, end), added)
    requires forall i :: 0 <= i < |lines| && lines[i].key == "remoteforward" ==> fixed[i] == lines[i]
    requires HasForward(lines, start, end, wanted)
             || (added != [] && IsForward(Directive(added[0].key, added[0].value), wanted))
    ensures end' <= |grown| && HasForward(grown, start, end', wanted)
  {
    var p := InsertPos(lines, start, end);
    if HasForward(lines, start, end, wanted) {
      var i :| start < i < end && ForwardAt(lines, i, wanted);
      assert lines[i].key == "remoteforward" && !lines[i].blank;
      assert grown[i] == lines[i];
      assert ForwardAt(grown, i, wanted);
    } else {
      assert grown[p] == added[0];
      assert ForwardAt(grown, p, wanted);
    }
  }

  lemma RewrittenReady(lines: seq<Line>, start: nat, end: nat, plan: Plan, about: Required)
    requires start < end <= |lines| && BlanksAreEmpty(lines) && ValidPlan(plan) && (about == plan.master || about == plan.path)
    ensures var fixed := Rewritten(lines, start, end, plan);
      && BlanksAreEmpty(fixed) && InsertPos(fixed, start, end) == InsertPos(lines, start, end)
      && FirstAt(fixed, start + 1, end, about.key) == FirstAt(lines, start + 1, end, about.key)
      && (FirstAt(fixed, start + 1, end, about.key) < end ==> Satisfied(fixed, start, end, about))
  {
    RewrittenKeeps(lines, start, end, plan);
    RewrittenSatisfies(lines, start, end, plan);
    ShapeDecides(Rewritten(lines, start, end, plan), lines, start, end, about.key);
  }

  lemma SatisfiedBy(edited: seq<Line>, lines: seq<Line>, fixed: seq<Line>, start: nat, end: nat, end': nat, added: seq<Line>, about: Required)
    requires end' == end + |added|
    requires start < end <= |lines| == |fixed| && BlanksAreEmpty(fixed) && about.key != ""
    requires InsertPos(fixed, start, end) == InsertPos(lines, start, end)
    requires edited == Assembled(fixed, InsertPos(lines, start, end), added)
    requires FirstAt(fixed, start + 1, end, about.key) == FirstAt(lines, start + 1, end, about.key)
    requires FirstAt(fixed, start + 1, end, about.key) < end ==> Satisfied(fixed, start, end, about)
    requires Supplies(added, FirstAt(lines, start + 1, end, about.key) == end, about)
    ensures Satisfied(edited, start, end', about)
  {
    SatisfiedInGrown(fixed, start, end, end', added, about);
  }

  lemma EditedSatisfies(edited: seq<Line>, lines: seq<Line>, start: nat, end: nat, end': nat, p: nat, plan: Plan, added: seq<Line>, about: Required)
    requires end' == end + |added|
    requires Edited(edited, lines, start, end, p, plan, added) && (about == plan.master || about == plan.path)
    ensures end' <= |edited| && Satisfied(edited, start, end', about)
  {
    InsertPosAt(lines, start, end, p);
    RewrittenReady(lines, start, end, plan, about);
    ExtrasSupply(lines, start, end, plan, about);
    SatisfiedBy(edited, lines, Rewritten(lines, start, end, plan), start, end, end', added, about);
  }

  lemma EditedForwards(edited: seq<Line>, lines: seq<Line>, start: nat, end: nat, end': nat, p: nat, plan: Plan, added: seq<Line>)
    requires end' == end + |added|
    requires Edited(edited, lines, start, end, p, plan, added)
    ensures end' <= |edited| && HasForward(edited, start, end', plan.wanted)
  {
    InsertPosAt(lines, start, end, p);
    var fixed := Rewritten(lines, start, end, plan);
    RewrittenKeeps(lines, start, end, plan);
    AssembledGrows(fixed, p, added);
    ForwardInGrown(edited, lines, fixed, start, end, end', added, plan.wanted);
  }

  lemma EditedLacksNothing(edited: seq<Line>, lines: seq<Line>, s: nat, e: nat, e': nat, p: nat, plan: Plan, added: seq<Line>)
    requires e' == e + |added|
    requires Edited(edited, lines, s, e, p, plan, added)
    ensures e' <= |edited| && Missing(edited, s, e', plan) == 0
  {
    EditedForwards(edited, lines, s, e, e', p, plan, added);
    EditedSatisfies(edited, lines, s, e, e', p, plan, added, plan.master);
    EditedSatisfies(edited, lines, s, e, e', p, plan, added, plan.path);
  }

  lemma EditedSettles(edited: seq<Line>, lines: seq<Line>, host: string, s: nat, e: nat, e': nat, p: nat, plan: Plan, added: seq<Line>)
    requires e' == e + |added|
    requires IsBlock(lines, host, s, e) && Edited(edited, lines, s, e, p, plan, added)
    ensures Settled(edited, host, plan)
  {
    EditedLacksNothing(edited, lines, s, e, e', p, plan, added);
    EditedIsBlock(edited, lines, host, s, e, e', p, plan, added);
  }

  lemma EditOfBlockSettles(result: seq<Line>, lines: seq<Line>, host: string, plan: Plan)
    requires HasBlock(lines, host) && EditOf(result, lines, host, plan) && BlanksAreEmpty(lines) && ValidPlan(plan)
    ensures Settled(result, host, plan)
  {
    var s: nat, e: nat :| IsBlock(lines, host, s, e) && result == EditedBlock(lines, s, e, plan);
    EditedSettles(result, lines, host, s, e, e + |Extras(lines, s, e, plan)|, InsertPos(lines, s, e), plan, Extras(lines, s, e, plan));
  }

  // ---------- a new block ----------

  /** A host that stands on a Host line as one word. */
  predicate Plain(host: string) {
    host != "" && NoSpaces(host) && host[0] != '='
  }

  lemma HostLineNames(host: string)
    requires Plain(host)
    ensures var line := Write("", "Host", host); NamesHost(line, host) && Fields(line.value) == [host]
  {
    WriteReads("", "Host", host);
    assert ToLower("Host") == "host";
    FieldsOfOne(host);
  }

  /** Every field is a word, and no longer than the text. */
  lemma {:induction false} FieldsAreWords(s: string)
    ensures forall w :: w in Fields(s) ==> w != "" && NoSpaces(w) && |w| <= |s|
    decreases |s|
  {
    TrimLeftShrinks(s);
    var t := TrimLeft(s);
    if t != [] {
      FieldsAreWords(t[WordLength(t)..]);
    }
  }

  lemma TrimShrinks(s: string)
    ensures |TrimSpace(s)| <= |s|
  {
    TrimLeftShrinks(s);
    TrimRightShrinks(TrimLeft(s));
  }

  lemma {:induction false} TrimRightShrinks(s: string)
    ensures |TrimRight(s)| <= |s|
  {
    if s != [] && IsSpace(s[|s| - 1]) {
      TrimRightShrinks(s[..|s| - 1]);
    }
  }

  lemma {:induction false} TrimSetShrinks(s: string)
    ensures |TrimLeftSet(s, SEPARATORS)| <= |s|
  {
    if s != [] && s[0] in SEPARATORS {
      TrimSetShrinks(s[1..]);
    }
  }

  /** An equals sign before the value is a separator, not a part of it. */
  lemma EqualsIsNoValue(text: string, key: string, host: string)
    requires key != "" && NoSpaces(key) && key[0] != '#' && forall i :: 0 <= i < |key| ==> key[i] !in SEPARATORS
    requires host != "" && host[0] == '=' && NoSpaces(host)
    requires text == key + ([' '] + host)
    ensures |Parse(text).value| < |host|
  {
    var tail := [' '] + host;
    ParseSplits(text, key, tail);
    assert tail[1..] == host;
    assert TrimLeftSet(tail, SEPARATORS) == TrimLeftSet(host[1..], SEPARATORS);
    TrimSetShrinks(host[1..]);
    TrimShrinks(TrimLeftSet(tail, SEPARATORS));
  }

  lemma KeyLineMisses(text: string, key: string, host: string)
    requires key != "" && NoSpaces(key) && key[0] != '#' && forall i :: 0 <= i < |key| ==> key[i] !in SEPARATORS
    requires !Plain(host) && text == key + ([' '] + host)
    ensures !NamesHost(Read(text), host)
  {
    FieldsAreWords(Parse(text).value);
    if host != "" && NoSpaces(host) {
      EqualsIsNoValue(text, key, host);
    }
  }

  /** A host that is not plain is not named by the line written for it. */
  lemma HostLineMisses(host: string)
    requires !Plain(host)
    ensures !NamesHost(Write("", "Host", host), host)
  {
    var key := "Host";
    assert "" + (key + (" " + host)) == key + ([' '] + host);
    KeyLineMisses("" + (key + (" " + host)), key, host);
  }

  /** `result` is `pre`, the new block with `hostLine` at its head, and `post`. */
  ghost predicate Inserted(result: seq<Line>, pre: seq<Line>, post: seq<Line>, hostLine: Line, plan: Plan) {
    result == pre + [hostLine, plan.forward, plan.master.write("    "), plan.path.write("    "), Read("")] + post
  }

  /** A block is inserted before a line that opens a block, or at the end. */
  lemma NewBlockInserts(result: seq<Line>, lines: seq<Line>, host: string, plan: Plan) returns (pre: seq<Line>, post: seq<Line>)
    requires !HasBlock(lines, host) && EditOf(result, lines, host, plan)
    ensures Inserted(result, pre, post, Write("", "Host", host), plan)
    ensures post == lines[NewBlockPos(lines)..] && (post != [] ==> IsBlockStart(post[0]))
    ensures pre == lines[..NewBlockPos(lines)] || (post == [] && pre == lines + [Read("")])
    ensures forall i :: 0 <= i < |pre| ==> !NamesHost(pre[i], host)
    ensures forall i :: 0 <= i < |post| ==> !NamesHost(post[i], host)
  {
    var p := NewBlockPos(lines);
    pre, post := lines[..p], lines[p..];
    if p == |lines| && lines != [] && !lines[|lines| - 1].blank {
      pre := lines + [Read("")];
      assert Read("").key == "";
    }
    assert lines[..p] + post == lines;
  }

  lemma LinesRead(plan: Plan)
    requires ValidPlan(plan)
    ensures plan.master.write("    ").key == plan.master.key && plan.master.fits(plan.master.write("    ").value)
    ensures plan.path.write("    ").key == plan.path.key && plan.path.fits(plan.path.write("    ").value)
    ensures Read("").key == ""
  {
    assert AllSpaces("    ");
  }

  lemma InsertedAt(result: seq<Line>, pre: seq<Line>, post: seq<Line>, hostLine: Line, plan: Plan)
    requires Inserted(result, pre, post, hostLine, plan)
    ensures |result| == |pre| + 5 + |post|
    ensures forall i :: 0 <= i < |pre| ==> result[i] == pre[i]
    ensures var s := |pre|;
      && result[s] == hostLine && result[s + 1] == plan.forward && result[s + 2] == plan.master.write("    ")
      && result[s + 3] == plan.path.write("    ") && result[s + 4] == Read("")
    ensures forall i :: |pre| + 5 <= i < |result| ==> result[i] == post[i - |pre| - 5]
  {
  }

  lemma InsertedLacksNothing(result: seq<Line>, pre: seq<Line>, post: seq<Line>, hostLine: Line, plan: Plan)
    requires Inserted(result, pre, post, hostLine, plan) && ValidPlan(plan)
    ensures |pre| + 5 <= |result| && Missing(result, |pre|, |pre| + 5, plan) == 0
  {
    var s := |pre|;
    InsertedAt(result, pre, post, hostLine, plan);
    LinesRead(plan);
    assert ForwardAt(result, s + 1, plan.wanted);
    FirstAtIs(result, s + 1, s + 5, plan.master.key, s + 2);
    FirstAtIs(result, s + 1, s + 5, plan.path.key, s + 3);
  }

  lemma InsertedIsBlock(result: seq<Line>, pre: seq<Line>, post: seq<Line>, hostLine: Line, host: string, plan: Plan)
    requires Inserted(result, pre, post, hostLine, plan) && ValidPlan(plan) && NamesHost(hostLine, host)
    requires forall i :: 0 <= i < |pre| ==> !NamesHost(pre[i], host)
    requires post != [] ==> IsBlockStart(post[0]) && !NamesHost(post[0], host)
    ensures IsBlock(result, host, |pre|, |pre| + 5)
  {
    InsertedAt(result, pre, post, hostLine, plan);
    LinesRead(plan);
    FirstNamingIs(result, host, |pre|);
  }

  lemma InsertedNamesNone(result: seq<Line>, pre: seq<Line>, post: seq<Line>, hostLine: Line, host: string, plan: Plan)
    requires Inserted(result, pre, post, hostLine, plan) && ValidPlan(plan) && !NamesHost(hostLine, host)
    requires forall i :: 0 <= i < |pre| ==> !NamesHost(pre[i], host)
    requires forall i :: 0 <= i < |post| ==> !NamesHost(post[i], host)
    ensures !HasBlock(result, host)
  {
    InsertedAt(result, pre, post, hostLine, plan);
    LinesRead(plan);
  }

  /**
   One run settles the file: a second one on its lines finds nothing to do, exactly when the first found
   a block of the host or the host can stand on a Host line.
   */
  lemma OneRunSettles(result: seq<Line>, lines: seq<Line>, host: string, plan: Plan)
    requires EditOf(result, lines, host, plan) && BlanksAreEmpty(lines) && ValidPlan(plan)
    ensures Settled(result, host, plan) <==> HasBlock(lines, host) || Plain(host)
  {
    if HasBlock(lines, host) {
      EditOfBlockSettles(result, lines, host, plan);
    } else {
      var pre, post := NewBlockInserts(result, lines, host, plan);
      var hostLine := Write("", "Host", host);
      if Plain(host) {
        HostLineNames(host);
        InsertedLacksNothing(result, pre, post, hostLine, plan);
        InsertedIsBlock(result, pre, post, hostLine, host, plan);
      } else {
        HostLineMisses(host);
        InsertedNamesNone(result, pre, post, hostLine, host, plan);
      }
    }
  }

  lemma NothingAdded(lines: seq<Line>, p: nat)
    requires p <= |lines|
    ensures Assembled(lines, p, []) == lines
  {
  }

  lemma NothingMissing(lines: seq<Line>, s: nat, e: nat, plan: Plan)
    requires s < e <= |lines| && Missing(lines, s, e, plan) == 0
    ensures EditedBlock(lines, s, e, plan) == lines
  {
    assert Extras(lines, s, e, plan) == [];
    NothingAdded(lines, InsertPos(lines, s, e));
  }

  /** An edit of settled lines is the same lines. */
  lemma SettledStays(result: seq<Line>, lines: seq<Line>, host: string, plan: Plan)
    requires EditOf(result, lines, host, plan) && Settled(lines, host, plan)
    ensures result == lines
  {
    var s: nat, e: nat :| IsBlock(lines, host, s, e) && Missing(lines, s, e, plan) == 0;
    var s2: nat, e2: nat :| IsBlock(lines, host, s2, e2) && result == EditedBlock(lines, s2, e2, plan);
    BlockUnique(lines, host, s, e, s2, e2);
    NothingMissing(lines, s, e, plan);
  }

  // ---------- what stays ----------

  /** Line `i` is the first `r` of the block and will not do; `to` is `r` as it is written there. */
  ghost predicate IsRewrite(lines: seq<Line>, s: nat, e: nat, r: Required, i: int, to: Line)
    requires s < e <= |lines|
  {
    s < i < e && i == FirstAt(lines, s + 1, e, r.key) && !r.fits(lines[i].value) && to == r.write(Indent(lines[i].text))
  }

  /** Line `i` is one of the two of the host's block that may be rewritten, and `to` is what it becomes. */
  ghost predicate MayRewrite(lines: seq<Line>, host: string, plan: Plan, i: int, to: Line) {
    exists s: nat, e: nat :: IsBlock(lines, host, s, e)
      && (IsRewrite(lines, s, e, plan.master, i, to) || IsRewrite(lines, s, e, plan.path, i, to))
  }

  /** `result` is `lines` with `n` lines put in at `p`, but for the lines that are rewritten. */
  ghost predicate Keeps(result: seq<Line>, lines: seq<Line>, host: string, plan: Plan, p: nat, n: nat) {
    && p <= |lines| && |result| == |lines| + n
    && forall i {:trigger lines[i]} :: 0 <= i < |lines| ==>
      var now := result[if i < p then i else i + n];
      now == lines[i] || MayRewrite(lines, host, plan, i, now)
  }

  /** What is added, and where: in the block behind its last line that is not blank, or a block of its own. */
  ghost predicate Adds(lines: seq<Line>, host: string, plan: Plan, p: nat, added: seq<Line>) {
    if HasBlock(lines, host) then
      exists s: nat, e: nat :: IsBlock(lines, host, s, e) && p == InsertPos(lines, s, e) && added == Extras(lines, s, e, plan)
    else
      p == NewBlockPos(lines)
      && (added == NewBlock(host, plan) || (p == |lines| && added == [Read("")] + NewBlock(host, plan)))
  }

  lemma RewrittenAt(lines: seq<Line>, s: nat, e: nat, plan: Plan, i: nat)
    requires s < e <= |lines| && BlanksAreEmpty(lines) && ValidPlan(plan) && i < |lines|
    ensures var to := Rewritten(lines, s, e, plan)[i];
      to == lines[i] || IsRewrite(lines, s, e, plan.master, i, to) || IsRewrite(lines, s, e, plan.path, i, to)
  {
    FixedKeeps(lines, s, e, plan.master);
    ShapeDecides(Fixed(lines, s, e, plan.master), lines, s, e, plan.path.key);
  }

  lemma RewriteIsAllowed(lines: seq<Line>, host: string, s: nat, e: nat, plan: Plan, i: nat)
    requires IsBlock(lines, host, s, e) && BlanksAreEmpty(lines) && ValidPlan(plan) && i < |lines|
    ensures var to := Rewritten(lines, s, e, plan)[i]; to == lines[i] || MayRewrite(lines, host, plan, i, to)
  {
    RewrittenAt(lines, s, e, plan, i);
  }

  lemma GrownKeeps(result: seq<Line>, lines: seq<Line>, fixed: seq<Line>, host: string, plan: Plan, p: nat, added: seq<Line>)
    requires Grown(result, fixed, p, added) && |fixed| == |lines|
    requires forall i :: 0 <= i < |lines| ==> fixed[i] == lines[i] || MayRewrite(lines, host, plan, i, fixed[i])
    ensures Keeps(result, lines, host, plan, p, |added|)
  {
  }

  lemma EditOfBlockKeeps(result: seq<Line>, lines: seq<Line>, host: string, plan: Plan, s: nat, e: nat)
    requires IsBlock(lines, host, s, e) && result == EditedBlock(lines, s, e, plan) && BlanksAreEmpty(lines) && ValidPlan(plan)
    ensures Keeps(result, lines, host, plan, InsertPos(lines, s, e), |Extras(lines, s, e, plan)|)
  {
    var fixed, added := Rewritten(lines, s, e, plan), Extras(lines, s, e, plan);
    AssembledGrows(fixed, InsertPos(lines, s, e), added);
    forall i | 0 <= i < |lines| ensures fixed[i] == lines[i] || MayRewrite(lines, host, plan, i, fixed[i]) {
      RewriteIsAllowed(lines, host, s, e, plan, i);
    }
    GrownKeeps(result, lines, fixed, host, plan, InsertPos(lines, s, e), added);
  }

  /** Lines put in at one place leave the others in order. */
  lemma InsertKeeps(result: seq<Line>, lines: seq<Line>, host: string, plan: Plan, p: nat, added: seq<Line>)
    requires p <= |lines| && result == Assembled(lines, p, added)
    ensures Keeps(result, lines, host, plan, p, |added|)
  {
    AssembledGrows(lines, p, added);
  }

  lemma NewBlockKeeps(result: seq<Line>, lines: seq<Line>, host: string, plan: Plan) returns (added: seq<Line>)
    requires result == WithNewBlock(lines, host, plan) && !HasBlock(lines, host)
    ensures var p := NewBlockPos(lines);
      Keeps(result, lines, host, plan, p, |added|) && |added| <= 6 && result[p..p + |added|] == added && Adds(lines, host, plan, p, added)
  {
    var p, block := NewBlockPos(lines), NewBlock(host, plan);
    if p < |lines| {
      added := block;
      InsertKeeps(result, lines, host, plan, p, block);
    } else {
      added := if lines != [] && !lines[|lines| - 1].blank then [Read("")] + block else block;
      assert result == lines[..p] + added + lines[p..];
      InsertKeeps(result, lines, host, plan, p, added);
    }
  }

  lemma EditOfBlockAdds(result: seq<Line>, lines: seq<Line>, s: nat, e: nat, plan: Plan)
    requires s < e <= |lines| && result == EditedBlock(lines, s, e, plan)
    ensures var p, added := InsertPos(lines, s, e), Extras(lines, s, e, plan);
      p + |added| <= |result| && result[p..p + |added|] == added && |added| <= 3
  {
  }

  /**
   An edit adds its lines in one place, in the block of the host or as a block of its own, and keeps every
   other line, in order, but for the first ControlMaster and ControlPath of the block where they will not do.
   */
  lemma EditKeepsTheRest(result: seq<Line>, lines: seq<Line>, host: string, plan: Plan) returns (p: nat, added: seq<Line>)
    requires EditOf(result, lines, host, plan) && BlanksAreEmpty(lines) && ValidPlan(plan)
    ensures Keeps(result, lines, host, plan, p, |added|) && |added| <= 6
    ensures result[p..p + |added|] == added && Adds(lines, host, plan, p, added)
  {
    if HasBlock(lines, host) {
      var s: nat, e: nat :| IsBlock(lines, host, s, e) && result == EditedBlock(lines, s, e, plan);
      p, added := InsertPos(lines, s, e), Extras(lines, s, e, plan);
      EditOfBlockKeeps(result, lines, host, plan, s, e);
      EditOfBlockAdds(result, lines, s, e, plan);
    } else {
      added := NewBlockKeeps(result, lines, host, plan);
      p := NewBlockPos(lines);
    }
  }

  // ---------- the file ----------

  /** The line is what its text reads as, and has no newline in it. */
  ghost predicate Printable(line: Line) {
    line == Read(line.text) && OneLine(line.text)
  }

  ghost predicate AllPrintable(lines: seq<Line>) {
    forall i :: 0 <= i < |lines| ==> Printable(lines[i])
  }

  ghost predicate PrintablePlan(plan: Plan) {
    && Printable(plan.forward)
    && (forall indent {:trigger plan.master.write(indent)} :: OneLine(indent) ==> Printable(plan.master.write(indent)))
    && (forall indent {:trigger plan.path.write(indent)} :: OneLine(indent) ==> Printable(plan.path.write(indent)))
  }

  lemma WritesOneLine(indent: string, name: string, value: string)
    requires OneLine(indent) && OneLine(name) && OneLine(value)
    ensures Printable(Write(indent, name, value))
  {
  }

  lemma RequirePrintable(name: string, value: string)
    requires OneLine(name) && OneLine(value)
    ensures forall indent {:trigger Require(name, value).write(indent)} :: OneLine(indent) ==> Printable(Require(name, value).write(indent))
  {
    forall indent | OneLine(indent) ensures Printable(Require(name, value).write(indent)) {
      WritesOneLine(indent, name, value);
    }
  }

  lemma PlanIsPrintable(port: nat, isLoopbackIP: string -> bool)
    ensures PrintablePlan(PlanFor(port, isLoopbackIP))
  {
    ForwardValueShape(port);
    WritesOneLine("    ", "RemoteForward", ForwardValue(port));
    RequirePrintable("ControlMaster", "no");
    RequirePrintable("ControlPath", "none");
  }

  lemma FixedPrintable(base: seq<Line>, start: nat, end: nat, r: Required)
    requires start < end <= |base| && AllPrintable(base)
    requires forall indent {:trigger r.write(indent)} :: OneLine(indent) ==> Printable(r.write(indent))
    ensures AllPrintable(Fixed(base, start, end, r))
  {
    var at := FirstAt(base, start + 1, end, r.key);
    if at < end {
      IndentIsSpace(base[at].text);
      var indent := Indent(base[at].text);
      assert forall i :: 0 <= i < |indent| ==> indent[i] == base[at].text[i];
      assert OneLine(indent);
    }
  }

  lemma ExtraPrintable(base: seq<Line>, start: nat, end: nat, r: Required)
    requires start < end <= |base|
    requires forall indent {:trigger r.write(indent)} :: OneLine(indent) ==> Printable(r.write(indent))
    ensures AllPrintable(Extra(base, start, end, r))
  {
    assert OneLine("    ");
    assert Printable(r.write("    "));
  }

  lemma AssembledPrintable(base: seq<Line>, p: nat, added: seq<Line>)
    requires p <= |base| && AllPrintable(base) && AllPrintable(added)
    ensures AllPrintable(Assembled(base, p, added))
  {
    AssembledGrows(base, p, added);
    var grown := Assembled(base, p, added);
    forall i | 0 <= i < |grown| ensures Printable(grown[i]) {
      assert grown[i] == if i < p then base[i] else if i < p + |added| then added[i - p] else base[i - |added|];
    }
  }

  lemma EditOfBlockPrintable(result: seq<Line>, lines: seq<Line>, host: string, plan: Plan, s: nat, e: nat)
    requires IsBlock(lines, host, s, e) && result == EditedBlock(lines, s, e, plan)
    requires AllPrintable(lines) && PrintablePlan(plan)
    ensures AllPrintable(result)
  {
    FixedPrintable(lines, s, e, plan.master);
    FixedPrintable(Fixed(lines, s, e, plan.master), s, e, plan.path);
    ExtraPrintable(lines, s, e, plan.master);
    ExtraPrintable(lines, s, e, plan.path);
    AssembledPrintable(Rewritten(lines, s, e, plan), InsertPos(lines, s, e), Extras(lines, s, e, plan));
  }

  lemma EditIsPrintable(result: seq<Line>, lines: seq<Line>, host: string, plan: Plan)
    requires EditOf(result, lines, host, plan) && AllPrintable(lines) && PrintablePlan(plan)
    requires HasBlock(lines, host) || OneLine(host)
    ensures AllPrintable(result)
  {
    if HasBlock(lines, host) {
      var s: nat, e: nat :| IsBlock(lines, host, s, e) && result == EditedBlock(lines, s, e, plan);
      EditOfBlockPrintable(result, lines, host, plan, s, e);
    } else {
      var pre, post := NewBlockInserts(result, lines, host, plan);
      WritesOneLine("", "Host", host);
      assert OneLine("    ");
      InsertedPrintable(result, pre, post, Write("", "Host", host), plan);
    }
  }

  lemma InsertedPrintable(result: seq<Line>, pre: seq<Line>, post: seq<Line>, hostLine: Line, plan: Plan)
    requires Inserted(result, pre, post, hostLine, plan) && PrintablePlan(plan) && Printable(hostLine)
    requires AllPrintable(pre) && AllPrintable(post)
    ensures AllPrintable(result)
  {
    assert OneLine("    ");
    assert Printable(Read(""));
    InsertedAt(result, pre, post, hostLine, plan);
    forall i | 0 <= i < |result| ensures Printable(result[i]) {
      if i < |pre| {
        assert result[i] == pre[i];
      } else if |pre| + 5 <= i {
        assert result[i] == post[i - |pre| - 5];
      }
    }
  }

  lemma FileIsPrintable(text: string)
    ensures AllPrintable(LinesOf(text)) && LinesOf(text) != []
  {
    SplitIsLines(text);
    var ls := SplitLines(text);
    assert forall i :: 0 <= i < |ls| ==> ls[i] in ls;
  }

  /** Printable lines written to a file are read back as they are. */
  lemma ReadBack(lines: seq<Line>)
    requires AllPrintable(lines) && lines != []
    ensures LinesOf(JoinLines(Texts(lines))) == lines
  {
    forall l | l in Texts(lines) ensures OneLine(l) {
      var i :| 0 <= i < |lines| && Texts(lines)[i] == l;
      assert Printable(lines[i]);
    }
    SplitJoin(Texts(lines));
    assert forall i :: 0 <= i < |lines| ==> ReadAll(Texts(lines))[i] == lines[i];
  }

  /** Running the edit on a file it has written leaves the file as it is. */
  lemma SecondRunChangesNothing(text: string, after: string, again: string, host: string, plan: Plan)
    requires ValidPlan(plan) && PrintablePlan(plan) && (HasBlock(LinesOf(text), host) || Plain(host))
    requires RunOf(after, text, host, plan) && RunOf(again, after, host, plan)
    ensures Settled(LinesOf(after), host, plan) && again == after
  {
    var lines := LinesOf(text);
    if !Settled(lines, host, plan) {
      var result :| EditOf(result, lines, host, plan) && after == JoinLines(Texts(result));
      FileIsPrintable(text);
      EditIsPrintable(result, lines, host, plan);
      BlankIsEmpty(lines);
      var p, added := EditKeepsTheRest(result, lines, host, plan);
      ReadBack(result);
      OneRunSettles(result, lines, host, plan);
    }
  }
}
