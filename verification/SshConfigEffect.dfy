/**
 What OpenSSH obtains for the host from an edited configuration, by the first-obtained-value rule of
 ssh_config(5): when the edit takes effect, when it cannot, and two files it does not see through.
 */
module SshConfigEffect {
  import opened Wrappers
  import opened Text
  import opened Numerals
  import opened SshConfig
  import opened SshConfigEdit
  import opened SshConfigMeaning

  // ---------- reading on ----------

  /** Is the configuration active for the host after all these lines? */
  function ActiveAfterAll(lines: seq<Line>, active: bool, host: string, matches: string -> bool): bool {
    if lines == [] then active
    else ActiveAfterAll(lines[1..], ActiveAfter(lines[0], active, host, matches), host, matches)
  }

  lemma {:induction false} FirstAppend(a: seq<Line>, b: seq<Line>, key: string, active: bool, host: string, matches: string -> bool)
    ensures First(a + b, key, active, host, matches) ==
      var x := First(a, key, active, host, matches);
      if x.Unset? then First(b, key, ActiveAfterAll(a, active, host, matches), host, matches) else x
  {
    if a == [] {
      assert a + b == b;
    } else {
      assert (a + b)[1..] == a[1..] + b;
      FirstAppend(a[1..], b, key, ActiveAfter(a[0], active, host, matches), host, matches);
    }
  }

  lemma Regroup(x: seq<string>, y: seq<string>, z: seq<string>)
    ensures x + (y + z) == (x + y) + z
  {
  }

  lemma {:induction false} ForwardsAppend(a: seq<Line>, b: seq<Line>, active: bool, host: string, matches: string -> bool)
    ensures Forwards(a + b, active, host, matches) ==
      Forwards(a, active, host, matches) + Forwards(b, ActiveAfterAll(a, active, host, matches), host, matches)
  {
    if a == [] {
      assert a + b == b;
    } else {
      assert (a + b)[1..] == a[1..] + b;
      var next := ActiveAfter(a[0], active, host, matches);
      ForwardsAppend(a[1..], b, next, host, matches);
      Regroup(if active && a[0].key == "remoteforward" then [a[0].value] else [], Forwards(a[1..], next, host, matches),
              Forwards(b, ActiveAfterAll(a, active, host, matches), host, matches));
    }
  }

  /** Where neither the keyword nor an Include stands, nothing is obtained. */
  lemma {:induction false} NothingThere(a: seq<Line>, key: string, active: bool, host: string, matches: string -> bool)
    requires forall i :: 0 <= i < |a| ==> a[i].key != key && a[i].key != "include"
    ensures First(a, key, active, host, matches) == Unset
  {
    if a != [] {
      NothingThere(a[1..], key, ActiveAfter(a[0], active, host, matches), host, matches);
    }
  }

  lemma {:induction false} StaysActive(a: seq<Line>, active: bool, host: string, matches: string -> bool)
    requires forall i :: 0 <= i < |a| ==> !IsBlockStart(a[i])
    ensures ActiveAfterAll(a, active, host, matches) == active
  {
    if a != [] {
      StaysActive(a[1..], active, host, matches);
    }
  }

  /** Nothing is obtained from lines of a block that is not active. */
  lemma {:induction false} InactiveGivesNothing(a: seq<Line>, key: string, host: string, matches: string -> bool)
    requires forall i :: 0 <= i < |a| ==> !IsBlockStart(a[i])
    ensures First(a, key, false, host, matches) == Unset && Forwards(a, false, host, matches) == []
  {
    if a != [] {
      InactiveGivesNothing(a[1..], key, host, matches);
    }
  }

  /** What the active lines `a` of one block give: what stands first, the keyword or an Include. */
  lemma {:induction false} ActiveGivesFirst(a: seq<Line>, key: string, n: nat, host: string, matches: string -> bool)
    requires forall i :: 0 <= i < |a| ==> !IsBlockStart(a[i])
    requires n < |a| && (a[n].key == key || a[n].key == "include")
    requires forall i :: 0 <= i < n ==> a[i].key != key && a[i].key != "include"
    ensures First(a, key, true, host, matches) == if a[n].key == "include" then Elsewhere else Value(a[n].value)
  {
    if n > 0 {
      ActiveGivesFirst(a[1..], key, n - 1, host, matches);
    }
  }

  lemma {:induction false} ActiveForwards(a: seq<Line>, n: nat, host: string, matches: string -> bool)
    requires forall i :: 0 <= i < |a| ==> !IsBlockStart(a[i])
    requires n < |a| && a[n].key == "remoteforward"
    ensures a[n].value in Forwards(a, true, host, matches)
  {
    if n > 0 {
      ActiveForwards(a[1..], n - 1, host, matches);
    }
  }

  // ---------- one block of the file ----------

  /** `lines` are `pre`, the Host line `head`, the lines `body` of its block, and `post`. */
  ghost predicate Cut(lines: seq<Line>, pre: seq<Line>, head: Line, body: seq<Line>, post: seq<Line>) {
    && lines == pre + ([head] + (body + post))
    && head.key == "host" && (forall i :: 0 <= i < |body| ==> !IsBlockStart(body[i]))
    && (post != [] ==> IsBlockStart(post[0]))
  }

  predicate Obtainable(key: string) {
    key != "" && key != "host" && key != "match" && key != "include"
  }

  lemma HeadGivesNothing(head: Line, rest: seq<Line>, key: string, active: bool, host: string, matches: string -> bool)
    requires head.key == "host" && Obtainable(key)
    ensures First([head] + rest, key, active, host, matches)
            == First(rest, key, HostMatches(Fields(head.value), host), host, matches)
    ensures Forwards([head] + rest, active, host, matches)
            == Forwards(rest, HostMatches(Fields(head.value), host), host, matches)
  {
    assert ([head] + rest)[1..] == rest;
  }

  /** Whether the lines before a block start were active does not matter. */
  lemma FreshStart(post: seq<Line>, key: string, a: bool, b: bool, host: string, matches: string -> bool)
    requires Obtainable(key) && (post != [] ==> IsBlockStart(post[0]))
    ensures First(post, key, a, host, matches) == First(post, key, b, host, matches)
    ensures Forwards(post, a, host, matches) == Forwards(post, b, host, matches)
  {
  }

  /** A block whose Host line does not match the host might as well not be there. */
  lemma DeadBlock(lines: seq<Line>, pre: seq<Line>, head: Line, body: seq<Line>, post: seq<Line>, key: string, host: string, matches: string -> bool)
    requires Cut(lines, pre, head, body, post) && Obtainable(key) && !HostMatches(Fields(head.value), host)
    ensures First(lines, key, true, host, matches) == First(pre + post, key, true, host, matches)
    ensures Forwards(lines, true, host, matches) == Forwards(pre + post, true, host, matches)
  {
    var after := ActiveAfterAll(pre, true, host, matches);
    FirstAppend(pre, [head] + (body + post), key, true, host, matches);
    ForwardsAppend(pre, [head] + (body + post), true, host, matches);
    FirstAppend(pre, post, key, true, host, matches);
    ForwardsAppend(pre, post, true, host, matches);
    HeadGivesNothing(head, body + post, key, after, host, matches);
    FirstAppend(body, post, key, false, host, matches);
    ForwardsAppend(body, post, false, host, matches);
    InactiveGivesNothing(body, key, host, matches);
    StaysActive(body, false, host, matches);
    FreshStart(post, key, after, false, host, matches);
  }

  /** What a matching block gives when nothing above it does. */
  lemma LiveBlock(lines: seq<Line>, pre: seq<Line>, head: Line, body: seq<Line>, post: seq<Line>, key: string, n: nat, host: string, matches: string -> bool)
    requires Cut(lines, pre, head, body, post) && Obtainable(key) && HostMatches(Fields(head.value), host)
    requires forall i :: 0 <= i < |pre| ==> pre[i].key != key && pre[i].key != "include"
    requires n < |body| && (body[n].key == key || body[n].key == "include")
    requires forall i :: 0 <= i < n ==> body[i].key != key && body[i].key != "include"
    ensures First(lines, key, true, host, matches) == if body[n].key == "include" then Elsewhere else Value(body[n].value)
  {
    var after := ActiveAfterAll(pre, true, host, matches);
    FirstAppend(pre, [head] + (body + post), key, true, host, matches);
    NothingThere(pre, key, true, host, matches);
    HeadGivesNothing(head, body + post, key, after, host, matches);
    FirstAppend(body, post, key, true, host, matches);
    ActiveGivesFirst(body, key, n, host, matches);
  }

  lemma LiveForwards(lines: seq<Line>, pre: seq<Line>, head: Line, body: seq<Line>, post: seq<Line>, n: nat, host: string, matches: string -> bool)
    requires Cut(lines, pre, head, body, post) && HostMatches(Fields(head.value), host)
    requires n < |body| && body[n].key == "remoteforward"
    ensures body[n].value in Forwards(lines, true, host, matches)
  {
    var after := ActiveAfterAll(pre, true, host, matches);
    ForwardsAppend(pre, [head] + (body + post), true, host, matches);
    HeadGivesNothing(head, body + post, "remoteforward", after, host, matches);
    ForwardsAppend(body, post, true, host, matches);
    ActiveForwards(body, n, host, matches);
  }

  // ---------- a settled block takes effect ----------

  /** The host obtains a value that will do. */
  ghost predicate Obtains(lines: seq<Line>, r: Required, host: string, matches: string -> bool) {
    var x := First(lines, r.key, true, host, matches);
    x.Value? && r.fits(x.value)
  }

  /** OpenSSH connects the host as the plan asks, whatever the criteria of Match lines say. */
  ghost predicate Effective(lines: seq<Line>, host: string, plan: Plan, matches: string -> bool) {
    && Obtains(lines, plan.master, host, matches) && Obtains(lines, plan.path, host, matches)
    && exists v :: v in Forwards(lines, true, host, matches) && plan.wanted(v)
  }

  /** Nothing above the block can win, which is when no warning is given. */
  ghost predicate ClearAbove(lines: seq<Line>, cutoff: nat, plan: Plan)
    requires cutoff <= |lines|
  {
    !IncludeAbove(lines, cutoff) && !ConflictAbove(lines, cutoff, plan)
  }

  lemma CutBlock(lines: seq<Line>, host: string, s: nat, e: nat)
    requires IsBlock(lines, host, s, e)
    ensures Cut(lines, lines[..s], lines[s], lines[s + 1..e], lines[e..])
  {
    assert lines == lines[..s] + ([lines[s]] + (lines[s + 1..e] + lines[e..]));
  }

  /** Does `r` stand in the block before any Include? */
  predicate Leads(lines: seq<Line>, s: nat, e: nat, r: Required)
    requires s < e <= |lines|
  {
    FirstAt(lines, s + 1, e, r.key) < FirstAt(lines, s + 1, e, "include")
  }

  lemma SatisfiedObtains(lines: seq<Line>, host: string, s: nat, e: nat, r: Required, matches: string -> bool)
    requires IsBlock(lines, host, s, e) && HostMatches(Fields(lines[s].value), host)
    requires Satisfied(lines, s, e, r) && Obtainable(r.key)
    requires forall i :: 0 <= i < s ==> lines[i].key != r.key && lines[i].key != "include"
    ensures Obtains(lines, r, host, matches) <==> Leads(lines, s, e, r)
  {
    CutBlock(lines, host, s, e);
    var at, stop := FirstAt(lines, s + 1, e, r.key), FirstAt(lines, s + 1, e, "include");
    var first := if at < stop then at else stop;
    assert lines[s + 1..e][first - s - 1] == lines[first];
    LiveBlock(lines, lines[..s], lines[s], lines[s + 1..e], lines[e..], r.key, first - s - 1, host, matches);
  }

  lemma ForwardObtained(lines: seq<Line>, host: string, s: nat, e: nat, wanted: string -> bool, matches: string -> bool)
    requires IsBlock(lines, host, s, e) && HostMatches(Fields(lines[s].value), host) && HasForward(lines, s, e, wanted)
    ensures exists v :: v in Forwards(lines, true, host, matches) && wanted(v)
  {
    CutBlock(lines, host, s, e);
    var i: nat :| s < i < e && ForwardAt(lines, i, wanted);
    assert lines[s + 1..e][i - s - 1] == lines[i];
    LiveForwards(lines, lines[..s], lines[s], lines[s + 1..e], lines[e..], i - s - 1, host, matches);
  }

  /**
   With nothing above that can win and a Host line that matches, a settled block takes effect exactly
   when no Include stands in it before ControlMaster or ControlPath.
   */
  lemma SettledTakesEffect(lines: seq<Line>, host: string, s: nat, e: nat, plan: Plan, matches: string -> bool)
    requires IsBlock(lines, host, s, e) && Missing(lines, s, e, plan) == 0 && ValidPlan(plan)
    requires ClearAbove(lines, s, plan) && HostMatches(Fields(lines[s].value), host)
    ensures Effective(lines, host, plan, matches) <==> Leads(lines, s, e, plan.master) && Leads(lines, s, e, plan.path)
  {
    SatisfiedObtains(lines, host, s, e, plan.master, matches);
    SatisfiedObtains(lines, host, s, e, plan.path, matches);
    ForwardObtained(lines, host, s, e, plan.wanted, matches);
  }

  // ---------- the edit takes effect ----------

  /** No Include stands in the block before `r`, or where `r` will be added. */
  predicate Unhidden(lines: seq<Line>, s: nat, e: nat, r: Required)
    requires s < e <= |lines|
  {
    FirstAt(lines, s + 1, e, "include") == e || Leads(lines, s, e, r)
  }

  lemma ExtrasIncludeNothing(lines: seq<Line>, start: nat, end: nat, plan: Plan)
    requires start < end <= |lines| && ValidPlan(plan)
    ensures forall i :: 0 <= i < |Extras(lines, start, end, plan)| ==> Extras(lines, start, end, plan)[i].key != "include"
  {
    ExtraReads(lines, start, end, plan.master);
    ExtraReads(lines, start, end, plan.path);
  }

  lemma StillMissing(grown: seq<Line>, base: seq<Line>, start: nat, end: nat, end': nat, p: nat, added: seq<Line>, key: string)
    requires end' == end + |added|
    requires start < p <= end <= |base| && Grown(grown, base, p, added)
    requires FirstAt(base, start + 1, end, key) == end && forall i :: 0 <= i < |added| ==> added[i].key != key
    ensures FirstAt(grown, start + 1, end', key) == end'
  {
    FirstAtIs(grown, start + 1, end', key, end');
  }

  /** An Include of the block is where it was, and the directive is before it if it was or if there is none. */
  lemma GrownLeads(grown: seq<Line>, base: seq<Line>, start: nat, end: nat, end': nat, added: seq<Line>, r: Required)
    requires end' == end + |added|
    requires start < end <= |base| && BlanksAreEmpty(base) && r.key != "" && r.key != "include"
    requires Grown(grown, base, InsertPos(base, start, end), added)
    requires forall i :: 0 <= i < |added| ==> added[i].key != "include"
    requires Satisfied(grown, start, end', r)
    ensures Leads(grown, start, end', r) <==> Unhidden(base, start, end, r)
  {
    var p, stop, at := InsertPos(base, start, end), FirstAt(base, start + 1, end, "include"), FirstAt(base, start + 1, end, r.key);
    if stop == end {
      StillMissing(grown, base, start, end, end', p, added, "include");
    } else {
      FoundInGrown(grown, base, start, end, end', added, "include");
      if at < end {
        FoundInGrown(grown, base, start, end, end', added, r.key);
      } else {
        var at' := FirstAt(grown, start + 1, end', r.key);
        assert forall i :: start < i < p ==> grown[i] == base[i];
        assert at' >= p;
      }
    }
  }

  /** The lines up to the insertion keep their keywords. */
  lemma AboveKeeps(edited: seq<Line>, lines: seq<Line>, s: nat, e: nat, p: nat, plan: Plan, added: seq<Line>)
    requires Edited(edited, lines, s, e, p, plan, added) && lines[s].key == "host"
    ensures s < |edited| && edited[s] == lines[s]
    ensures ClearAbove(edited, s, plan) <==> ClearAbove(lines, s, plan)
  {
    RewrittenKeeps(lines, s, e, plan);
    AssembledGrows(Rewritten(lines, s, e, plan), p, added);
    assert forall i :: 0 <= i <= s ==> edited[i].key == lines[i].key;
  }

  lemma EditedLeads(edited: seq<Line>, lines: seq<Line>, s: nat, e: nat, e': nat, p: nat, plan: Plan, added: seq<Line>, r: Required)
    requires e' == e + |added|
    requires Edited(edited, lines, s, e, p, plan, added) && (r == plan.master || r == plan.path)
    ensures e' <= |edited|
    ensures Leads(edited, s, e', r) <==> Unhidden(lines, s, e, r)
  {
    var fixed := Rewritten(lines, s, e, plan);
    EditedSatisfies(edited, lines, s, e, e', p, plan, added, r);
    InsertPosAt(lines, s, e, p);
    RewrittenReady(lines, s, e, plan, r);
    RewrittenKeeps(lines, s, e, plan);
    ShapeDecides(fixed, lines, s, e, "include");
    ExtrasIncludeNothing(lines, s, e, plan);
    AssembledGrows(fixed, p, added);
    GrownLeads(edited, fixed, s, e, e', added, r);
  }

  lemma EditedTakesEffect(edited: seq<Line>, lines: seq<Line>, host: string, s: nat, e: nat, e': nat, p: nat, plan: Plan, added: seq<Line>, matches: string -> bool)
    requires e' == e + |added|
    requires IsBlock(lines, host, s, e) && Edited(edited, lines, s, e, p, plan, added)
    requires ClearAbove(lines, s, plan) && HostMatches(Fields(lines[s].value), host)
    ensures Effective(edited, host, plan, matches) <==> Unhidden(lines, s, e, plan.master) && Unhidden(lines, s, e, plan.path)
  {
    EditedIsBlock(edited, lines, host, s, e, e', p, plan, added);
    EditedLacksNothing(edited, lines, s, e, e', p, plan, added);
    AboveKeeps(edited, lines, s, e, p, plan, added);
    EditedLeads(edited, lines, s, e, e', p, plan, added, plan.master);
    EditedLeads(edited, lines, s, e, e', p, plan, added, plan.path);
    SettledTakesEffect(edited, host, s, e', plan, matches);
  }

  lemma ResultIsEdited(result: seq<Line>, lines: seq<Line>, host: string, s: nat, e: nat, p: nat, plan: Plan, added: seq<Line>)
    requires EditOf(result, lines, host, plan) && BlanksAreEmpty(lines) && ValidPlan(plan) && IsBlock(lines, host, s, e)
    requires p == InsertPos(lines, s, e) && added == Extras(lines, s, e, plan)
    ensures Edited(result, lines, s, e, p, plan, added)
  {
    ResultIs(result, lines, host, s, e, plan);
  }

  /**
   The edit of a block whose Host line matches, given without a warning, takes effect exactly when no
   Include stands in the block before ControlMaster and ControlPath or where they will be added.
   */
  lemma EditTakesEffect(result: seq<Line>, lines: seq<Line>, host: string, s: nat, e: nat, plan: Plan, matches: string -> bool)
    requires EditOf(result, lines, host, plan) && BlanksAreEmpty(lines) && ValidPlan(plan)
    requires IsBlock(lines, host, s, e) && ClearAbove(lines, s, plan) && HostMatches(Fields(lines[s].value), host)
    ensures Effective(result, host, plan, matches) <==> Unhidden(lines, s, e, plan.master) && Unhidden(lines, s, e, plan.path)
  {
    var p, added := InsertPos(lines, s, e), Extras(lines, s, e, plan);
    ResultIsEdited(result, lines, host, s, e, p, plan, added);
    EditedTakesEffect(result, lines, host, s, e, e + |added|, p, plan, added, matches);
  }

  /** The edit of a block whose Host line does not match changes nothing the host obtains. */
  lemma EditIsLost(result: seq<Line>, lines: seq<Line>, host: string, s: nat, e: nat, plan: Plan, key: string, matches: string -> bool)
    requires EditOf(result, lines, host, plan) && BlanksAreEmpty(lines) && ValidPlan(plan)
    requires IsBlock(lines, host, s, e) && !HostMatches(Fields(lines[s].value), host) && Obtainable(key)
    ensures First(result, key, true, host, matches) == First(lines, key, true, host, matches)
    ensures Forwards(result, true, host, matches) == Forwards(lines, true, host, matches)
  {
    var p, added := InsertPos(lines, s, e), Extras(lines, s, e, plan);
    ResultIsEdited(result, lines, host, s, e, p, plan, added);
    EditedIsLost(result, lines, host, s, e, e + |added|, p, plan, added, key, matches);
  }

  /** So the host gets what is required after such an edit exactly when it did before. */
  lemma LostEditIsNoEffect(result: seq<Line>, lines: seq<Line>, host: string, s: nat, e: nat, plan: Plan, matches: string -> bool)
    requires EditOf(result, lines, host, plan) && BlanksAreEmpty(lines) && ValidPlan(plan)
    requires IsBlock(lines, host, s, e) && !HostMatches(Fields(lines[s].value), host)
    ensures Effective(result, host, plan, matches) <==> Effective(lines, host, plan, matches)
  {
    EditIsLost(result, lines, host, s, e, plan, plan.master.key, matches);
    EditIsLost(result, lines, host, s, e, plan, plan.path.key, matches);
  }

  lemma EditedOutside(edited: seq<Line>, lines: seq<Line>, s: nat, e: nat, p: nat, plan: Plan, added: seq<Line>)
    requires Edited(edited, lines, s, e, p, plan, added)
    ensures |edited| == |lines| + |added| && edited[..s + 1] == lines[..s + 1] && edited[e + |added|..] == lines[e..]
  {
    FixedInside(lines, s, e, plan.master);
    FixedInside(Fixed(lines, s, e, plan.master), s, e, plan.path);
    AssembledInside(Rewritten(lines, s, e, plan), lines, s, e, p, added);
  }

  /** Nothing before the block's second line or behind its last changes. */
  ghost predicate SameAround(a: seq<Line>, b: seq<Line>, s: nat, e: nat) {
    |a| == |b| && forall i :: 0 <= i < |a| && (i <= s || e <= i) ==> a[i] == b[i]
  }

  lemma FixedInside(lines: seq<Line>, s: nat, e: nat, r: Required)
    requires s < e <= |lines|
    ensures SameAround(Fixed(lines, s, e, r), lines, s, e)
  {
  }

  lemma AssembledInside(fixed: seq<Line>, lines: seq<Line>, s: nat, e: nat, p: nat, added: seq<Line>)
    requires s < p <= e <= |lines| && SameAround(fixed, lines, s, e)
    ensures var edited := Assembled(fixed, p, added);
      |edited| == |lines| + |added| && edited[..s + 1] == lines[..s + 1] && edited[e + |added|..] == lines[e..]
  {
    AssembledGrows(fixed, p, added);
  }

  /** Two files that differ only inside a block that does not match give the host the same. */
  lemma SameOutside(a: seq<Line>, b: seq<Line>, host: string, s: nat, ea: nat, eb: nat, key: string, matches: string -> bool)
    requires IsBlock(a, host, s, ea) && IsBlock(b, host, s, eb) && a[..s + 1] == b[..s + 1] && a[ea..] == b[eb..]
    requires !HostMatches(Fields(a[s].value), host) && Obtainable(key)
    ensures First(a, key, true, host, matches) == First(b, key, true, host, matches)
    ensures Forwards(a, true, host, matches) == Forwards(b, true, host, matches)
  {
    assert a[s] == a[..s + 1][s] == b[..s + 1][s] == b[s];
    assert a[..s] == a[..s + 1][..s] == b[..s + 1][..s] == b[..s];
    CutBlock(a, host, s, ea);
    CutBlock(b, host, s, eb);
    DeadBlock(a, a[..s], a[s], a[s + 1..ea], a[ea..], key, host, matches);
    DeadBlock(b, b[..s], b[s], b[s + 1..eb], b[eb..], key, host, matches);
  }

  lemma EditedIsLost(edited: seq<Line>, lines: seq<Line>, host: string, s: nat, e: nat, e': nat, p: nat, plan: Plan, added: seq<Line>, key: string, matches: string -> bool)
    requires e' == e + |added|
    requires IsBlock(lines, host, s, e) && Edited(edited, lines, s, e, p, plan, added)
    requires !HostMatches(Fields(lines[s].value), host) && Obtainable(key)
    ensures First(edited, key, true, host, matches) == First(lines, key, true, host, matches)
    ensures Forwards(edited, true, host, matches) == Forwards(lines, true, host, matches)
  {
    EditedIsBlock(edited, lines, host, s, e, e', p, plan, added);
    EditedOutside(edited, lines, s, e, p, plan, added);
    SameOutside(lines, edited, host, s, e, e', key, matches);
  }

  /** The Host line of a named host matches it unless one of its patterns negates it. */
  lemma NamedHostMatches(line: Line, host: string)
    requires NamesHost(line, host) && host != "" && host[0] != '!'
    ensures HostMatches(Fields(line.value), host) <==> forall p :: p in Fields(line.value) ==> !Negates(p, host)
  {
    GlobSelf(host);
    assert Accepts(host, host);
  }

  // ---------- a new block ----------

  lemma {:induction false} TrimRightKeeps(key: string, tail: string)
    requires key != "" && NoSpaces(key)
    ensures TrimRight(key + tail) == key + TrimRight(tail)
    decreases |tail|
  {
    if tail == [] {
      assert key + tail == key;
    } else {
      assert (key + tail)[|key + tail| - 1] == tail[|tail| - 1];
      if IsSpace(tail[|tail| - 1]) {
        assert (key + tail)[..|key + tail| - 1] == key + tail[..|tail| - 1];
        TrimRightKeeps(key, tail[..|tail| - 1]);
      }
    }
  }

  lemma {:induction false} TrimRightIsPrefix(s: string)
    ensures TrimRight(s) <= s
  {
    if s != [] && IsSpace(s[|s| - 1]) {
      TrimRightIsPrefix(s[..|s| - 1]);
    }
  }

  lemma KeyIsRead(text: string, key: string, tail: string)
    requires key != "" && NoSpaces(key) && key[0] != '#' && forall i :: 0 <= i < |key| ==> key[i] !in SEPARATORS
    requires tail != "" && tail[0] == ' ' && text == key + tail
    ensures Parse(text).key == key
  {
    TrimRightKeeps(key, tail);
    TrimRightIsPrefix(tail);
    var rest := TrimRight(tail);
    assert text[0] == key[0];
    var t := TrimSpace(text);
    assert t == key + rest && t[0] == key[0];
    assert forall i :: 0 <= i < |key| ==> t[i] == key[i];
    if rest == [] {
      assert t == key;
    } else {
      assert t[|key|] == ' ' && t[..|key|] == key;
    }
  }

  /** Whatever the host, the line written for it is a Host line. */
  lemma HostLineOpens(host: string)
    ensures Write("", "Host", host).key == "host"
  {
    assert "" + ("Host" + (" " + host)) == "Host" + (" " + host);
    KeyIsRead("Host" + (" " + host), "Host", " " + host);
    assert ToLower("Host") == "host";
  }

  /** The lines of a new block below its Host line. */
  function NewBody(plan: Plan): seq<Line> {
    [plan.forward, plan.master.write("    "), plan.path.write("    "), Read("")]
  }

  /** A block of its own at the place of the insertion, and what is read before it. */
  ghost predicate Placed(result: seq<Line>, pre: seq<Line>, head: Line, plan: Plan, post: seq<Line>, lines: seq<Line>) {
    && Cut(result, pre, head, NewBody(plan), post)
    && (pre + post == lines || (post == [] && pre == lines + [Read("")]))
  }

  lemma InsertedIsCut(result: seq<Line>, pre: seq<Line>, post: seq<Line>, head: Line, plan: Plan)
    requires Inserted(result, pre, post, head, plan) && ValidPlan(plan) && head.key == "host" && (post != [] ==> IsBlockStart(post[0]))
    ensures Cut(result, pre, head, NewBody(plan), post)
  {
    LinesRead(plan);
    var block := [head, plan.forward, plan.master.write("    "), plan.path.write("    "), Read("")];
    assert block == [head] + NewBody(plan);
    assert pre + ([head] + NewBody(plan)) + post == pre + ([head] + (NewBody(plan) + post));
  }

  lemma NewBlockPlaced(result: seq<Line>, lines: seq<Line>, host: string, plan: Plan) returns (pre: seq<Line>, post: seq<Line>)
    requires !HasBlock(lines, host) && EditOf(result, lines, host, plan) && ValidPlan(plan)
    ensures Placed(result, pre, Write("", "Host", host), plan, post, lines)
    ensures ClearAbove(lines, NewBlockPos(lines), plan) ==> ClearAbove(pre, |pre|, plan)
  {
    pre, post := NewBlockInserts(result, lines, host, plan);
    HostLineOpens(host);
    InsertedIsCut(result, pre, post, Write("", "Host", host), plan);
    assert lines[..NewBlockPos(lines)] + lines[NewBlockPos(lines)..] == lines;
    assert Read("").key == "";
  }

  /** A new block whose Host line matches comes first when nothing above it can win. */
  lemma PlacedTakesEffect(result: seq<Line>, pre: seq<Line>, head: Line, plan: Plan, post: seq<Line>, lines: seq<Line>, host: string, matches: string -> bool)
    requires Placed(result, pre, head, plan, post, lines) && ClearAbove(pre, |pre|, plan) && ValidPlan(plan)
    requires HostMatches(Fields(head.value), host)
    ensures Effective(result, host, plan, matches)
  {
    LinesRead(plan);
    var body := NewBody(plan);
    LiveBlock(result, pre, head, body, post, plan.master.key, 1, host, matches);
    LiveBlock(result, pre, head, body, post, plan.path.key, 2, host, matches);
    LiveForwards(result, pre, head, body, post, 0, host, matches);
  }

  lemma BlankAtEnd(lines: seq<Line>, key: string, host: string, matches: string -> bool)
    requires Obtainable(key)
    ensures First(lines + [Read("")], key, true, host, matches) == First(lines, key, true, host, matches)
    ensures Forwards(lines + [Read("")], true, host, matches) == Forwards(lines, true, host, matches)
  {
    var last := [Read("")];
    assert last[0].key == "" && last[1..] == [];
    FirstAppend(lines, last, key, true, host, matches);
    ForwardsAppend(lines, last, true, host, matches);
    var active := ActiveAfterAll(lines, true, host, matches);
    assert First(last, key, active, host, matches) == Unset && Forwards(last, active, host, matches) == [];
  }

  /** A new block whose Host line does not match changes nothing the host obtains. */
  lemma PlacedIsLost(result: seq<Line>, pre: seq<Line>, head: Line, plan: Plan, post: seq<Line>, lines: seq<Line>, key: string, host: string, matches: string -> bool)
    requires Placed(result, pre, head, plan, post, lines) && !HostMatches(Fields(head.value), host) && Obtainable(key)
    ensures First(result, key, true, host, matches) == First(lines, key, true, host, matches)
    ensures Forwards(result, true, host, matches) == Forwards(lines, true, host, matches)
  {
    DeadBlock(result, pre, head, NewBody(plan), post, key, host, matches);
    if pre + post != lines {
      assert pre + post == lines + [Read("")];
      BlankAtEnd(lines, key, host, matches);
    }
  }

  /**
   A new block, put in without a warning, takes effect when the Host line written for the host matches it,
   which it does for a plain name; otherwise the host gets what it got before.
   */
  lemma NewBlockTakesEffect(result: seq<Line>, lines: seq<Line>, host: string, plan: Plan, matches: string -> bool)
    requires !HasBlock(lines, host) && EditOf(result, lines, host, plan) && ValidPlan(plan)
    requires ClearAbove(lines, NewBlockPos(lines), plan)
    ensures Effective(result, host, plan, matches) <==>
      HostMatches(Fields(Write("", "Host", host).value), host) || Effective(lines, host, plan, matches)
  {
    var head := Write("", "Host", host);
    var pre, post := NewBlockPlaced(result, lines, host, plan);
    if HostMatches(Fields(head.value), host) {
      PlacedTakesEffect(result, pre, head, plan, post, lines, host, matches);
    } else {
      PlacedIsLost(result, pre, head, plan, post, lines, plan.master.key, host, matches);
      PlacedIsLost(result, pre, head, plan, post, lines, plan.path.key, host, matches);
    }
  }

  /** A plain name matches its own Host line exactly when it does not begin with an exclamation mark. */
  lemma PlainMatches(host: string)
    requires Plain(host)
    ensures HostMatches(Fields(Write("", "Host", host).value), host) <==> host[0] != '!'
  {
    HostLineNames(host);
    var line := Write("", "Host", host);
    if host[0] != '!' {
      NamedHostMatches(line, host);
      assert forall p :: p in Fields(line.value) ==> p == host;
    }
  }

  // ---------- every edit ----------

  /** The Host line of the block, found or new, matches the host. */
  ghost predicate Reaches(lines: seq<Line>, host: string) {
    if HasBlock(lines, host) then exists s: nat, e: nat :: IsBlock(lines, host, s, e) && HostMatches(Fields(lines[s].value), host)
    else HostMatches(Fields(Write("", "Host", host).value), host)
  }

  /** No Include of the block is read before the two directives. */
  ghost predicate InView(lines: seq<Line>, host: string, plan: Plan) {
    HasBlock(lines, host) ==>
      exists s: nat, e: nat :: IsBlock(lines, host, s, e) && Unhidden(lines, s, e, plan.master) && Unhidden(lines, s, e, plan.path)
  }

  /** When an edit given without a warning is effective. */
  lemma EditIsEffective(result: seq<Line>, lines: seq<Line>, host: string, cutoff: nat, plan: Plan, matches: string -> bool)
    requires EditOf(result, lines, host, plan) && BlanksAreEmpty(lines) && ValidPlan(plan)
    requires IsCutoff(lines, host, cutoff) && ClearAbove(lines, cutoff, plan)
    ensures Effective(result, host, plan, matches) <==>
      if Reaches(lines, host) then InView(lines, host, plan) else Effective(lines, host, plan, matches)
  {
    if HasBlock(lines, host) {
      var e: nat :| IsBlock(lines, host, cutoff, e);
      OnlyBlock(lines, host, cutoff, e, plan);
      if HostMatches(Fields(lines[cutoff].value), host) {
        EditTakesEffect(result, lines, host, cutoff, e, plan, matches);
      } else {
        LostEditIsNoEffect(result, lines, host, cutoff, e, plan, matches);
      }
    } else {
      NewBlockTakesEffect(result, lines, host, plan, matches);
    }
  }

  lemma OnlyBlock(lines: seq<Line>, host: string, s: nat, e: nat, plan: Plan)
    requires IsBlock(lines, host, s, e)
    ensures HasBlock(lines, host) && (Reaches(lines, host) <==> HostMatches(Fields(lines[s].value), host))
    ensures InView(lines, host, plan) <==> Unhidden(lines, s, e, plan.master) && Unhidden(lines, s, e, plan.path)
  {
    forall s2: nat, e2: nat | IsBlock(lines, host, s2, e2) ensures s2 == s && e2 == e {
      BlockUnique(lines, host, s, e, s2, e2);
    }
  }

  /** The same for the file a run leaves, as it is read back. */
  lemma RunIsEffective(text: string, after: string, host: string, cutoff: nat, plan: Plan, matches: string -> bool)
    requires RunOf(after, text, host, plan) && ValidPlan(plan) && PrintablePlan(plan)
    requires HasBlock(LinesOf(text), host) || OneLine(host)
    requires IsCutoff(LinesOf(text), host, cutoff) && ClearAbove(LinesOf(text), cutoff, plan)
    ensures Effective(LinesOf(after), host, plan, matches) <==>
      if Reaches(LinesOf(text), host) then InView(LinesOf(text), host, plan) else Effective(LinesOf(text), host, plan, matches)
  {
    var lines := LinesOf(text);
    FileIsPrintable(text);
    BlankIsEmpty(lines);
    if Settled(lines, host, plan) {
      var s: nat, e: nat :| IsBlock(lines, host, s, e) && Missing(lines, s, e, plan) == 0;
      NothingMissing(lines, s, e, plan);
      EditIsEffective(lines, lines, host, cutoff, plan, matches);
    } else {
      var result :| EditOf(result, lines, host, plan) && after == JoinLines(Texts(result));
      EditIsPrintable(result, lines, host, plan);
      var p, added := EditKeepsTheRest(result, lines, host, plan);
      ReadBack(result);
      EditIsEffective(result, lines, host, cutoff, plan, matches);
    }
  }

  // ---------- what the user gets ----------

  /** OpenSSH obtains this value for the keyword, but for its case and blanks. */
  ghost predicate Gets(lines: seq<Line>, key: string, value: string, host: string, matches: string -> bool) {
    var x := First(lines, key, true, host, matches);
    x.Value? && Normalized(x.value) == value
  }

  /** ControlMaster no, ControlPath none, and a forward of the port to itself over the loopback. */
  ghost predicate Connects(lines: seq<Line>, host: string, port: nat, isLoopbackIP: string -> bool, matches: string -> bool) {
    && Gets(lines, "controlmaster", "no", host, matches)
    && Gets(lines, "controlpath", "none", host, matches)
    && exists v :: v in Forwards(lines, true, host, matches) && ForwardMatches(v, port, isLoopbackIP)
  }

  lemma NormalizedWords()
    ensures Normalized("no") == "no" && Normalized("none") == "none"
  {
    FieldsOfOne("no");
    FieldsOfOne("none");
    assert JoinSpace(["no"]) == "no" && JoinSpace(["none"]) == "none";
  }

  lemma EffectiveConnects(lines: seq<Line>, host: string, port: nat, isLoopbackIP: string -> bool, matches: string -> bool)
    ensures Effective(lines, host, PlanFor(port, isLoopbackIP), matches) <==> Connects(lines, host, port, isLoopbackIP, matches)
  {
    NormalizedWords();
    PlanKeys();
    var plan := PlanFor(port, isLoopbackIP);
    assert plan.master.key == "controlmaster" && plan.path.key == "controlpath";
    ObtainsGets(lines, "ControlMaster", "no", host, matches);
    ObtainsGets(lines, "ControlPath", "none", host, matches);
  }

  lemma ObtainsGets(lines: seq<Line>, name: string, value: string, host: string, matches: string -> bool)
    requires Normalized(value) == value
    ensures Obtains(lines, Require(name, value), host, matches) <==> Gets(lines, ToLower(name), value, host, matches)
  {
  }

  /**
   What a run without a warning is good for. When the Host line of the block matches the host and no Include
   of the block is read before them, the file it leaves gives the host ControlMaster no, ControlPath none
   and the loopback forward of the port, whatever the criteria of Match lines say; with such an Include it
   does not; and if the Host line does not match, the file gives what it gave before.
   */
  lemma RunConnects(text: string, after: string, changes: seq<Change>, destination: string, port: nat,
                    isLoopbackIP: string -> bool, matches: string -> bool)
    requires isLoopbackIP("127.0.0.1") && Ran(text, after, changes, destination, port, isLoopbackIP)
    requires forall c :: c in changes ==> !c.Warning?
    requires HasBlock(LinesOf(text), HostPattern(destination)) || OneLine(destination)
    ensures var lines, host := LinesOf(text), HostPattern(destination);
      Connects(LinesOf(after), host, port, isLoopbackIP, matches) <==>
      if Reaches(lines, host) then InView(lines, host, PlanFor(port, isLoopbackIP))
      else Connects(lines, host, port, isLoopbackIP, matches)
  {
    var host := HostPattern(destination);
    if OneLine(destination) {
      PatternIsOneLine(destination);
    }
    HostConnects(text, after, changes, host, port, isLoopbackIP, matches);
  }

  /** In particular: a plain name, no Include in its block and no pattern that negates it. */
  lemma UnhinderedRunConnects(text: string, after: string, changes: seq<Change>, destination: string, port: nat,
                              isLoopbackIP: string -> bool, matches: string -> bool)
    requires isLoopbackIP("127.0.0.1") && Ran(text, after, changes, destination, port, isLoopbackIP)
    requires forall c :: c in changes ==> !c.Warning?
    requires OneLine(destination) && Plain(HostPattern(destination)) && HostPattern(destination)[0] != '!'
    requires forall s: nat, e: nat :: IsBlock(LinesOf(text), HostPattern(destination), s, e) ==> Unhindered(LinesOf(text), HostPattern(destination), s, e)
    ensures Connects(LinesOf(after), HostPattern(destination), port, isLoopbackIP, matches)
  {
    var lines, host := LinesOf(text), HostPattern(destination);
    RunConnects(text, after, changes, destination, port, isLoopbackIP, matches);
    var cutoff: nat :| IsReport(changes, lines, host, PlanFor(port, isLoopbackIP), cutoff);
    UnhinderedReaches(lines, host, PlanFor(port, isLoopbackIP), cutoff);
  }

  ghost predicate Unhindered(lines: seq<Line>, host: string, s: nat, e: nat)
    requires s < e <= |lines|
  {
    (forall i :: s < i < e ==> lines[i].key != "include") && forall p :: p in Fields(lines[s].value) ==> !Negates(p, host)
  }

  lemma UnhinderedReaches(lines: seq<Line>, host: string, plan: Plan, cutoff: nat)
    requires Plain(host) && host[0] != '!' && IsCutoff(lines, host, cutoff)
    requires forall s: nat, e: nat :: IsBlock(lines, host, s, e) ==> Unhindered(lines, host, s, e)
    ensures Reaches(lines, host) && InView(lines, host, plan)
  {
    if HasBlock(lines, host) {
      var e: nat :| IsBlock(lines, host, cutoff, e);
      OnlyBlock(lines, host, cutoff, e, plan);
      assert Unhindered(lines, host, cutoff, e);
      NamedHostMatches(lines[cutoff], host);
      FirstAtIs(lines, cutoff + 1, e, "include", e);
    } else {
      PlainMatches(host);
    }
  }

  lemma PatternIsOneLine(destination: string)
    requires OneLine(destination)
    ensures OneLine(HostPattern(destination))
  {
  }

  lemma HostConnects(text: string, after: string, changes: seq<Change>, host: string, port: nat,
                     isLoopbackIP: string -> bool, matches: string -> bool)
    requires isLoopbackIP("127.0.0.1") && RunOf(after, text, host, PlanFor(port, isLoopbackIP))
    requires exists cutoff: nat :: IsReport(changes, LinesOf(text), host, PlanFor(port, isLoopbackIP), cutoff)
    requires (forall c :: c in changes ==> !c.Warning?) && (HasBlock(LinesOf(text), host) || OneLine(host))
    ensures var lines := LinesOf(text);
      Connects(LinesOf(after), host, port, isLoopbackIP, matches) <==>
      if Reaches(lines, host) then InView(lines, host, PlanFor(port, isLoopbackIP))
      else Connects(lines, host, port, isLoopbackIP, matches)
  {
    var plan := PlanFor(port, isLoopbackIP);
    var cutoff: nat :| IsReport(changes, LinesOf(text), host, plan, cutoff);
    PlanIsValid(port, isLoopbackIP);
    PlanIsPrintable(port, isLoopbackIP);
    QuietRun(text, after, changes, host, cutoff, plan, matches);
    EffectiveConnects(LinesOf(text), host, port, isLoopbackIP, matches);
    EffectiveConnects(LinesOf(after), host, port, isLoopbackIP, matches);
  }

  lemma QuietRun(text: string, after: string, changes: seq<Change>, host: string, cutoff: nat, plan: Plan, matches: string -> bool)
    requires RunOf(after, text, host, plan) && ValidPlan(plan) && PrintablePlan(plan)
    requires IsReport(changes, LinesOf(text), host, plan, cutoff) && forall c :: c in changes ==> !c.Warning?
    requires HasBlock(LinesOf(text), host) || OneLine(host)
    ensures Effective(LinesOf(after), host, plan, matches) <==>
      if Reaches(LinesOf(text), host) then InView(LinesOf(text), host, plan) else Effective(LinesOf(text), host, plan, matches)
  {
    ReportMeans(changes, LinesOf(text), host, plan, cutoff);
    RunIsEffective(text, after, host, cutoff, plan, matches);
  }

  // ---------- two files the edit does not see through ----------

  lemma OneBlock(lines: seq<Line>, host: string)
    requires lines != [] && NamesHost(lines[0], host) && forall i :: 0 < i < |lines| ==> !IsBlockStart(lines[i])
    ensures IsBlock(lines, host, 0, |lines|)
  {
    FirstNamingIs(lines, host, 0);
  }

  lemma NegatedNames(host: string)
    requires Plain(host)
    ensures var line := Write("", "Host", host + (" !" + host));
      NamesHost(line, host) && !line.blank && Fields(line.value) == [host, "!" + host]
  {
    WriteReads("", "Host", host + (" !" + host));
    assert ToLower("Host") == "host";
    assert " !" + host == " " + ("!" + host);
    FieldsOfTwo(host, "!" + host);
  }

  lemma NegatedFails(head: Line, host: string)
    requires Fields(head.value) == [host, "!" + host]
    ensures !HostMatches(Fields(head.value), host)
  {
    GlobSelf(host);
    assert ("!" + host)[1..] == host;
    assert Negates("!" + host, host);
  }

  lemma NothingFromHead(lines: seq<Line>, r: Required, host: string, matches: string -> bool)
    requires |lines| == 1 && lines[0].key == "host" && PlainKey(r.key)
    ensures First(lines, r.key, true, host, matches) == Unset
  {
  }

  lemma UnsetIsNotEffective(result: seq<Line>, host: string, plan: Plan, matches: string -> bool)
    requires First(result, plan.master.key, true, host, matches) == Unset
    ensures !Effective(result, host, plan, matches)
  {
  }

  /** A Host line that names the host and negates it: the edit is done, without a warning, and lost. */
  lemma NegatedPattern(result: seq<Line>, host: string, plan: Plan, matches: string -> bool)
    requires Plain(host) && ValidPlan(plan)
    requires EditOf(result, [Write("", "Host", host + (" !" + host))], host, plan)
    ensures Settled(result, host, plan) && !Effective(result, host, plan, matches)
  {
    NegatedNames(host);
    HeadIsLost(result, [Write("", "Host", host + (" !" + host))], host, plan, matches);
  }

  lemma HeadIsLost(result: seq<Line>, lines: seq<Line>, host: string, plan: Plan, matches: string -> bool)
    requires |lines| == 1 && NamesHost(lines[0], host) && !lines[0].blank && Fields(lines[0].value) == [host, "!" + host]
    requires ValidPlan(plan) && EditOf(result, lines, host, plan)
    ensures Settled(result, host, plan) && !Effective(result, host, plan, matches)
  {
    OneBlock(lines, host);
    NegatedFails(lines[0], host);
    EditOfBlockSettles(result, lines, host, plan);
    NothingFromHead(lines, plan.master, host, matches);
    EditIsLost(result, lines, host, 0, 1, plan, plan.master.key, matches);
    UnsetIsNotEffective(result, host, plan, matches);
  }

  /** An Include in the block of the host: no warning, and what is obtained is decided elsewhere. */
  lemma IncludeInBlock(result: seq<Line>, host: string, file: string, plan: Plan, matches: string -> bool)
    requires Plain(host) && host[0] != '!' && Trimmed(file) && file[0] != '=' && ValidPlan(plan)
    requires EditOf(result, [Write("", "Host", host), Write("    ", "Include", file)], host, plan)
    ensures Settled(result, host, plan) && !Effective(result, host, plan, matches)
  {
    HostLineNames(host);
    HostLineVisible(host);
    IncludeReads(file);
    IncludeHides([Write("", "Host", host), Write("    ", "Include", file)], host, plan);
    IncludeFirst(result, [Write("", "Host", host), Write("    ", "Include", file)], host, plan, matches);
  }

  lemma HostLineVisible(host: string)
    requires Plain(host)
    ensures !Write("", "Host", host).blank
  {
    WriteReads("", "Host", host);
  }

  lemma IncludeReads(file: string)
    requires Trimmed(file) && file[0] != '='
    ensures Write("    ", "Include", file).key == "include" && !Write("    ", "Include", file).blank
  {
    WriteReads("    ", "Include", file);
    assert ToLower("Include") == "include";
  }

  lemma IncludeHides(lines: seq<Line>, host: string, plan: Plan)
    requires |lines| == 2 && NamesHost(lines[0], host) && Fields(lines[0].value) == [host] && lines[1].key == "include"
    requires host != "" && host[0] != '!' && ValidPlan(plan)
    ensures IsBlock(lines, host, 0, 2) && HostMatches(Fields(lines[0].value), host) && !Unhidden(lines, 0, 2, plan.master)
  {
    OneBlock(lines, host);
    NamedHostMatches(lines[0], host);
    FirstAtIs(lines, 1, 2, "include", 1);
    FirstAtIs(lines, 1, 2, plan.master.key, 2);
  }

  lemma IncludeFirst(result: seq<Line>, lines: seq<Line>, host: string, plan: Plan, matches: string -> bool)
    requires |lines| == 2 && IsBlock(lines, host, 0, 2) && HostMatches(Fields(lines[0].value), host)
    requires !Unhidden(lines, 0, 2, plan.master) && BlanksAreEmpty(lines) && ValidPlan(plan) && EditOf(result, lines, host, plan)
    ensures Settled(result, host, plan) && !Effective(result, host, plan, matches)
  {
    EditOfBlockSettles(result, lines, host, plan);
    EditTakesEffect(result, lines, host, 0, 2, plan, matches);
  }
}
