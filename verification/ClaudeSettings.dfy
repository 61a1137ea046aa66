/**
 The hooks of the Claude settings, a JSON tree: taking out the commands this program owns, putting in
 the current one, and taking it out again. Marshalling is the identity on trees.
 */
module ClaudeSettings {
  import opened Wrappers
  import opened Text
  import opened Numerals

  datatype Json =
    | Null
    | Bool(b: bool)
    | Number(n: int)
    | Str(s: string)
    | Arr(items: seq<Json>)
    | Obj(fields: map<string, Json>)

  datatype Fault = Malformed | HooksNotObject | EventNotArray | EntryNotObject | EntryHooksNotArray | CommandNotObject

  datatype Outcome<T> = Done(value: T) | Bad(fault: Fault)

  // ---------- whose command it is ----------

  const OWNER_PREFIX := "env CC_CLIP_MANAGED=1"
  const DEFAULT_PORT: nat := 18339
  const RUNNER := " cc-clip plugin run claude-notify"

  function CurrentCommand(port: nat): string {
    if port == DEFAULT_PORT then OWNER_PREFIX + RUNNER
    else OWNER_PREFIX + (" CC_CLIP_PORT=" + (Itoa(port) + RUNNER))
  }

  /** How commands are told apart by their text, the command to put in, and the events to put it into. */
  datatype Markers = Markers(managed: string -> bool, bare: string -> bool, current: string, events: seq<string>)

  function MarkersFor(port: nat): Markers {
    Markers((text: string) => HasPrefix(text, OWNER_PREFIX),
            (text: string) => Contains(text, "cc-clip-hook") && !HasPrefix(text, OWNER_PREFIX), CurrentCommand(port),
            ["Stop", "Notification"])
  }

  ghost predicate ValidMarkers(k: Markers) {
    && k.managed(k.current) && (forall text :: k.bare(text) ==> !k.managed(text))
    && |k.events| == 2 && k.events[0] != k.events[1]
  }

  lemma MarkersAreValid(port: nat)
    ensures ValidMarkers(MarkersFor(port))
  {
    assert HasPrefix(CurrentCommand(port), OWNER_PREFIX);
  }

  /**
   A command is this program's own exactly when its text starts with the owner's words, so also one an older
   version put in; a user's cc-clip-hook does not, and stands in the way.
   */
  lemma MarkersMean(port: nat, text: string)
    ensures var k := MarkersFor(port);
      && (k.managed(text) <==> |text| >= 21 && text[..21] == "env CC_CLIP_MANAGED=1")
      && k.managed("env CC_CLIP_MANAGED=1 cc-clip-hook") && k.current != "env CC_CLIP_MANAGED=1 cc-clip-hook"
      && k.bare("cc-clip-hook") && !k.managed("cc-clip-hook")
      && k.events == ["Stop", "Notification"]
  {
    OwnersWords(text);
    OwnersWords("cc-clip-hook");
    OwnersWords("env CC_CLIP_MANAGED=1 cc-clip-hook");
    var hook := "cc-clip-hook";
    assert hook[0..] == hook && HasPrefix(hook[0..], "cc-clip-hook");
    var legacy := "env CC_CLIP_MANAGED=1 cc-clip-hook";
    assert legacy[..21] == "env CC_CLIP_MANAGED=1" && |legacy| == 34;
    LongerThanHook(port);
  }

  lemma OwnersWords(text: string)
    ensures HasPrefix(text, OWNER_PREFIX) <==> |text| >= 21 && text[..21] == "env CC_CLIP_MANAGED=1"
  {
    assert |OWNER_PREFIX| == 21;
  }

  lemma LongerThanHook(port: nat)
    ensures |CurrentCommand(port)| > 40
  {
    assert |" cc-clip plugin run claude-notify"| == 33;
  }

  lemma Regroup(a: string, b: string, c: string)
    ensures a + (b + c) == (a + b) + c
  {
  }

  lemma DefaultCommand()
    ensures CurrentCommand(18339) == "env CC_CLIP_MANAGED=1" + " cc-clip plugin run claude-notify"
  {
  }

  lemma OwnerAndPort()
    ensures OWNER_PREFIX + " CC_CLIP_PORT=" == "env CC_CLIP_MANAGED=1 CC_CLIP_PORT="
  {
  }

  lemma CommandFor(p: nat)
    requires p != 18339
    ensures CurrentCommand(p) == "env CC_CLIP_MANAGED=1 CC_CLIP_PORT=" + (Digits(p) + RUNNER)
  {
    Regroup(OWNER_PREFIX, " CC_CLIP_PORT=", Itoa(p) + RUNNER);
    OwnerAndPort();
  }

  lemma SameDigits(p: nat, q: nat, head: string, tail: string)
    requires head + (Digits(p) + tail) == head + (Digits(q) + tail)
    ensures p == q
  {
    var a, b := Digits(p) + tail, Digits(q) + tail;
    assert a == (head + a)[|head|..] && b == (head + b)[|head|..];
    assert |Digits(p)| == |a| - |tail| && |Digits(q)| == |b| - |tail|;
    assert Digits(p) == a[..|Digits(p)|] && Digits(q) == b[..|Digits(q)|];
    ValueOfDigits(p);
    ValueOfDigits(q);
  }

  lemma NoDefault(p: nat)
    requires p != 18339
    ensures CurrentCommand(p) != CurrentCommand(18339)
  {
    CommandFor(p);
    DefaultCommand();
    assert CurrentCommand(p)[22] == 'C' && CurrentCommand(18339)[22] == 'c';
  }

  /** The command names the port it is for, but for the default one, and no two ports share a command. */
  lemma CurrentTellsPort(p: nat, q: nat)
    ensures CurrentCommand(p) == if p == 18339 then "env CC_CLIP_MANAGED=1" + " cc-clip plugin run claude-notify"
      else "env CC_CLIP_MANAGED=1 CC_CLIP_PORT=" + (Digits(p) + " cc-clip plugin run claude-notify")
    ensures CurrentCommand(p) == CurrentCommand(q) <==> p == q
  {
    if p == 18339 {
      DefaultCommand();
    } else {
      CommandFor(p);
      NoDefault(p);
    }
    if q != 18339 {
      CommandFor(q);
      NoDefault(q);
      if p != 18339 && CurrentCommand(p) == CurrentCommand(q) {
        SameDigits(p, q, "env CC_CLIP_MANAGED=1 CC_CLIP_PORT=", RUNNER);
      }
    }
  }

  function TextOf(command: Json): string
    requires command.Obj?
  {
    if "command" in command.fields && command.fields["command"].Str? then command.fields["command"].s else ""
  }

  predicate IsManaged(command: Json, k: Markers) {
    command.Obj? && k.managed(TextOf(command))
  }

  predicate IsBare(command: Json, k: Markers) {
    command.Obj? && k.bare(TextOf(command))
  }

  predicate IsCurrent(command: Json, k: Markers) {
    command.Obj? && TextOf(command) == k.current
  }

  // ---------- one event ----------

  predicate CommandsFormed(commands: seq<Json>) {
    commands == [] || (commands[0].Obj? && CommandsFormed(commands[1..]))
  }

  predicate MatcherFormed(matcher: Json) {
    matcher.Obj? && ("hooks" in matcher.fields ==>
      matcher.fields["hooks"].Arr? && CommandsFormed(matcher.fields["hooks"].items))
  }

  predicate EventFormed(matchers: seq<Json>) {
    matchers == [] || (MatcherFormed(matchers[0]) && EventFormed(matchers[1..]))
  }

  /** The commands of a matcher. */
  function CommandsOf(matcher: Json): seq<Json> {
    if matcher.Obj? && "hooks" in matcher.fields && matcher.fields["hooks"].Arr? then matcher.fields["hooks"].items else []
  }

  /** All commands of an event in the order they stand. */
  function Commands(matchers: seq<Json>): seq<Json> {
    if matchers == [] then [] else CommandsOf(matchers[0]) + Commands(matchers[1..])
  }

  function Unmanaged(commands: seq<Json>, k: Markers): seq<Json> {
    if commands == [] then []
    else (if IsManaged(commands[0], k) then [] else [commands[0]]) + Unmanaged(commands[1..], k)
  }

  function CountManaged(commands: seq<Json>, k: Markers): nat {
    if commands == [] then 0 else (if IsManaged(commands[0], k) then 1 else 0) + CountManaged(commands[1..], k)
  }

  function CountCurrent(commands: seq<Json>, k: Markers): nat {
    if commands == [] then 0
    else (if IsManaged(commands[0], k) && IsCurrent(commands[0], k) then 1 else 0) + CountCurrent(commands[1..], k)
  }

  predicate HasBare(commands: seq<Json>, k: Markers) {
    commands != [] && (IsBare(commands[0], k) || HasBare(commands[1..], k))
  }

  /** One command, and one key besides it that is not a matcher of something. */
  predicate IsPlain(fields: map<string, Json>, commands: seq<Json>) {
    |fields| == 2 && |commands| == 1 && ("matcher" in fields && fields["matcher"].Str? ==> fields["matcher"].s == "")
  }

  /** The matcher without its managed commands, or nothing if that is all it was for. */
  function StripMatcher(matcher: Json, k: Markers): seq<Json> {
    var commands := CommandsOf(matcher);
    var kept := Unmanaged(commands, k);
    if CountManaged(commands, k) == 0 || !matcher.Obj? then [matcher]
    else if kept == [] && IsPlain(matcher.fields, commands) then []
    else [Obj(matcher.fields["hooks" := Arr(kept)])]
  }

  function Strip(matchers: seq<Json>, k: Markers): seq<Json> {
    if matchers == [] then [] else StripMatcher(matchers[0], k) + Strip(matchers[1..], k)
  }

  function ManagedMatcher(k: Markers): Json {
    Obj(map["matcher" := Str(""), "hooks" := Arr([Obj(map["type" := Str("command"), "command" := Str(k.current)])])])
  }

  function MergedEvent(matchers: seq<Json>, k: Markers): seq<Json> {
    var commands := Commands(matchers);
    if HasBare(commands, k) then Strip(matchers, k)
    else if CountManaged(commands, k) == 1 && CountCurrent(commands, k) == 1 then matchers
    else Strip(matchers, k) + [ManagedMatcher(k)]
  }

  predicate EventChanges(matchers: seq<Json>, k: Markers) {
    var commands := Commands(matchers);
    if HasBare(commands, k) then CountManaged(commands, k) > 0
    else !(CountManaged(commands, k) == 1 && CountCurrent(commands, k) == 1)
  }

  // ---------- lemmas about commands ----------

  lemma {:induction false} CommandsAppend(a: seq<Json>, b: seq<Json>)
    ensures Commands(a + b) == Commands(a) + Commands(b)
    ensures EventFormed(a + b) <==> EventFormed(a) && EventFormed(b)
  {
    if a == [] {
      assert a + b == b;
    } else {
      assert (a + b)[1..] == a[1..] + b;
      CommandsAppend(a[1..], b);
    }
  }

  lemma {:induction false} UnmanagedAppend(a: seq<Json>, b: seq<Json>, k: Markers)
    ensures Unmanaged(a + b, k) == Unmanaged(a, k) + Unmanaged(b, k)
    ensures CountManaged(a + b, k) == CountManaged(a, k) + CountManaged(b, k)
    ensures CountCurrent(a + b, k) == CountCurrent(a, k) + CountCurrent(b, k)
    ensures HasBare(a + b, k) <==> HasBare(a, k) || HasBare(b, k)
  {
    if a == [] {
      assert a + b == b;
    } else {
      assert (a + b)[1..] == a[1..] + b;
      UnmanagedAppend(a[1..], b, k);
    }
  }

  /** What is left has nothing managed in it, and every bare hook. */
  lemma {:induction false} UnmanagedIsClean(commands: seq<Json>, k: Markers)
    requires ValidMarkers(k)
    ensures CountManaged(Unmanaged(commands, k), k) == 0 && CountCurrent(Unmanaged(commands, k), k) == 0
    ensures Unmanaged(Unmanaged(commands, k), k) == Unmanaged(commands, k)
    ensures HasBare(Unmanaged(commands, k), k) <==> HasBare(commands, k)
    ensures CountManaged(commands, k) == 0 <==> Unmanaged(commands, k) == commands
    ensures |Unmanaged(commands, k)| + CountManaged(commands, k) == |commands|
  {
    if commands != [] {
      var rest := Unmanaged(commands[1..], k);
      UnmanagedIsClean(commands[1..], k);
      assert Unmanaged(commands, k) == if IsManaged(commands[0], k) then rest else [commands[0]] + rest;
      assert ([commands[0]] + rest)[1..] == rest;
    }
  }

  /** Stripping an event leaves its unmanaged commands, all of them and in order. */
  lemma {:induction false} StripLeavesUnmanaged(matchers: seq<Json>, k: Markers)
    requires EventFormed(matchers) && ValidMarkers(k)
    ensures Commands(Strip(matchers, k)) == Unmanaged(Commands(matchers), k)
    ensures EventFormed(Strip(matchers, k))
  {
    if matchers != [] {
      StripLeavesUnmanaged(matchers[1..], k);
      StripMatcherLeaves(matchers[0], k);
      UnmanagedAppend(CommandsOf(matchers[0]), Commands(matchers[1..]), k);
      CommandsAppend(StripMatcher(matchers[0], k), Strip(matchers[1..], k));
    }
  }

  lemma StripMatcherLeaves(matcher: Json, k: Markers)
    requires MatcherFormed(matcher) && ValidMarkers(k)
    ensures Commands(StripMatcher(matcher, k)) == Unmanaged(CommandsOf(matcher), k)
    ensures EventFormed(StripMatcher(matcher, k))
  {
    var commands := CommandsOf(matcher);
    UnmanagedIsClean(commands, k);
    UnmanagedFormed(commands, k);
    var stripped := StripMatcher(matcher, k);
    if stripped != [] {
      assert Commands(stripped) == CommandsOf(stripped[0]) + [];
    }
  }

  lemma {:induction false} UnmanagedFormed(commands: seq<Json>, k: Markers)
    requires CommandsFormed(commands)
    ensures CommandsFormed(Unmanaged(commands, k))
  {
    if commands != [] {
      UnmanagedFormed(commands[1..], k);
      var rest := Unmanaged(commands[1..], k);
      assert [] + rest == rest && ([commands[0]] + rest)[1..] == rest;
    }
  }

  /** An event without managed commands is not touched. */
  lemma {:induction false} StripOfClean(matchers: seq<Json>, k: Markers)
    requires CountManaged(Commands(matchers), k) == 0
    ensures Strip(matchers, k) == matchers
  {
    if matchers != [] {
      UnmanagedAppend(CommandsOf(matchers[0]), Commands(matchers[1..]), k);
      StripOfClean(matchers[1..], k);
    }
  }

  lemma {:induction false} StripAppend(a: seq<Json>, b: seq<Json>, k: Markers)
    ensures Strip(a + b, k) == Strip(a, k) + Strip(b, k)
  {
    if a == [] {
      assert a + b == b;
    } else {
      assert (a + b)[0] == a[0] && (a + b)[1..] == a[1..] + b;
      StripAppend(a[1..], b, k);
      assert Strip(a + b, k) == StripMatcher(a[0], k) + Strip(a[1..] + b, k);
    }
  }

  // ---------- one event, merged ----------

  lemma ManagedMatcherMeans(k: Markers)
    requires ValidMarkers(k)
    ensures MatcherFormed(ManagedMatcher(k)) && StripMatcher(ManagedMatcher(k), k) == []
    ensures var commands := CommandsOf(ManagedMatcher(k));
      && CountManaged(commands, k) == 1 && CountCurrent(commands, k) == 1
      && Unmanaged(commands, k) == [] && !HasBare(commands, k)
  {
    var command := Obj(map["type" := Str("command"), "command" := Str(k.current)]);
    assert TextOf(command) == k.current;
    var commands := [command];
    assert CommandsOf(ManagedMatcher(k)) == commands;
    assert commands[1..] == [];
    var fields := ManagedMatcher(k).fields;
    assert fields.Keys == {"matcher", "hooks"};
    assert |fields| == |fields.Keys| == 2;
    assert fields["matcher"] == Str("") && IsPlain(fields, commands);
    assert Unmanaged(commands, k) == [] && CountManaged(commands, k) == 1;
  }

  lemma OneMatcher(matcher: Json)
    ensures Commands([matcher]) == CommandsOf(matcher)
  {
    assert [matcher][1..] == [] && CommandsOf(matcher) + [] == CommandsOf(matcher);
  }

  /** With the managed matcher behind it, a stripped event has one managed command more and no other change. */
  lemma InsertedMeans(stripped: seq<Json>, k: Markers)
    requires EventFormed(stripped) && ValidMarkers(k)
    ensures var before, after := Commands(stripped), Commands(stripped + [ManagedMatcher(k)]);
      && EventFormed(stripped + [ManagedMatcher(k)])
      && Unmanaged(after, k) == Unmanaged(before, k) && (HasBare(after, k) <==> HasBare(before, k))
      && CountManaged(after, k) == CountManaged(before, k) + 1 && CountCurrent(after, k) == CountCurrent(before, k) + 1
  {
    var matcher := ManagedMatcher(k);
    var own := CommandsOf(matcher);
    ManagedMatcherMeans(k);
    OneMatcher(matcher);
    CommandsAppend(stripped, [matcher]);
    UnmanagedAppend(Commands(stripped), own, k);
    assert Unmanaged(Commands(stripped), k) + [] == Unmanaged(Commands(stripped), k);
  }

  /**
   A merged event has exactly one managed command, the current one, or none where the user has a bare
   hook; the other commands are what they were, in order.
   */
  lemma MergedEventMeans(matchers: seq<Json>, k: Markers)
    requires EventFormed(matchers) && ValidMarkers(k)
    ensures var before, after := Commands(matchers), Commands(MergedEvent(matchers, k));
      && EventFormed(MergedEvent(matchers, k))
      && Unmanaged(after, k) == Unmanaged(before, k)
      && (HasBare(after, k) <==> HasBare(before, k))
      && CountManaged(after, k) == CountCurrent(after, k) == if HasBare(before, k) then 0 else 1
  {
    StripLeavesUnmanaged(matchers, k);
    UnmanagedIsClean(Commands(matchers), k);
    InsertedMeans(Strip(matchers, k), k);
  }

  /** An event that was merged does not change again. */
  lemma MergedEventSettles(matchers: seq<Json>, k: Markers)
    requires EventFormed(matchers) && ValidMarkers(k)
    ensures !EventChanges(MergedEvent(matchers, k), k)
  {
    MergedEventMeans(matchers, k);
  }

  lemma UnchangedEvent(matchers: seq<Json>, k: Markers)
    requires !EventChanges(matchers, k)
    ensures MergedEvent(matchers, k) == matchers
  {
    if HasBare(Commands(matchers), k) {
      StripOfClean(matchers, k);
    }
  }

  /** Stripping a merged event that had nothing managed gives the event back. */
  lemma StripOfMerged(matchers: seq<Json>, k: Markers)
    requires ValidMarkers(k) && CountManaged(Commands(matchers), k) == 0
    ensures Strip(MergedEvent(matchers, k), k) == matchers
  {
    StripOfClean(matchers, k);
    ManagedMatcherMeans(k);
    StripAppend(matchers, [ManagedMatcher(k)], k);
    assert Strip([ManagedMatcher(k)], k) == [];
    assert matchers + [] == matchers;
  }

  // ---------- the other keys of a matcher ----------

  /** Besides its commands the matcher has one key, and it is not a matcher of something. */
  ghost predicate OnlyKey(fields: map<string, Json>, key: string) {
    key != "hooks" && fields.Keys == {"hooks", key} && (key == "matcher" ==> !(fields[key].Str? && fields[key].s != ""))
  }

  lemma Single(keys: set<string>, key: string)
    requires |keys| == 1 && key in keys
    ensures keys == {key}
  {
    var rest := keys - {key};
    assert |rest| == 0;
  }

  lemma PlainMeans(fields: map<string, Json>, commands: seq<Json>)
    requires "hooks" in fields
    ensures IsPlain(fields, commands) <==> |commands| == 1 && exists key :: OnlyKey(fields, key)
  {
    var others := fields.Keys - {"hooks"};
    assert |fields| == |fields.Keys| == |others| + 1;
    if |fields| == 2 {
      var key :| key in others;
      Single(others, key);
      assert fields.Keys == {"hooks"} + others == {"hooks", key};
      assert |commands| == 1 && IsPlain(fields, commands) ==> OnlyKey(fields, key);
    }
    forall key | OnlyKey(fields, key) ensures |fields| == 2 {
      assert |{"hooks", key}| == 2;
    }
  }

  /** A matcher goes as a whole when it held one command, a managed one, and one other key that matches nothing in particular; else it keeps its other keys. */
  lemma StripMatcherKeepsKeys(matcher: Json, k: Markers)
    requires MatcherFormed(matcher) && ValidMarkers(k)
    ensures var stripped, commands := StripMatcher(matcher, k), CommandsOf(matcher);
      if |commands| == 1 && CountManaged(commands, k) == 1 && exists key :: OnlyKey(matcher.fields, key) then stripped == []
      else |stripped| == 1 && stripped[0].Obj? && stripped[0].fields - {"hooks"} == matcher.fields - {"hooks"}
  {
    UnmanagedIsClean(CommandsOf(matcher), k);
    if CommandsOf(matcher) != [] {
      PlainMeans(matcher.fields, CommandsOf(matcher));
    }
  }

  /** A key beside the one managed command is lost with it when there is no matcher key. */
  lemma OtherKeyIsLost(key: string, value: Json, k: Markers)
    requires ValidMarkers(k) && key != "hooks" && key != "matcher"
    ensures var matcher := Obj(map["hooks" := Arr(CommandsOf(ManagedMatcher(k))), key := value]);
      MatcherFormed(matcher) && StripMatcher(matcher, k) == []
  {
    ManagedMatcherMeans(k);
    var commands := CommandsOf(ManagedMatcher(k));
    var matcher := Obj(map["hooks" := Arr(commands), key := value]);
    assert CommandsOf(matcher) == commands;
    assert matcher.fields.Keys == {"hooks", key};
    assert |matcher.fields| == |matcher.fields.Keys| == 2;
  }
}
