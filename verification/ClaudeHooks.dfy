/**
 Merging the hooks of this program into the Claude settings and removing them again: what the two
 operations keep, that merging settles, and exactly when removing undoes it.
 */
module ClaudeHooks {
  import opened Wrappers
  import opened ClaudeSettings

  type Fields = map<string, Json>

  const HOOKS: string := "hooks"

  // ---------- the settings ----------

  function HooksOf(settings: Fields): Fields {
    if HOOKS in settings && settings[HOOKS].Obj? then settings[HOOKS].fields else map[]
  }

  function EventOf(hooks: Fields, event: string): seq<Json> {
    if event in hooks && hooks[event].Arr? then hooks[event].items else []
  }

  predicate EventSound(hooks: Fields, event: string) {
    event in hooks ==> hooks[event].Arr? && EventFormed(hooks[event].items)
  }

  predicate HooksSound(hooks: Fields) {
    forall e :: e in hooks ==> EventSound(hooks, e)
  }

  predicate SettingsFormed(settings: Fields) {
    (HOOKS in settings ==> settings[HOOKS].Obj?) && HooksSound(HooksOf(settings))
  }

  /** What a merge looks at is well formed. */
  predicate MergeFormed(settings: Fields, k: Markers) {
    && (HOOKS in settings ==> settings[HOOKS].Obj?)
    && forall e :: e in k.events ==> EventSound(HooksOf(settings), e)
  }

  function MergedOne(hooks: Fields, event: string, k: Markers): Fields {
    var matchers := EventOf(hooks, event);
    if EventChanges(matchers, k) then hooks[event := Arr(MergedEvent(matchers, k))] else hooks
  }

  function MergedHooks(hooks: Fields, k: Markers): Fields
    requires |k.events| == 2
  {
    MergedOne(MergedOne(hooks, k.events[0], k), k.events[1], k)
  }

  predicate MergeChanges(settings: Fields, k: Markers) {
    exists e :: e in k.events && EventChanges(EventOf(HooksOf(settings), e), k)
  }

  function Merged(settings: Fields, k: Markers): Fields
    requires |k.events| == 2
  {
    if MergeChanges(settings, k) then settings[HOOKS := Obj(MergedHooks(HooksOf(settings), k))] else settings
  }

  function CleanHooks(hooks: Fields, k: Markers): Fields {
    map e | e in hooks && Strip(EventOf(hooks, e), k) != [] :: Arr(Strip(EventOf(hooks, e), k))
  }

  predicate HoldsManaged(hooks: Fields, k: Markers) {
    exists e :: e in hooks && CountManaged(Commands(EventOf(hooks, e)), k) > 0
  }

  predicate RemoveChanges(settings: Fields, k: Markers) {
    HoldsManaged(HooksOf(settings), k)
  }

  /** Events and a hooks object that are empty are dropped, but only from settings that change anyway. */
  function Removed(settings: Fields, k: Markers): Fields {
    if !RemoveChanges(settings, k) then settings
    else
      var hooks := CleanHooks(HooksOf(settings), k);
      if hooks == map[] then settings - {HOOKS} else settings[HOOKS := Obj(hooks)]
  }

  // ---------- merging ----------

  /** What is in each event after a merge. */
  lemma MergedEventOf(hooks: Fields, k: Markers, e: string)
    requires ValidMarkers(k)
    ensures EventOf(MergedHooks(hooks, k), e) ==
      if e in k.events then MergedEvent(EventOf(hooks, e), k) else EventOf(hooks, e)
    ensures e !in k.events ==> (e in MergedHooks(hooks, k) <==> e in hooks)
    ensures e !in k.events && e in hooks ==> MergedHooks(hooks, k)[e] == hooks[e]
    ensures e in MergedHooks(hooks, k) ==>
      e in hooks || (e in k.events && EventChanges(EventOf(hooks, e), k))
  {
    if !EventChanges(EventOf(hooks, e), k) {
      UnchangedEvent(EventOf(hooks, e), k);
    }
  }

  lemma HooksOfMerged(settings: Fields, k: Markers, e: string)
    requires ValidMarkers(k)
    ensures EventOf(HooksOf(Merged(settings, k)), e) ==
      if e in k.events then MergedEvent(EventOf(HooksOf(settings), e), k) else EventOf(HooksOf(settings), e)
  {
    if MergeChanges(settings, k) {
      MergedEventOf(HooksOf(settings), k, e);
    } else if e in k.events {
      UnchangedEvent(EventOf(HooksOf(settings), e), k);
    }
  }

  /**
   After a merge every managed event has exactly one managed command, the current one, or none where the
   user has a bare hook, and its other commands are what they were, in order.
   */
  lemma MergeMeans(settings: Fields, k: Markers, e: string)
    requires ValidMarkers(k) && MergeFormed(settings, k) && e in k.events
    ensures var before, after := Commands(EventOf(HooksOf(settings), e)), Commands(EventOf(HooksOf(Merged(settings, k)), e));
      && Unmanaged(after, k) == Unmanaged(before, k)
      && CountManaged(after, k) == CountCurrent(after, k) == if HasBare(before, k) then 0 else 1
  {
    HooksOfMerged(settings, k, e);
    MergedEventMeans(EventOf(HooksOf(settings), e), k);
  }

  /** A merge leaves every other key and every other event alone. */
  lemma MergeKeepsTheRest(settings: Fields, k: Markers, key: string, e: string)
    requires ValidMarkers(k) && MergeFormed(settings, k) && key != HOOKS && e !in k.events
    ensures var merged := Merged(settings, k);
      && (key in merged <==> key in settings) && (key in settings ==> merged[key] == settings[key])
      && (e in HooksOf(merged) <==> e in HooksOf(settings))
      && (e in HooksOf(settings) ==> HooksOf(merged)[e] == HooksOf(settings)[e])
  {
    if MergeChanges(settings, k) {
      MergedEventOf(HooksOf(settings), k, e);
    }
  }

  /** A second merge reports no change. */
  lemma MergeSettles(settings: Fields, k: Markers)
    requires ValidMarkers(k) && MergeFormed(settings, k)
    ensures !MergeChanges(Merged(settings, k), k) && Merged(Merged(settings, k), k) == Merged(settings, k)
  {
    forall e | e in k.events ensures !EventChanges(EventOf(HooksOf(Merged(settings, k)), e), k) {
      HooksOfMerged(settings, k, e);
      MergedEventSettles(EventOf(HooksOf(settings), e), k);
    }
  }

  // ---------- removing ----------

  lemma CleanEventOf(hooks: Fields, k: Markers, e: string)
    ensures EventOf(CleanHooks(hooks, k), e) == if e in hooks then Strip(EventOf(hooks, e), k) else []
  {
  }

  /** After a removal no managed command is left in any event, and the others are what they were, in order. */
  lemma RemoveMeans(settings: Fields, k: Markers, e: string)
    requires ValidMarkers(k) && SettingsFormed(settings)
    ensures var before, after := Commands(EventOf(HooksOf(settings), e)), Commands(EventOf(HooksOf(Removed(settings, k)), e));
      && CountManaged(after, k) == 0 && after == Unmanaged(before, k)
  {
    var hooks := HooksOf(settings);
    UnmanagedIsClean(Commands(EventOf(hooks, e)), k);
    assert e in hooks ==> EventSound(hooks, e);
    if RemoveChanges(settings, k) {
      CleanEventOf(hooks, k, e);
      StripLeavesUnmanaged(EventOf(hooks, e), k);
      assert HooksOf(Removed(settings, k)) == CleanHooks(hooks, k);
    } else {
      assert e in hooks ==> CountManaged(Commands(EventOf(hooks, e)), k) == 0;
    }
  }

  lemma RemoveKeepsTheRest(settings: Fields, k: Markers, key: string)
    requires key != HOOKS
    ensures (key in Removed(settings, k) <==> key in settings)
    ensures key in settings ==> Removed(settings, k)[key] == settings[key]
  {
  }

  // ---------- removing what was merged ----------

  ghost predicate NothingManaged(settings: Fields, k: Markers) {
    forall e :: e in HooksOf(settings) ==> CountManaged(Commands(EventOf(HooksOf(settings), e)), k) == 0
  }

  /** No event is an empty array, and a hooks object that is there has an event. */
  ghost predicate NothingEmpty(settings: Fields) {
    && (forall e :: e in HooksOf(settings) ==> EventOf(HooksOf(settings), e) != [])
    && (HOOKS in settings ==> HooksOf(settings) != map[])
  }

  function NonEmpty(hooks: Fields): Fields {
    map e | e in hooks && EventOf(hooks, e) != [] :: hooks[e]
  }

  /** Cleaning merged hooks that had nothing managed gives them back without the empty events. */
  lemma CleanOfMerged(settings: Fields, k: Markers)
    requires ValidMarkers(k) && SettingsFormed(settings) && NothingManaged(settings, k)
    ensures CleanHooks(MergedHooks(HooksOf(settings), k), k) == NonEmpty(HooksOf(settings))
  {
    var hooks := HooksOf(settings);
    var merged := MergedHooks(hooks, k);
    forall e
      ensures e in CleanHooks(merged, k) <==> e in NonEmpty(hooks)
      ensures e in NonEmpty(hooks) && e in CleanHooks(merged, k) ==> CleanHooks(merged, k)[e] == NonEmpty(hooks)[e]
    {
      CleanOfMergedAt(settings, k, e);
    }
  }

  lemma CleanOfMergedAt(settings: Fields, k: Markers, e: string)
    requires ValidMarkers(k) && SettingsFormed(settings) && NothingManaged(settings, k)
    ensures var hooks := HooksOf(settings);
      var clean := CleanHooks(MergedHooks(hooks, k), k);
      && (e in clean <==> e in NonEmpty(hooks))
      && (e in clean && e in NonEmpty(hooks) ==> clean[e] == NonEmpty(hooks)[e])
  {
    var hooks := HooksOf(settings);
    assert e in hooks ==> EventSound(hooks, e);
    assert CountManaged(Commands(EventOf(hooks, e)), k) == 0;
    MergedEventOf(hooks, k, e);
    StripOfMerged(EventOf(hooks, e), k);
    StripOfClean(EventOf(hooks, e), k);
    MergedHasEvents(hooks, k, e);
  }

  lemma MergedHasEvents(hooks: Fields, k: Markers, e: string)
    requires ValidMarkers(k)
    ensures e in hooks ==> e in MergedHooks(hooks, k)
  {
  }

  /** With nothing managed before, an event changes exactly when it gets the managed command. */
  lemma ChangeIsInsertion(settings: Fields, k: Markers, e: string)
    requires ValidMarkers(k) && SettingsFormed(settings) && NothingManaged(settings, k)
    requires e in k.events && EventChanges(EventOf(HooksOf(settings), e), k)
    ensures RemoveChanges(Merged(settings, k), k)
  {
    var hooks := HooksOf(settings);
    assert e in hooks ==> EventSound(hooks, e);
    assert CountManaged(Commands(EventOf(hooks, e)), k) == 0;
    MergedEventMeans(EventOf(hooks, e), k);
    MergedEventOf(hooks, k, e);
    var merged := MergedHooks(hooks, k);
    assert HooksOf(Merged(settings, k)) == merged;
    assert CountManaged(Commands(EventOf(merged, e)), k) == 1;
    assert e in merged;
  }

  /** What removal makes of settings whose hooks were replaced. */
  lemma RemovedOf(settings: Fields, merged: Fields, hooks: Fields, k: Markers)
    requires merged == settings[HOOKS := Obj(hooks)] && RemoveChanges(merged, k)
    ensures Removed(merged, k) ==
      var clean := CleanHooks(hooks, k);
      if clean == map[] then settings - {HOOKS} else settings[HOOKS := Obj(clean)]
  {
    assert HooksOf(merged) == hooks;
    assert merged - {HOOKS} == settings - {HOOKS};
  }

  /** What removal makes of merged settings. */
  lemma RemovedOfMerged(settings: Fields, k: Markers)
    requires ValidMarkers(k) && SettingsFormed(settings) && NothingManaged(settings, k)
    ensures Removed(Merged(settings, k), k) ==
      if !MergeChanges(settings, k) then settings
      else if NonEmpty(HooksOf(settings)) == map[] then settings - {HOOKS}
      else settings[HOOKS := Obj(NonEmpty(HooksOf(settings)))]
  {
    if MergeChanges(settings, k) {
      assert RemoveChanges(Merged(settings, k), k) by {
        var e :| e in k.events && EventChanges(EventOf(HooksOf(settings), e), k);
        ChangeIsInsertion(settings, k, e);
      }
      CleanOfMerged(settings, k);
      RemovedOf(settings, Merged(settings, k), MergedHooks(HooksOf(settings), k), k);
    }
  }

  /**
   For settings with nothing managed in them, removing undoes merging exactly when the merge changed
   nothing, or no event array and no hooks object was empty.
   */
  lemma RemoveUndoesMerge(settings: Fields, k: Markers)
    requires ValidMarkers(k) && SettingsFormed(settings) && NothingManaged(settings, k)
    ensures Removed(Merged(settings, k), k) == settings <==> !MergeChanges(settings, k) || NothingEmpty(settings)
  {
    RemovedOfMerged(settings, k);
    if NothingEmpty(settings) {
      NothingIsLost(settings);
    } else {
      SomethingIsLost(settings);
    }
  }

  lemma NothingIsLost(settings: Fields)
    requires NothingEmpty(settings) && SettingsFormed(settings)
    ensures NonEmpty(HooksOf(settings)) == HooksOf(settings)
    ensures HOOKS in settings ==> settings[HOOKS := Obj(HooksOf(settings))] == settings
    ensures HOOKS !in settings ==> settings - {HOOKS} == settings
  {
  }

  lemma SomethingIsLost(settings: Fields)
    requires !NothingEmpty(settings) && SettingsFormed(settings)
    ensures HOOKS in settings && settings - {HOOKS} != settings
    ensures NonEmpty(HooksOf(settings)) == map[] || settings[HOOKS := Obj(NonEmpty(HooksOf(settings)))] != settings
  {
    var hooks := HooksOf(settings);
    assert HOOKS in settings && HOOKS !in settings - {HOOKS};
    if e :| e in hooks && EventOf(hooks, e) == [] {
      assert e !in NonEmpty(hooks);
      assert settings[HOOKS] == Obj(hooks);
    } else {
      assert NonEmpty(hooks) == map[];
    }
  }

  // ---------- step by step ----------

  /** One matcher's commands without the managed ones. */
  method StripCommands(commands: seq<Json>, k: Markers) returns (r: Outcome<(seq<Json>, bool)>)
    ensures r.Done? <==> CommandsFormed(commands)
    ensures r.Done? ==> r.value == (Unmanaged(commands, k), CountManaged(commands, k) > 0)
  {
    var next: seq<Json>, removed := [], false;
    var i := 0;
    while i < |commands|
      invariant 0 <= i <= |commands| && (CommandsFormed(commands) <==> CommandsFormed(commands[i..]))
      invariant Unmanaged(commands, k) == next + Unmanaged(commands[i..], k)
      invariant CountManaged(commands, k) > 0 <==> removed || CountManaged(commands[i..], k) > 0
    {
      var command := commands[i];
      assert commands[i..][1..] == commands[i + 1..];
      if !command.Obj? {
        return Bad(CommandNotObject);
      }
      if k.managed(TextOf(command)) {
        removed := true;
      } else {
        next := next + [command];
      }
      i := i + 1;
    }
    assert commands[i..] == [] && next + [] == next;
    return Done((next, removed));
  }

  /** Managed commands go, and with them a matcher that was there for nothing else. */
  method StripOne(matcher: Json, k: Markers) returns (r: Outcome<(seq<Json>, bool)>)
    ensures r.Done? <==> MatcherFormed(matcher)
    ensures r.Done? ==> r.value == (StripMatcher(matcher, k), CountManaged(CommandsOf(matcher), k) > 0)
  {
    if !matcher.Obj? {
      return Bad(EntryNotObject);
    }
    if HOOKS !in matcher.fields {
      return Done(([matcher], false));
    }
    if !matcher.fields[HOOKS].Arr? {
      return Bad(EntryHooksNotArray);
    }
    var commands := matcher.fields[HOOKS].items;
    var stripped := StripCommands(commands, k);
    if stripped.Bad? {
      return Bad(stripped.fault);
    }
    var (next, removed) := stripped.value;
    if !removed {
      return Done(([matcher], false));
    }
    if next == [] && IsPlain(matcher.fields, commands) {
      return Done(([], true));
    }
    return Done(([Obj(matcher.fields[HOOKS := Arr(next)])], true));
  }

  method StripManagedFromEvent(matchers: seq<Json>, k: Markers) returns (r: Outcome<(seq<Json>, bool)>)
    ensures r.Done? <==> EventFormed(matchers)
    ensures r.Done? ==> r.value == (Strip(matchers, k), CountManaged(Commands(matchers), k) > 0)
  {
    var next: seq<Json>, removed := [], false;
    var i := 0;
    while i < |matchers|
      invariant 0 <= i <= |matchers| && (EventFormed(matchers) <==> EventFormed(matchers[i..]))
      invariant Strip(matchers, k) == next + Strip(matchers[i..], k)
      invariant CountManaged(Commands(matchers), k) > 0 <==> removed || CountManaged(Commands(matchers[i..]), k) > 0
    {
      assert matchers[i..][1..] == matchers[i + 1..];
      UnmanagedAppend(CommandsOf(matchers[i]), Commands(matchers[i + 1..]), k);
      var one := StripOne(matchers[i], k);
      if one.Bad? {
        return Bad(one.fault);
      }
      next, removed := next + one.value.0, removed || one.value.1;
      i := i + 1;
    }
    assert matchers[i..] == [] && next + [] == next;
    return Done((next, removed));
  }

  /** How many managed commands there are, and how many of them are the current one. */
  method ManagedCommandCounts(matchers: seq<Json>, k: Markers) returns (total: nat, current: nat)
    requires EventFormed(matchers)
    ensures total == CountManaged(Commands(matchers), k) && current == CountCurrent(Commands(matchers), k)
  {
    total, current := 0, 0;
    var i := 0;
    while i < |matchers|
      invariant 0 <= i <= |matchers|
      invariant CountManaged(Commands(matchers), k) == total + CountManaged(Commands(matchers[i..]), k)
      invariant CountCurrent(Commands(matchers), k) == current + CountCurrent(Commands(matchers[i..]), k)
    {
      var commands := CommandsOf(matchers[i]);
      assert matchers[i..][1..] == matchers[i + 1..];
      UnmanagedAppend(commands, Commands(matchers[i + 1..]), k);
      var t, c := CountCommands(commands, k);
      total, current := total + t, current + c;
      i := i + 1;
    }
  }

  method CountCommands(commands: seq<Json>, k: Markers) returns (total: nat, current: nat)
    ensures total == CountManaged(commands, k) && current == CountCurrent(commands, k)
  {
    total, current := 0, 0;
    var i := 0;
    while i < |commands|
      invariant 0 <= i <= |commands|
      invariant CountManaged(commands, k) == total + CountManaged(commands[i..], k)
      invariant CountCurrent(commands, k) == current + CountCurrent(commands[i..], k)
    {
      assert commands[i..][1..] == commands[i + 1..];
      if IsManaged(commands[i], k) {
        total := total + 1;
        if IsCurrent(commands[i], k) {
          current := current + 1;
        }
      }
      i := i + 1;
    }
  }

  lemma FromMatcher(matchers: seq<Json>, i: nat, k: Markers)
    requires i < |matchers|
    ensures EventFormed(matchers[i..]) <==> MatcherFormed(matchers[i]) && EventFormed(matchers[i + 1..])
    ensures HasBare(Commands(matchers[i..]), k) <==> HasBare(CommandsOf(matchers[i]), k) || HasBare(Commands(matchers[i + 1..]), k)
  {
    assert matchers[i..][1..] == matchers[i + 1..];
    UnmanagedAppend(CommandsOf(matchers[i]), Commands(matchers[i + 1..]), k);
  }

  /** Stops at the first bare hook, before it looks at what comes after it. */
  method EventHasBareHook(matchers: seq<Json>, k: Markers) returns (r: Outcome<bool>)
    ensures EventFormed(matchers) ==> r == Done(HasBare(Commands(matchers), k))
    ensures !EventFormed(matchers) ==> r.Bad? || r == Done(true)
  {
    var i := 0;
    while i < |matchers|
      invariant 0 <= i <= |matchers| && (EventFormed(matchers) <==> EventFormed(matchers[i..]))
      invariant HasBare(Commands(matchers), k) <==> HasBare(Commands(matchers[i..]), k)
    {
      FromMatcher(matchers, i, k);
      var one := MatcherHasBareHook(matchers[i], k);
      if one.Bad? || one.value {
        return one;
      }
      i := i + 1;
    }
    return Done(false);
  }

  method MatcherHasBareHook(matcher: Json, k: Markers) returns (r: Outcome<bool>)
    ensures MatcherFormed(matcher) ==> r == Done(HasBare(CommandsOf(matcher), k))
    ensures !MatcherFormed(matcher) ==> r.Bad? || r == Done(true)
  {
    if !matcher.Obj? {
      return Bad(EntryNotObject);
    }
    if HOOKS !in matcher.fields {
      return Done(false);
    }
    if !matcher.fields[HOOKS].Arr? {
      return Bad(EntryHooksNotArray);
    }
    var commands := matcher.fields[HOOKS].items;
    var i := 0;
    while i < |commands|
      invariant 0 <= i <= |commands| && (CommandsFormed(commands) <==> CommandsFormed(commands[i..]))
      invariant HasBare(commands, k) <==> HasBare(commands[i..], k)
    {
      assert commands[i..][1..] == commands[i + 1..];
      if !commands[i].Obj? {
        return Bad(CommandNotObject);
      }
      if k.bare(TextOf(commands[i])) {
        return Done(true);
      }
      i := i + 1;
    }
    return Done(false);
  }

  /** One managed event: strip where the user has a bare hook, leave what is current, else strip and insert. */
  method MergeEvent(hooks: Fields, event: string, k: Markers) returns (r: Outcome<Fields>, changed: bool, bare: bool)
    ensures r.Done? <==> EventSound(hooks, event)
    ensures r.Done? ==> r.value == MergedOne(hooks, event, k)
    ensures r.Done? ==> changed == EventChanges(EventOf(hooks, event), k) && bare == HasBare(Commands(EventOf(hooks, event)), k)
  {
    changed, bare := false, false;
    if event in hooks && !hooks[event].Arr? {
      return Bad(EventNotArray), false, false;
    }
    var matchers := EventOf(hooks, event);
    var found := EventHasBareHook(matchers, k);
    if found.Bad? {
      return Bad(found.fault), false, false;
    }
    bare := found.value;
    if !bare {
      var total, current := ManagedCommandCounts(matchers, k);
      if total == 1 && current == 1 {
        return Done(hooks), false, false;
      }
    }
    var stripped := StripManagedFromEvent(matchers, k);
    if stripped.Bad? {
      return Bad(stripped.fault), false, bare;
    }
    var (next, removed) := stripped.value;
    if !bare {
      return Done(hooks[event := Arr(next + [ManagedMatcher(k)])]), true, false;
    }
    return Done(if removed then hooks[event := Arr(next)] else hooks), removed, true;
  }

  /** The fields of a settings document; an empty one and a null count as having none. */
  function Decoded(doc: Option<Json>): Option<Fields> {
    if doc.None? || doc.value.Null? then Some(map[])
    else if doc.value.Obj? then Some(doc.value.fields)
    else None
  }

  /** Merging one event leaves another as it is. */
  lemma MergedElsewhere(hooks: Fields, event: string, other: string, k: Markers)
    requires event != other
    ensures EventOf(MergedOne(hooks, event, k), other) == EventOf(hooks, other)
    ensures EventSound(MergedOne(hooks, event, k), other) <==> EventSound(hooks, other)
  {
  }

  method MergeAll(hooks: Fields, k: Markers) returns (r: Outcome<Fields>, changed: bool, warned: seq<string>)
    requires ValidMarkers(k)
    ensures r.Done? <==> forall e :: e in k.events ==> EventSound(hooks, e)
    ensures r.Done? ==> r.value == MergedHooks(hooks, k)
    ensures r.Done? ==> changed == exists e :: e in k.events && EventChanges(EventOf(hooks, e), k)
    ensures r.Done? ==> forall e :: e in warned <==> e in k.events && HasBare(Commands(EventOf(hooks, e)), k)
  {
    var e0, e1 := k.events[0], k.events[1];
    assert forall e :: e in k.events <==> e == e0 || e == e1;
    var first, changed0, bare0 := MergeEvent(hooks, e0, k);
    if first.Bad? {
      return first, false, [];
    }
    MergedElsewhere(hooks, e0, e1, k);
    var second, changed1, bare1 := MergeEvent(first.value, e1, k);
    warned := (if bare0 then [e0] else []) + if bare1 then [e1] else [];
    return second, changed0 || changed1, warned;
  }

  method MergeClaudeHooks(doc: Option<Json>, k: Markers) returns (r: Outcome<Json>, changed: bool, warned: seq<string>)
    requires ValidMarkers(k)
    ensures r.Done? <==> Decoded(doc).Some? && MergeFormed(Decoded(doc).value, k)
    ensures r.Done? ==> changed == MergeChanges(Decoded(doc).value, k)
    ensures r.Done? && changed ==> r.value == Obj(Merged(Decoded(doc).value, k))
    ensures r.Done? && !changed ==> r.value == if doc.Some? then doc.value else Obj(map[])
    ensures r.Done? ==>
      forall e :: e in warned <==> e in k.events && HasBare(Commands(EventOf(HooksOf(Decoded(doc).value), e)), k)
  {
    changed, warned := false, [];
    var settings := Decoded(doc);
    if settings.None? {
      return Bad(Malformed), false, [];
    }
    if HOOKS in settings.value && !settings.value[HOOKS].Obj? {
      return Bad(HooksNotObject), false, [];
    }
    var hooks;
    hooks, changed, warned := MergeAll(HooksOf(settings.value), k);
    if hooks.Bad? {
      return Bad(hooks.fault), false, [];
    }
    if !changed {
      return Done(if doc.Some? then doc.value else Obj(map[])), false, warned;
    }
    return Done(Obj(settings.value[HOOKS := Obj(hooks.value)])), true, warned;
  }

  /** `hooks` where the events that are not pending are cleaned. */
  ghost predicate PartlyClean(hooks: Fields, now: Fields, pending: set<string>, k: Markers) {
    && (forall e :: e in now <==> e in hooks && (e in pending || e in CleanHooks(hooks, k)))
    && (forall e :: e in now ==> now[e] == if e in pending then hooks[e] else CleanHooks(hooks, k)[e])
  }

  method CleanEvent(hooks: Fields, now: Fields, ghost pending: set<string>, event: string, k: Markers)
    returns (r: Outcome<Fields>, removed: bool)
    requires PartlyClean(hooks, now, pending, k) && event in pending && event in hooks
    ensures r.Done? <==> EventSound(hooks, event)
    ensures r.Done? ==> PartlyClean(hooks, r.value, pending - {event}, k)
    ensures r.Done? ==> removed == (CountManaged(Commands(EventOf(hooks, event)), k) > 0)
  {
    removed := false;
    if !now[event].Arr? {
      return Bad(EventNotArray), false;
    }
    var stripped := StripManagedFromEvent(now[event].items, k);
    if stripped.Bad? {
      return Bad(stripped.fault), false;
    }
    var (next, some) := stripped.value;
    removed := some;
    return Done(if next == [] then now - {event} else now[event := Arr(next)]), removed;
  }

  /** Cleans the events as the map gives them. */
  method CleanAll(hooks: Fields, k: Markers) returns (r: Outcome<Fields>, changed: bool)
    ensures r.Done? <==> HooksSound(hooks)
    ensures r.Done? ==> r.value == CleanHooks(hooks, k) && changed == HoldsManaged(hooks, k)
  {
    var now, pending := hooks, hooks.Keys;
    changed := false;
    while pending != {}
      invariant pending <= hooks.Keys && PartlyClean(hooks, now, pending, k)
      invariant forall e :: e in hooks && e !in pending ==> EventSound(hooks, e)
      invariant changed <==> exists e :: e in hooks && e !in pending && CountManaged(Commands(EventOf(hooks, e)), k) > 0
      decreases |pending|
    {
      var event :| event in pending;
      var cleaned, removed := CleanEvent(hooks, now, pending, event, k);
      if cleaned.Bad? {
        return cleaned, false;
      }
      now, pending, changed := cleaned.value, pending - {event}, changed || removed;
    }
    assert now == CleanHooks(hooks, k);
    return Done(now), changed;
  }

  method RemoveClaudeManagedHooks(doc: Option<Json>, k: Markers) returns (r: Outcome<Option<Json>>, changed: bool)
    ensures r.Done? <==> Decoded(doc).Some? && SettingsFormed(Decoded(doc).value)
    ensures r.Done? ==> changed == RemoveChanges(Decoded(doc).value, k)
    ensures r.Done? ==> r.value == if changed then Some(Obj(Removed(Decoded(doc).value, k))) else doc
  {
    changed := false;
    var settings := Decoded(doc);
    if settings.None? {
      return Bad(Malformed), false;
    }
    if HOOKS !in settings.value {
      return Done(doc), false;
    }
    if !settings.value[HOOKS].Obj? {
      return Bad(HooksNotObject), false;
    }
    var cleaned;
    assert HooksOf(settings.value) == settings.value[HOOKS].fields;
    cleaned, changed := CleanAll(settings.value[HOOKS].fields, k);
    if cleaned.Bad? {
      return Bad(cleaned.fault), false;
    }
    if !changed {
      return Done(doc), false;
    }
    var hooks := cleaned.value;
    return Done(Some(Obj(if hooks == map[] then settings.value - {HOOKS} else settings.value[HOOKS := Obj(hooks)]))), true;
  }
}
