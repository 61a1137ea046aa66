/**
 The install directory as cc-clip and everybody else see it: a map from names to entries.

 Every call cc-clip makes to the file system is one method of `Directory`, and each such call first
 takes a turn of `schedule`. A turn may let other processes rewrite all shared names in any way, and
 may make the call fail. Quantifying over schedules is quantifying over interleavings and over faults.
 */
module Directories {
  import opened Text
  import opened Wrappers

  const ADOPTED_SUFFIX := ".cc-clip-real"
  const SHIM_OWNER_MARKER := "# Installed by: cc-clip install"
  const SHIM_HEADER_BYTES := 512

  // A symbolic link carries the place it leads to and whether a regular file is there.
  datatype Kind = Regular | Symlink(target: string, live: bool) | Other

  // `content` is what opening the entry yields, which for a link is the content of its target.
  // `Scratch` is a temporary file cc-clip made itself and has not published under a shared name.
  datatype Entry =
    | File(id: nat, kind: Kind, readable: bool, content: string)
    | Scratch

  // Private names carry a random nonce, so no other process acts on them.
  datatype Name = Shared(file: string) | Private(nonce: nat)

  type Path = n: Name | n.Shared? witness Shared("")

  type Entries = map<Name, Entry>

  function Sidecar(path: Path): (s: Path)
    ensures s != path
  {
    assert |path.file + ADOPTED_SUFFIX| > |path.file|;
    Shared(path.file + ADOPTED_SUFFIX)
  }

  function Header(content: string): string {
    if |content| <= SHIM_HEADER_BYTES then content else content[..SHIM_HEADER_BYTES]
  }

  predicate Marked(e: Entry) {
    e.File? && e.readable && Contains(Header(e.content), SHIM_OWNER_MARKER)
  }

  predicate IsShim(e: Entry) {
    e.File? && e.kind.Regular? && Marked(e)
  }

  /** The owner's mark stands at this position, within the first 512 characters. */
  ghost predicate MarkedAt(content: string, i: int) {
    0 <= i && i + 31 <= |content| && i + 31 <= 512 && content[i..i + 31] == "# Installed by: cc-clip install"
  }

  /** A shim of ours is a readable regular file, no link, with the mark near its start; nothing else is one. */
  lemma OwnershipMeans(e: Entry)
    ensures IsShim(e) <==> e.File? && e.kind.Regular? && e.readable && exists i :: MarkedAt(e.content, i)
  {
    if e.File? {
      var h := Header(e.content);
      assert |SHIM_OWNER_MARKER| == 31;
      forall i | 0 <= i <= |h| ensures HasPrefix(h[i..], SHIM_OWNER_MARKER) <==> MarkedAt(e.content, i) {
        if i + 31 <= |h| {
          assert h[i..][..31] == e.content[i..i + 31];
        }
      }
    }
  }

  /** A program or anything else that cc-clip neither wrote nor made as a scratch file. */
  predicate Foreign(e: Entry) {
    e.File? && !IsShim(e)
  }

  predicate RegularAt(es: Entries, n: Name) {
    n in es && es[n].File? && es[n].kind.Regular?
  }

  /** The part of the directory other processes and the user see and touch. */
  function Visible(es: Entries): Entries {
    map n | n in es && n.Shared? :: es[n]
  }

  function Swapped(es: Entries, a: Name, b: Name): Entries
    requires a in es && b in es
  {
    es[a := es[b]][b := es[a]]
  }

  // ---------- steps ----------

  datatype Op =
    | Interference
    | Created(name: Name)
    | Moved(from: Name, to: Name)
    | Exchanged(a: Name, b: Name)
    | Filled(name: Name)
    | Renamed(from: Name, to: Name)
    | Unlinked(name: Name)

  datatype Step = Step(op: Op, before: Entries, after: Entries)

  ghost predicate LinkedAt(log: seq<Step>, i: int) {
    0 < i < |log| && log[i].before == log[i - 1].after
  }

  /** The log leaves no change out: each step starts where the one before it ended. */
  ghost predicate Chained(log: seq<Step>) {
    forall i {:trigger LinkedAt(log, i)} :: 0 < i < |log| ==> LinkedAt(log, i)
  }

  /** What `after` must still hold of `before`: every foreign entry, in its place or under one of `homes`. */
  ghost predicate KeepsForeign(s: Step, homes: set<Name>) {
    forall n :: n in s.before && Foreign(s.before[n]) ==>
      || (n in s.after && s.after[n] == s.before[n])
      || (n in homes && Housed(s.before[n], s.after, homes))
  }

  ghost predicate Housed(e: Entry, es: Entries, homes: set<Name>) {
    exists m :: m in homes && m in es && es[m] == e
  }

  /** An unlink hits a private name; it removes scratch or, at one of `graves`, a shim inspected there. */
  ghost predicate UnlinksOnlyOwn(s: Step, graves: set<Name>) {
    s.op.Unlinked? ==>
      && s.op.name.Private? && s.op.name in s.before
      && (s.before[s.op.name].Scratch? || (IsShim(s.before[s.op.name]) && s.op.name in graves))
  }

  ghost predicate TouchesOnly(s: Step, homes: set<Name>) {
    forall n: Name :: n.Shared? && n !in homes ==>
      (n in s.before <==> n in s.after) && (n in s.before ==> s.before[n] == s.after[n])
  }

  /** One step of cc-clip that no concurrent writer can regret. */
  ghost predicate Safe(s: Step, homes: set<Name>, graves: set<Name>) {
    s.op.Interference? || (KeepsForeign(s, homes) && UnlinksOnlyOwn(s, graves) && TouchesOnly(s, homes))
  }

  // The properties of a stretch of log are stated through one `...At` predicate each, so that they
  // are carried along whole and opened only by the lemmas at the end of this module.

  ghost predicate SafeAt(log: seq<Step>, i: int, homes: set<Name>, graves: set<Name>) {
    0 <= i < |log| && Safe(log[i], homes, graves)
  }

  /** `b` continues `a`, and every step since then is safe. */
  ghost predicate Safely(a: seq<Step>, b: seq<Step>, homes: set<Name>, graves: set<Name>) {
    a <= b && forall i {:trigger SafeAt(b, i, homes, graves)} :: |a| <= i < |b| ==> SafeAt(b, i, homes, graves)
  }

  /** The call names no shared entry. */
  predicate OnPrivate(op: Op) {
    match op
    case Interference => true
    case Created(n) => n.Private?
    case Moved(from, to) => from.Private? && to.Private?
    case Exchanged(a, b) => a.Private? && b.Private?
    case Filled(n) => n.Private?
    case Renamed(from, to) => from.Private? && to.Private?
    case Unlinked(n) => n.Private?
  }

  ghost predicate InvisibleAt(log: seq<Step>, i: int) {
    0 <= i < |log| && OnPrivate(log[i].op) && (log[i].op.Interference? || Visible(log[i].before) == Visible(log[i].after))
  }

  /** `b` continues `a`, and cc-clip has since called for no shared name and changed nothing that others can see. */
  ghost predicate Invisibly(a: seq<Step>, b: seq<Step>) {
    a <= b && forall i {:trigger InvisibleAt(b, i)} :: |a| <= i < |b| ==> InvisibleAt(b, i)
  }

  ghost predicate OthersAt(log: seq<Step>, i: int) {
    0 <= i < |log| && log[i].op.Interference?
  }

  /** `b` continues `a`, and cc-clip has made no step up to position `end`. */
  ghost predicate Idly(a: seq<Step>, b: seq<Step>, end: int) {
    a <= b && forall i {:trigger OthersAt(b, i)} :: |a| <= i < end ==> OthersAt(b, i)
  }

  /** `b` continues `a` by moves of others and then one step of cc-clip. */
  ghost predicate Stepped(a: seq<Step>, b: seq<Step>, op: Op) {
    |a| < |b| && Idly(a, b, |b| - 1) && b[|b| - 1].op == op
  }

  /** `b` continues `a` by steps that are safe and that nobody else can see. */
  ghost predicate Covertly(a: seq<Step>, b: seq<Step>) {
    Safely(a, b, {}, {}) && Invisibly(a, b)
  }

  /** A rename without replacing, and an exchange, that went through on private names. */
  ghost predicate ShowsMove(s: Step) {
    s.op.Moved? && OnPrivate(s.op)
  }

  ghost predicate ShowsExchange(s: Step) {
    s.op.Exchanged? && OnPrivate(s.op)
  }

  ghost predicate ShownAt(log: seq<Step>, i: int, swap: bool) {
    0 <= i < |log| && if swap then ShowsExchange(log[i]) else ShowsMove(log[i])
  }

  /** Between the end of `a` and position `n` of `b` the rename, or with `swap` the exchange, was shown to work. */
  ghost predicate Shown(a: seq<Step>, b: seq<Step>, n: int, swap: bool) {
    exists i {:trigger ShownAt(b, i, swap)} :: |a| <= i < n && ShownAt(b, i, swap)
  }

  ghost predicate ProvenAt(a: seq<Step>, b: seq<Step>, n: int, exchange: bool) {
    Shown(a, b, n, false) && (exchange ==> Shown(a, b, n, true))
  }

  ghost predicate FirstProvenAt(a: seq<Step>, b: seq<Step>, n: int, exchange: bool) {
    0 <= n < |b| && (OnPrivate(b[n].op) || ProvenAt(a, b, n, exchange))
  }

  /** Since `a`, no call named a shared entry before the primitives had been shown to work on private ones. */
  ghost predicate FirstProven(a: seq<Step>, b: seq<Step>, exchange: bool) {
    forall n {:trigger FirstProvenAt(a, b, n, exchange)} :: |a| <= n < |b| ==> FirstProvenAt(a, b, n, exchange)
  }

  // ---------- turns ----------

  datatype Turn = Turn(others: Option<Entries>, fault: bool)

  ghost predicate Alone(schedule: seq<Turn>) {
    forall t :: t in schedule ==> t.others.None?
  }

  ghost predicate Quiet(schedule: seq<Turn>) {
    forall t :: t in schedule ==> t.others.None? && !t.fault
  }

  /** The next call fails. */
  function NextFault(schedule: seq<Turn>): bool {
    schedule != [] && schedule[0].fault
  }

  /** The turns after the next call; a schedule that is over is calm. */
  function RestOf(schedule: seq<Turn>): seq<Turn> {
    if schedule == [] then [] else schedule[1..]
  }

  /** Nobody else acts, and of all calls only the one after the next `n` fails. */
  ghost predicate OneFault(schedule: seq<Turn>, n: nat) {
    Alone(schedule) && n < |schedule| && forall i :: 0 <= i < |schedule| ==> (schedule[i].fault <==> i == n)
  }

  lemma OneFaultNears(schedule: seq<Turn>, n: nat)
    requires OneFault(schedule, n)
    ensures NextFault(schedule) <==> n == 0
    ensures if n == 0 then Quiet(RestOf(schedule)) else OneFault(RestOf(schedule), n - 1)
  {
    var rest := RestOf(schedule);
    assert forall i :: 0 <= i < |rest| ==> rest[i] == schedule[i + 1];
  }

  /** None of the next `n` calls fails. */
  ghost predicate Spared(schedule: seq<Turn>, n: nat) {
    forall i :: 0 <= i < n && i < |schedule| ==> !schedule[i].fault
  }

  lemma SparedNears(schedule: seq<Turn>, n: nat)
    ensures Spared(schedule, 0)
    ensures n > 0 ==> (Spared(schedule, n) <==> !NextFault(schedule) && Spared(RestOf(schedule), n - 1))
  {
    var rest := RestOf(schedule);
    assert forall i :: 0 <= i < |rest| ==> rest[i] == schedule[i + 1];
    if n > 0 && !NextFault(schedule) && Spared(rest, n - 1) {
      forall i | 0 <= i < n && i < |schedule| ensures !schedule[i].fault {
        assert i > 0 ==> schedule[i] == rest[i - 1];
      }
    }
  }

  function Rewritten(es: Entries, others: Entries): Entries {
    (map n | n in es && n.Private? :: es[n])
    + map n | n in others && n.Shared? && others[n].File? :: others[n]
  }

  datatype Stat = Found(entry: Entry) | Missing | Unknown

  /** Two directories agree on every private name outside `except`. */
  ghost predicate PrivateAgree(a: Entries, b: Entries, except: set<Name>) {
    forall n: Name :: n.Private? && n !in except ==> (n in a <==> n in b) && (n in a ==> a[n] == b[n])
  }

  class Directory {
    var entries: Entries
    var schedule: seq<Turn>
    var nextNonce: nat
    ghost var log: seq<Step>

    ghost predicate Valid()
      reads this
    {
      && (forall n :: n in entries && n.Private? ==> n.nonce < nextNonce)
      && Chained(log)
      && (log != [] ==> log[|log| - 1].after == entries)
    }

    constructor (start: Entries, schedule: seq<Turn>)
      requires forall n :: n in start ==> n.Shared?
      ensures Valid() && entries == start && this.schedule == schedule && log == []
    {
      entries := start;
      this.schedule := schedule;
      nextNonce := 0;
      log := [];
    }

    /** What every call guarantees about the log, the nonces and a calm schedule. */
    twostate predicate Continues()
      reads this
    {
      && Valid()
      && old(log) <= log
      && old(nextNonce) <= nextNonce
      && (old(Alone(schedule)) ==> Alone(schedule))
      && (old(Quiet(schedule)) ==> Quiet(schedule))
    }

    /** A call that only looks: whatever changed since, others changed it. */
    twostate predicate Looks()
      reads this
    {
      && Continues()
      && nextNonce == old(nextNonce)
      && PrivateAgree(old(entries), entries, {})
      && Idly(old(log), log, |log|)
      && (old(Alone(schedule)) ==> entries == old(entries) && log == old(log))
    }

    /** Let the others act, then say whether the call that follows is going to fail. */
    method Await() returns (fault: bool)
      requires Valid()
      modifies this
      ensures Looks() && fault == NextFault(old(schedule)) && schedule == RestOf(old(schedule))
      ensures old(Quiet(schedule)) ==> !fault
    {
      if schedule == [] {
        return false;
      }
      var turn := schedule[0];
      schedule := schedule[1..];
      fault := turn.fault;
      if turn.others.Some? {
        var next := Rewritten(entries, turn.others.value);
        ChainedThen(log, Step(Interference, entries, next));
        log := log + [Step(Interference, entries, next)];
        entries := next;
      }
    }

    method Lstat(n: Name) returns (r: Stat)
      requires Valid()
      modifies this
      ensures Looks() && schedule == RestOf(old(schedule)) && (r.Unknown? <==> NextFault(old(schedule)))
      ensures r.Found? ==> n in entries && r.entry == entries[n]
      ensures r.Missing? ==> n !in entries
      ensures old(Quiet(schedule)) ==> !r.Unknown?
    {
      var fault := Await();
      r := if fault then Unknown else if n in entries then Found(entries[n]) else Missing;
    }

    /** Lstat, then open and read: on a shared name the two may see different entries. */
    method IsOurShim(n: Name) returns (ours: bool)
      requires Valid()
      modifies this
      ensures Looks()
      ensures ours && (n.Private? || old(Alone(schedule))) ==> n in entries && IsShim(entries[n])
      ensures old(Quiet(schedule)) ==> ours == (n in entries && IsShim(entries[n]))
      // One call for anything that is no regular file, else two.
      ensures old(Alone(schedule)) ==> var rest := RestOf(old(schedule));
        schedule == if !NextFault(old(schedule)) && RegularAt(entries, n) then RestOf(rest) else rest
    {
      var stat := Lstat(n);
      if !stat.Found? || !stat.entry.File? || !stat.entry.kind.Regular? {
        return false;
      }
      ghost var seen := log;
      var fault := Await();
      IdleThenIdle(old(log), seen, log);
      if fault || n !in entries || !entries[n].File? || !entries[n].readable {
        return false;
      }
      ours := Contains(Header(entries[n].content), SHIM_OWNER_MARKER);
    }

    /** Record and perform one step of cc-clip. */
    method Commit(op: Op, next: Entries, ghost since: seq<Step>)
      requires Valid() && Idly(since, log, |log|)
      requires forall n :: n in next && n.Private? ==> n.nonce < nextNonce
      modifies this`entries, this`log
      ensures Valid() && entries == next && log == old(log) + [Step(op, old(entries), next)]
      ensures Stepped(since, log, op)
    {
      IdleThenStep(since, log, Step(op, entries, next));
      ChainedThen(log, Step(op, entries, next));
      log := log + [Step(op, entries, next)];
      entries := next;
    }

    /** A name with a nonce nobody uses; drawing it may fail. */
    method DrawName() returns (n: Option<Name>)
      requires Valid()
      modifies this
      ensures Continues() && Idly(old(log), log, |log|) && PrivateAgree(old(entries), entries, {})
      ensures schedule == RestOf(old(schedule)) && (n.None? <==> NextFault(old(schedule)))
      ensures n.Some? ==> n.value.Private? && n.value !in entries && old(nextNonce) <= n.value.nonce < nextNonce
      ensures old(Alone(schedule)) ==> entries == old(entries) && log == old(log)
      ensures old(Quiet(schedule)) ==> n.Some?
    {
      var fault := Await();
      if fault {
        return None;
      }
      n := Some(Private(nextNonce));
      nextNonce := nextNonce + 1;
    }

    /** os.CreateTemp: a fresh private name holding a scratch file. */
    method Create() returns (n: Option<Name>)
      requires Valid()
      modifies this
      ensures Continues() && schedule == RestOf(old(schedule)) && (n.None? <==> NextFault(old(schedule)))
      ensures n.Some? ==> n.value.Private? && old(nextNonce) <= n.value.nonce
      ensures n.Some? ==> n.value in entries && entries[n.value] == Scratch
      ensures n.Some? ==> Stepped(old(log), log, Created(n.value)) && PrivateAgree(old(entries), entries, {n.value})
      ensures n.None? ==> Idly(old(log), log, |log|) && PrivateAgree(old(entries), entries, {})
      ensures Covertly(old(log), log)
      ensures old(Alone(schedule)) ==>
        entries == if n.Some? then old(entries)[n.value := Scratch] else old(entries)
      ensures old(Quiet(schedule)) ==> n.Some?
    {
      n := DrawName();
      IdleIsInvisible(old(log), log);
      if n.Some? {
        Commit(Created(n.value), entries[n.value := Scratch], old(log));
        OneSafeStep(old(log), log, Created(n.value), {}, {});
        OneInvisibleStep(old(log), log, Created(n.value));
      }
    }

    /** rename with RENAME_NOREPLACE. */
    method MoveNoReplace(from: Name, to: Name) returns (ok: bool)
      requires Valid() && from != to
      requires to.Private? ==> to.nonce < nextNonce
      modifies this
      ensures Continues() && nextNonce == old(nextNonce) && schedule == RestOf(old(schedule))
      ensures Safely(old(log), log, {from, to}, {})
      ensures from.Private? && to.Private? ==> Invisibly(old(log), log)
      ensures from.Private? && to.Private? && from in old(entries) && old(entries)[from].Scratch? ==> Safely(old(log), log, {}, {})
      ensures !ok ==> Looks()
      ensures ok ==> Stepped(old(log), log, Moved(from, to)) && PrivateAgree(old(entries), entries, {from, to})
      ensures ok ==> from !in entries && to in entries
      ensures ok && from.Private? ==> from in old(entries) && entries[to] == old(entries)[from]
      ensures old(Alone(schedule)) && ok ==>
        from in old(entries) && to !in old(entries) && entries == (old(entries) - {from})[to := old(entries)[from]]
      ensures old(Alone(schedule)) ==> (ok <==> !NextFault(old(schedule)) && from in old(entries) && to !in old(entries))
      ensures old(Quiet(schedule)) ==> ok == (from in old(entries) && to !in old(entries))
    {
      var fault := Await();
      IdleIsInvisible(old(log), log);
      if fault || from !in entries || to in entries {
        return false;
      }
      MoveIsSafe(entries, from, to);
      Commit(Moved(from, to), (entries - {from})[to := entries[from]], old(log));
      OneSafeStep(old(log), log, Moved(from, to), {from, to}, {});
      if from.Private? && to.Private? && old(entries)[from].Scratch? {
        OneSafeStep(old(log), log, Moved(from, to), {}, {});
      }
      if from.Private? && to.Private? {
        OneInvisibleStep(old(log), log, Moved(from, to));
      }
      return true;
    }

    /** rename with RENAME_EXCHANGE. */
    method Exchange(a: Name, b: Name) returns (ok: bool)
      requires Valid() && a != b && (a.Shared? <==> b.Shared?)
      modifies this
      ensures Continues() && nextNonce == old(nextNonce) && schedule == RestOf(old(schedule))
      ensures Safely(old(log), log, {a, b}, {})
      ensures a.Private? && a in old(entries) && b in old(entries) && old(entries)[a].Scratch? && old(entries)[b].Scratch? ==>
        Covertly(old(log), log)
      ensures !ok ==> Looks()
      ensures ok ==> Stepped(old(log), log, Exchanged(a, b)) && PrivateAgree(old(entries), entries, {a, b})
      ensures ok ==> a in log[|log| - 1].before && b in log[|log| - 1].before
      ensures ok ==> entries == Swapped(log[|log| - 1].before, a, b)
      ensures ok && a.Private? ==>
        a in old(entries) && b in old(entries) && entries[a] == old(entries)[b] && entries[b] == old(entries)[a]
      ensures old(Alone(schedule)) && ok ==>
        a in old(entries) && b in old(entries) && entries == Swapped(old(entries), a, b)
      ensures old(Alone(schedule)) ==> (ok <==> !NextFault(old(schedule)) && a in old(entries) && b in old(entries))
      ensures old(Quiet(schedule)) ==> ok == (a in old(entries) && b in old(entries))
    {
      var fault := Await();
      IdleIsInvisible(old(log), log);
      if fault || a !in entries || b !in entries {
        return false;
      }
      ExchangeIsSafe(entries, a, b);
      Commit(Exchanged(a, b), Swapped(entries, a, b), old(log));
      OneSafeStep(old(log), log, Exchanged(a, b), {a, b}, {});
      if a.Private? && old(entries)[a].Scratch? && old(entries)[b].Scratch? {
        OneSafeStep(old(log), log, Exchanged(a, b), {}, {});
        OneInvisibleStep(old(log), log, Exchanged(a, b));
      }
      return true;
    }

    /** unlink of a private name. */
    method RemovePrivate(n: Name) returns (ok: bool)
      requires Valid() && n.Private?
      requires n in entries ==> entries[n].Scratch? || IsShim(entries[n])
      modifies this
      ensures Continues() && nextNonce == old(nextNonce)
      ensures Safely(old(log), log, {}, {n}) && Invisibly(old(log), log)
      ensures n !in old(entries) || old(entries)[n].Scratch? ==> Covertly(old(log), log)
      ensures !ok ==> Looks()
      ensures ok ==> Stepped(old(log), log, Unlinked(n)) && PrivateAgree(old(entries), entries, {n})
      ensures ok ==> n in old(entries) && n !in entries
      ensures ok ==> n in log[|log| - 1].before && log[|log| - 1].before[n] == old(entries)[n]
      ensures old(Alone(schedule)) ==> entries == if ok then old(entries) - {n} else old(entries)
      ensures old(Quiet(schedule)) ==> ok == (n in old(entries))
    {
      var fault := Await();
      IdleIsInvisible(old(log), log);
      if fault || n !in entries {
        return false;
      }
      Commit(Unlinked(n), entries - {n}, old(log));
      OneSafeStep(old(log), log, Unlinked(n), {}, {n});
      if old(entries)[n].Scratch? {
        OneSafeStep(old(log), log, Unlinked(n), {}, {});
      }
      OneInvisibleStep(old(log), log, Unlinked(n));
      return true;
    }

    // ---------- calls an install makes, which do replace what is in the way ----------

    /** Write and publish-ready the scratch file at `n`: it becomes a readable regular file. */
    method Fill(n: Name, content: string) returns (ok: bool)
      requires Valid() && n.Private? && n in entries && entries[n].Scratch?
      modifies this
      ensures Continues() && schedule == RestOf(old(schedule)) && (ok <==> !NextFault(old(schedule)))
      ensures old(Alone(schedule)) ==> n in entries
      ensures old(Alone(schedule)) && ok ==> IsText(entries[n], content) && entries == old(entries)[n := entries[n]]
      ensures old(Alone(schedule)) && !ok ==> entries == old(entries)
      ensures old(Quiet(schedule)) ==> ok
    {
      var fault := Await();
      if fault {
        return false;
      }
      var file := File(nextNonce, Regular, true, content);
      nextNonce := nextNonce + 1;
      Commit(Filled(n), entries[n := file], old(log));
      return true;
    }

    /** rename(2): what was at `to` is gone. */
    method Rename(from: Name, to: Path) returns (ok: bool)
      requires Valid() && from != to
      modifies this
      ensures Continues() && schedule == RestOf(old(schedule))
      ensures old(Alone(schedule)) ==> (ok <==> !NextFault(old(schedule)) && from in old(entries))
      ensures old(Alone(schedule)) ==> if ok
        then from in old(entries) && entries == (old(entries) - {from})[to := old(entries)[from]]
        else entries == old(entries)
      ensures old(Quiet(schedule)) ==> ok == (from in old(entries))
    {
      var fault := Await();
      if fault || from !in entries {
        return false;
      }
      Commit(Renamed(from, to), (entries - {from})[to := entries[from]], old(log));
      return true;
    }

    /** unlink(2) on any name. */
    method Remove(n: Name) returns (ok: bool)
      requires Valid()
      modifies this
      ensures Continues() && schedule == RestOf(old(schedule))
      ensures old(Alone(schedule)) ==> (ok <==> !NextFault(old(schedule)) && n in old(entries))
      ensures old(Alone(schedule)) ==> entries == if ok then old(entries) - {n} else old(entries)
      ensures old(Alone(schedule)) && ok ==> n in old(entries)
      ensures old(Quiet(schedule)) ==> ok == (n in old(entries))
    {
      var fault := Await();
      if fault || n !in entries {
        return false;
      }
      Commit(Unlinked(n), entries - {n}, old(log));
      return true;
    }
  }

  /** A readable regular file with this content. */
  predicate IsText(e: Entry, content: string) {
    e.File? && e.kind.Regular? && e.readable && e.content == content
  }

  // ---------- lemmas about single steps ----------

  lemma ChainedThen(log: seq<Step>, s: Step)
    requires Chained(log) && (log != [] ==> s.before == log[|log| - 1].after)
    ensures Chained(log + [s])
  {
    forall i | 0 < i < |log + [s]| ensures LinkedAt(log + [s], i) {
      assert i < |log| ==> LinkedAt(log, i);
    }
  }

  lemma IdleThenStep(a: seq<Step>, b: seq<Step>, s: Step)
    requires Idly(a, b, |b|)
    ensures Stepped(a, b + [s], s.op)
  {
    forall i | |a| <= i < |b| ensures OthersAt(b + [s], i) {
      assert OthersAt(b, i);
    }
  }

  lemma IdleThenIdle(a: seq<Step>, b: seq<Step>, c: seq<Step>)
    requires Idly(a, b, |b|) && Idly(b, c, |c|)
    ensures Idly(a, c, |c|)
  {
    forall i | |a| <= i < |c| ensures OthersAt(c, i) {
      assert if i < |b| then OthersAt(b, i) && c[i] == b[i] else OthersAt(c, i);
    }
  }

  lemma IdleThenStepped(a: seq<Step>, b: seq<Step>, c: seq<Step>, op: Op)
    requires Idly(a, b, |b|) && Stepped(b, c, op)
    ensures Stepped(a, c, op)
  {
    forall i | |a| <= i < |c| - 1 ensures OthersAt(c, i) {
      assert if i < |b| then OthersAt(b, i) && c[i] == b[i] else OthersAt(c, i);
    }
  }

  lemma IdleIsInvisible(a: seq<Step>, b: seq<Step>)
    requires Idly(a, b, |b|)
    ensures Invisibly(a, b) && forall homes, graves :: Safely(a, b, homes, graves)
  {
    forall i | |a| <= i < |b| ensures InvisibleAt(b, i) {
      assert OthersAt(b, i);
    }
    forall homes, graves ensures Safely(a, b, homes, graves) {
      forall i | |a| <= i < |b| ensures SafeAt(b, i, homes, graves) {
        assert OthersAt(b, i);
      }
    }
  }

  lemma OneSafeStep(a: seq<Step>, b: seq<Step>, op: Op, homes: set<Name>, graves: set<Name>)
    requires Stepped(a, b, op) && Safe(b[|b| - 1], homes, graves)
    ensures Safely(a, b, homes, graves)
  {
    forall i | |a| <= i < |b| ensures SafeAt(b, i, homes, graves) {
      assert i < |b| - 1 ==> OthersAt(b, i);
    }
  }

  lemma OneInvisibleStep(a: seq<Step>, b: seq<Step>, op: Op)
    requires Stepped(a, b, op) && OnPrivate(op)
    requires forall n: Name :: n.Shared? ==>
      (n in b[|b| - 1].before <==> n in b[|b| - 1].after)
      && (n in b[|b| - 1].before ==> b[|b| - 1].before[n] == b[|b| - 1].after[n])
    ensures Invisibly(a, b)
  {
    assert Visible(b[|b| - 1].before) == Visible(b[|b| - 1].after);
    forall i | |a| <= i < |b| ensures InvisibleAt(b, i) {
      assert i < |b| - 1 ==> OthersAt(b, i);
    }
  }

  /** Safe stretches compose, and more homes or graves never hurt. */
  lemma SafelyThen(a: seq<Step>, b: seq<Step>, c: seq<Step>, h1: set<Name>, g1: set<Name>, h2: set<Name>, g2: set<Name>,
                   homes: set<Name>, graves: set<Name>)
    requires Safely(a, b, h1, g1) && Safely(b, c, h2, g2)
    requires h1 <= homes && h2 <= homes && g1 <= graves && g2 <= graves
    ensures Safely(a, c, homes, graves)
  {
    forall i | |a| <= i < |c| ensures SafeAt(c, i, homes, graves) {
      if i < |b| {
        assert SafeAt(b, i, h1, g1) && c[i] == b[i];
        WiderIsSafe(c[i], h1, g1, homes, graves);
      } else {
        assert SafeAt(c, i, h2, g2);
        WiderIsSafe(c[i], h2, g2, homes, graves);
      }
    }
  }

  lemma WiderIsSafe(s: Step, h: set<Name>, g: set<Name>, homes: set<Name>, graves: set<Name>)
    requires Safe(s, h, g) && h <= homes && g <= graves
    ensures Safe(s, homes, graves)
  {
    if !s.op.Interference? {
      forall n | n in s.before && Foreign(s.before[n]) && n in h && Housed(s.before[n], s.after, h)
        ensures n in homes && Housed(s.before[n], s.after, homes)
      {
        var m :| m in h && m in s.after && s.after[m] == s.before[n];
        assert m in homes;
      }
    }
  }

  lemma InvisiblyThen(a: seq<Step>, b: seq<Step>, c: seq<Step>)
    requires Invisibly(a, b) && Invisibly(b, c)
    ensures Invisibly(a, c)
  {
    forall i | |a| <= i < |c| ensures InvisibleAt(c, i) {
      assert if i < |b| then InvisibleAt(b, i) && c[i] == b[i] else InvisibleAt(c, i);
    }
  }

  lemma CovertlyThen(a: seq<Step>, b: seq<Step>, c: seq<Step>)
    requires Covertly(a, b) && Covertly(b, c)
    ensures Covertly(a, c)
  {
    SafelyThen(a, b, c, {}, {}, {}, {}, {}, {});
    InvisiblyThen(a, b, c);
  }

  lemma IdleIsCovert(a: seq<Step>, b: seq<Step>)
    requires Idly(a, b, |b|)
    ensures Covertly(a, b)
  {
    IdleIsInvisible(a, b);
  }

  /** What was shown stays shown as the log goes on. */
  lemma ShownStays(a: seq<Step>, since: seq<Step>, b: seq<Step>, c: seq<Step>, m: int, n: int, swap: bool)
    requires Shown(since, b, m, swap) && a <= since && b <= c && m <= n
    ensures Shown(a, c, n, swap)
  {
    var i :| |since| <= i < m && ShownAt(b, i, swap);
    assert ShownAt(c, i, swap);
  }

  lemma StepShows(a: seq<Step>, b: seq<Step>, op: Op)
    requires Stepped(a, b, op) && OnPrivate(op)
    ensures op.Moved? ==> Shown(a, b, |b|, false)
    ensures op.Exchanged? ==> Shown(a, b, |b|, true)
  {
    assert op.Moved? ==> ShownAt(b, |b| - 1, false);
    assert op.Exchanged? ==> ShownAt(b, |b| - 1, true);
  }

  /** Covert steps, then the proof, then anything. */
  lemma ProvenThenAnything(a: seq<Step>, b: seq<Step>, c: seq<Step>, exchange: bool)
    requires Covertly(a, b) && b <= c && ProvenAt(a, b, |b|, exchange)
    ensures FirstProven(a, c, exchange)
  {
    forall n | |a| <= n < |c| ensures FirstProvenAt(a, c, n, exchange) {
      if n < |b| {
        assert InvisibleAt(b, n) && c[n] == b[n];
      } else {
        ShownStays(a, a, b, c, |b|, n, false);
        if exchange {
          ShownStays(a, a, b, c, |b|, n, true);
        }
      }
    }
  }

  lemma CovertIsProven(a: seq<Step>, b: seq<Step>, exchange: bool)
    requires Covertly(a, b)
    ensures FirstProven(a, b, exchange)
  {
    forall n | |a| <= n < |b| ensures FirstProvenAt(a, b, n, exchange) {
      assert InvisibleAt(b, n);
    }
  }

  lemma MoveIsSafe(es: Entries, from: Name, to: Name)
    requires from in es && to !in es
    ensures Safe(Step(Moved(from, to), es, (es - {from})[to := es[from]]), {from, to}, {})
    ensures from.Private? && to.Private? && es[from].Scratch? ==> Safe(Step(Moved(from, to), es, (es - {from})[to := es[from]]), {}, {})
  {
    var next := (es - {from})[to := es[from]];
    assert to in {from, to} && next[to] == es[from];
  }

  lemma ExchangeIsSafe(es: Entries, a: Name, b: Name)
    requires a in es && b in es
    ensures Safe(Step(Exchanged(a, b), es, Swapped(es, a, b)), {a, b}, {})
    ensures a.Private? && b.Private? && es[a].Scratch? && es[b].Scratch? ==>
      Safe(Step(Exchanged(a, b), es, Swapped(es, a, b)), {}, {})
  {
    var next := Swapped(es, a, b);
    assert next[b] == es[a] && next[a] == es[b];
    assert Housed(es[a], next, {a, b}) && Housed(es[b], next, {a, b});
  }

  // ---------- whole runs ----------

  ghost predicate Present(e: Entry, es: Entries) {
    exists n :: n in es && es[n] == e
  }

  ghost predicate LostAt(e: Entry, log: seq<Step>, k: int) {
    0 <= k < |log| && log[k].op.Interference? && Present(e, log[k].before) && !Present(e, log[k].after)
  }

  /**
   Over any run of safe steps interleaved with anything others do: a foreign entry that was there at
   the start and is gone at the end went in a step of somebody else.
   */
  lemma {:induction false} LossIsNotOurs(log: seq<Step>, homes: set<Name>, graves: set<Name>, e: Entry)
    requires log != [] && Chained(log) && Safely([], log, homes, graves)
    requires Foreign(e) && Present(e, log[0].before) && !Present(e, log[|log| - 1].after)
    ensures exists k :: LostAt(e, log, k)
  {
    var last := |log| - 1;
    assert SafeAt(log, last, homes, graves);
    if Present(e, log[last].before) {
      assert LostAt(e, log, last);
    } else {
      if last > 0 {
        var init := log[..last];
        assert LinkedAt(log, last);
        forall i | 0 < i < |init| ensures LinkedAt(init, i) {
          assert LinkedAt(log, i);
        }
        forall i | 0 <= i < |init| ensures SafeAt(init, i, homes, graves) {
          assert SafeAt(log, i, homes, graves);
        }
        LossIsNotOurs(init, homes, graves, e);
        var k :| LostAt(e, init, k);
        assert LostAt(e, log, k);
      }
    }
  }
}
