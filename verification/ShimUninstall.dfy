/**
 Uninstalling a shim from a directory that other processes keep changing: swap the adopted program
 back, carry the displaced entry to a private name, look at it there, and only then unlink it.
 */
module ShimUninstall {
  import opened Wrappers
  import opened Directories

  datatype Verdict = Stop | Skip | Remove(restore: bool)

  datatype Outcome =
    | Removed
    | Refused       // no shared name was touched
    | NotMoved      // the displaced entry could not be carried to quarantine
    | Returned      // the displaced entry was not a shim and went back to its name
    | Held          // it was not a shim and its name is taken again: kept in quarantine
    | NotUnlinked   // a shim is left in quarantine

  datatype BatchOutcome = Done | BatchRefused | NothingThere | Stopped(path: Path, why: Outcome)

  datatype Target = Xclip | WlPaste

  function Main(target: Target): Path {
    if target.Xclip? then Shared("xclip") else Shared("wl-paste")
  }

  const COMPANION: Path := Shared("wl-copy")

  // ---------- what a calm uninstall means ----------

  ghost predicate ShimAt(es: Entries, n: Name) {
    n in es && IsShim(es[n])
  }

  ghost function Judge(es: Entries, path: Path, optional: bool): Verdict
  {
    if Sidecar(path) in es then
      if RegularAt(es, Sidecar(path)) && ShimAt(es, path) then Remove(true) else Stop
    else if ShimAt(es, path) then Remove(false)
    else if optional then Skip
    else Stop
  }

  /** The program that used to answer is back at `path`, or nothing is there. */
  ghost function Restored(es: Entries, path: Path): Entries
  {
    if Judge(es, path, true) == Remove(true) then es[path := es[Sidecar(path)]] - {Sidecar(path)}
    else if Judge(es, path, true) == Remove(false) then es - {path}
    else es
  }

  ghost predicate AlreadyDone(es: Entries, path: Path)
  {
    path !in es && Sidecar(path) !in es
  }

  ghost predicate Accepts(es: Entries, target: Target) {
    var main := Main(target);
    if target.Xclip? then Judge(es, main, false).Remove?
    else
      && !Judge(es, COMPANION, true).Stop?
      && (AlreadyDone(es, main) ==> Judge(es, COMPANION, true).Remove?)
      && (!AlreadyDone(es, main) ==> Judge(es, main, false).Remove?)
  }

  ghost function AfterUninstall(es: Entries, target: Target): Entries {
    var first := Restored(es, Main(target));
    if target.Xclip? then first else Restored(first, COMPANION)
  }

  // ---------- one path ----------

  ghost function Homes(path: Path, q: Name): set<Name>
  {
    {path, Sidecar(path), q}
  }

  method Preflight(d: Directory, path: Path, optional: bool) returns (v: Verdict)
    requires d.Valid()
    modifies d
    ensures d.Looks()
    ensures optional || !v.Skip?
    // Left alone, a failed call can only make it refuse or skip what it could not look at.
    ensures old(Alone(d.schedule)) && !v.Stop? ==>
      v == Judge(old(d.entries), path, optional) || (v.Skip? && Judge(old(d.entries), path, true) == Remove(false))
    ensures old(Quiet(d.schedule)) ==> v == Judge(old(d.entries), path, optional)
  {
    var restore := false;
    var stat := d.Lstat(Sidecar(path));
    ghost var inspected := d.log;
    if stat.Unknown? || (stat.Found? && !(stat.entry.File? && stat.entry.kind.Regular?)) {
      return Stop;
    }
    restore := stat.Found?;
    var ours := d.IsOurShim(path);
    IdleThenIdle(old(d.log), inspected, d.log);
    if !ours {
      return if !restore && optional then Skip else Stop;
    }
    return Remove(restore);
  }

  /** Prove the no-replace rename on private names, then hand out a vacant private name. */
  method PrepareQuarantine(d: Directory) returns (q: Option<Name>)
    requires d.Valid()
    modifies d
    ensures d.Continues() && Covertly(old(d.log), d.log)
    ensures q.Some? ==> q.value.Private? && q.value !in d.entries && q.value.nonce < d.nextNonce
    ensures q.Some? ==> ProvenAt(old(d.log), d.log, |d.log|, false)
    ensures old(Quiet(d.schedule)) ==> q.Some? && d.entries == old(d.entries)
  {
    q := d.DrawName();
    ghost var drawn := d.log;
    IdleIsCovert(old(d.log), drawn);
    if q.Some? {
      var ok := Probe(d, q.value);
      CovertlyThen(old(d.log), drawn, d.log);
      if ok {
        ProvenStays(old(d.log), drawn, d.log, d.log, false);
      }
      q := if ok then q else None;
    }
  }

  /** A scratch entry is made, renamed without replacing to `q`, and removed again. */
  method Probe(d: Directory, q: Name) returns (ok: bool)
    requires d.Valid() && q.Private? && q !in d.entries && q.nonce < d.nextNonce
    modifies d
    ensures d.Continues() && Covertly(old(d.log), d.log)
    ensures ok ==> q !in d.entries && ProvenAt(old(d.log), d.log, |d.log|, false)
    ensures old(Quiet(d.schedule)) ==> ok && d.entries == old(d.entries)
  {
    var probe := d.Create();
    if probe.None? {
      return false;
    }
    ghost var made := d.log;
    ok := ProbeRename(d, probe.value, q);
    CovertlyThen(old(d.log), made, d.log);
    ghost var probed := d.log;
    var _ := d.RemovePrivate(probe.value);
    CovertlyThen(old(d.log), probed, d.log);
    if ok {
      ProvenStays(old(d.log), made, probed, d.log, false);
    }
  }

  method ProbeRename(d: Directory, probe: Name, q: Name) returns (ok: bool)
    requires d.Valid() && q.Private? && q !in d.entries && q.nonce < d.nextNonce
    requires probe.Private? && probe in d.entries && d.entries[probe] == Scratch
    modifies d
    ensures d.Continues() && Covertly(old(d.log), d.log)
    ensures ok ==> q !in d.entries && probe !in d.entries && ProvenAt(old(d.log), d.log, |d.log|, false)
    ensures probe in d.entries ==> d.entries[probe] == Scratch
    ensures old(Quiet(d.schedule)) ==> ok && d.entries == old(d.entries) - {probe}
  {
    var fault := d.Await();
    ghost var closed := d.log;
    IdleIsCovert(old(d.log), closed);
    if fault {
      return false;
    }
    ok := d.MoveNoReplace(probe, q);
    CovertlyThen(old(d.log), closed, d.log);
    if ok {
      ghost var moved := d.log;
      StepShows(closed, moved, Moved(probe, q));
      ok := d.RemovePrivate(q);
      CovertlyThen(old(d.log), moved, d.log);
      ProvenStays(old(d.log), closed, moved, d.log, false);
    }
  }

  /** Swap the adopted program back over a shim, if it still is one. */
  method TakeBack(d: Directory, path: Path) returns (ok: bool)
    requires d.Valid()
    modifies d
    ensures d.Continues() && d.nextNonce == old(d.nextNonce)
    ensures Safely(old(d.log), d.log, {path, Sidecar(path)}, {})
    ensures PrivateAgree(old(d.entries), d.entries, {})
    ensures !ok ==> Idly(old(d.log), d.log, |d.log|)
    ensures ok ==> Stepped(old(d.log), d.log, Exchanged(Sidecar(path), path))
    ensures old(Alone(d.schedule)) && !ok ==> d.entries == old(d.entries)
    ensures old(Quiet(d.schedule)) ==> ok == (ShimAt(old(d.entries), path) && Sidecar(path) in old(d.entries))
    ensures old(Quiet(d.schedule)) && ok ==> d.entries == Swapped(old(d.entries), Sidecar(path), path)
  {
    ok := d.IsOurShim(path);
    ghost var seen := d.log;
    IdleIsInvisible(old(d.log), seen);
    if ok {
      ok := d.Exchange(Sidecar(path), path);
      if ok {
        IdleThenStepped(old(d.log), seen, d.log, Exchanged(Sidecar(path), path));
      } else {
        IdleThenIdle(old(d.log), seen, d.log);
      }
      SafelyThen(old(d.log), seen, d.log, {}, {}, {Sidecar(path), path}, {}, {path, Sidecar(path)}, {});
    }
  }

  /** Carry `displaced` to quarantine, look at it there, and unlink it or put it back. */
  method Retire(d: Directory, displaced: Path, q: Name) returns (out: Outcome)
    requires d.Valid()
    requires q.Private? && q !in d.entries && q.nonce < d.nextNonce
    modifies d
    ensures d.Continues() && !out.Refused?
    ensures Safely(old(d.log), d.log, {displaced, q}, if out.Removed? then {q} else {})
    ensures out.NotMoved? ==> Idly(old(d.log), d.log, |d.log|)
    ensures q in d.entries <==> out.Held? || out.NotUnlinked?
    ensures out.NotUnlinked? ==> IsShim(d.entries[q])
    ensures old(Quiet(d.schedule)) && displaced in old(d.entries) ==>
      if IsShim(old(d.entries)[displaced]) then out.Removed? && d.entries == old(d.entries) - {displaced}
      else out.Returned? && d.entries == old(d.entries)
  {
    var ok := d.MoveNoReplace(displaced, q);
    if !ok {
      return NotMoved;
    }
    ghost var moved, homes := d.log, {displaced, q};
    out := Settle(d, displaced, q);
    ghost var graves := if out.Removed? then {q} else {};
    SafelyThen(old(d.log), moved, d.log, homes, {}, homes, graves, homes, graves);
  }

  /** What was carried to quarantine is inspected there, and unlinked or put back. */
  method Settle(d: Directory, displaced: Path, q: Name) returns (out: Outcome)
    requires d.Valid() && q.Private? && q in d.entries
    modifies d
    ensures d.Continues() && (out.Removed? || out.Returned? || out.Held? || out.NotUnlinked?)
    ensures Safely(old(d.log), d.log, {displaced, q}, if out.Removed? then {q} else {})
    ensures q in d.entries <==> out.Held? || out.NotUnlinked?
    ensures out.NotUnlinked? ==> IsShim(d.entries[q])
    ensures old(Quiet(d.schedule)) && displaced !in old(d.entries) ==>
      if IsShim(old(d.entries)[q]) then out.Removed? && d.entries == old(d.entries) - {q}
      else out.Returned? && d.entries == (old(d.entries) - {q})[displaced := old(d.entries)[q]]
  {
    ghost var homes := {displaced, q};
    var ours := d.IsOurShim(q);
    ghost var seen := d.log;
    IdleIsInvisible(old(d.log), seen);
    var ok;
    if !ours {
      ok := d.MoveNoReplace(q, displaced);
      SafelyThen(old(d.log), seen, d.log, {}, {}, {q, displaced}, {}, homes, {});
      return if ok then Returned else Held;
    }
    ok := d.RemovePrivate(q);
    if ok {
      SafelyThen(old(d.log), seen, d.log, {}, {}, {}, {q}, homes, {q});
      return Removed;
    }
    IdleIsInvisible(seen, d.log);
    SafelyThen(old(d.log), seen, d.log, {}, {}, {}, {}, homes, {});
    return NotUnlinked;
  }

  /** The checks before the first shared name is touched: is there a shim to go, and does the rename work here? */
  method Ready(d: Directory, path: Path) returns (restore: bool, q: Option<Name>)
    requires d.Valid()
    modifies d
    ensures d.Continues() && Covertly(old(d.log), d.log)
    ensures q.Some? ==> q.value.Private? && q.value !in d.entries && q.value.nonce < d.nextNonce
    ensures q.Some? ==> ProvenAt(old(d.log), d.log, |d.log|, false)
    ensures old(Quiet(d.schedule)) ==> d.entries == old(d.entries) && (q.Some? <==> Judge(old(d.entries), path, false).Remove?)
    ensures old(Quiet(d.schedule)) && q.Some? ==> Judge(old(d.entries), path, false) == Remove(restore)
  {
    restore, q := false, None;
    var v := Preflight(d, path, false);
    ghost var judged := d.log;
    IdleIsCovert(old(d.log), judged);
    if v.Remove? {
      restore := v.restore;
      q := PrepareQuarantine(d);
      CovertlyThen(old(d.log), judged, d.log);
      if q.Some? {
        ProvenStays(old(d.log), judged, d.log, d.log, false);
      }
    }
  }

  method UninstallShim(d: Directory, path: Path) returns (out: Outcome, q: Name)
    requires d.Valid()
    modifies d
    ensures d.Continues() && q.Private?
    // Whatever others do in between, no step of ours loses a foreign entry, and one shim is unlinked at most.
    ensures Safely(old(d.log), d.log, Homes(path, q), if out.Removed? then {q} else {})
    ensures FirstProven(old(d.log), d.log, false)
    ensures out.Refused? ==> Covertly(old(d.log), d.log)
    ensures out.Held? || out.NotUnlinked? ==> q in d.entries
    ensures out.NotUnlinked? ==> IsShim(d.entries[q])
    ensures old(Quiet(d.schedule)) ==>
      && (out.Removed? <==> Judge(old(d.entries), path, false).Remove?)
      && (!out.Removed? ==> out.Refused?)
      && d.entries == Restored(old(d.entries), path)
  {
    var restore, quarantine := Ready(d, path);
    ghost var prepared := d.log;
    q := if quarantine.Some? then quarantine.value else Private(0);
    ghost var homes := Homes(path, q);
    if quarantine.None? {
      SafelyThen(old(d.log), prepared, prepared, {}, {}, {}, {}, homes, {});
      CovertIsProven(old(d.log), prepared, false);
      return Refused, q;
    }
    out := Displace(d, path, restore, q);
    if out.Refused? {
      CovertlyThen(old(d.log), prepared, d.log);
    }
    ghost var graves := if out.Removed? then {q} else {};
    SafelyThen(old(d.log), prepared, d.log, {}, {}, homes, graves, homes, graves);
    ProvenThenAnything(old(d.log), prepared, d.log, false);
  }

  /** Swap the adopted program back if there is one, and retire the shim. */
  method Displace(d: Directory, path: Path, restore: bool, q: Name) returns (out: Outcome)
    requires d.Valid() && q.Private? && q !in d.entries && q.nonce < d.nextNonce
    modifies d
    ensures d.Continues()
    ensures Safely(old(d.log), d.log, Homes(path, q), if out.Removed? then {q} else {})
    ensures out.Refused? ==> Covertly(old(d.log), d.log)
    ensures out.Held? || out.NotUnlinked? ==> q in d.entries
    ensures out.NotUnlinked? ==> IsShim(d.entries[q])
    ensures old(Quiet(d.schedule)) && Judge(old(d.entries), path, false) == Remove(restore) ==>
      out.Removed? && d.entries == Restored(old(d.entries), path)
  {
    ghost var homes := Homes(path, q);
    var displaced: Path := path;
    if restore {
      var ok := TakeBack(d, path);
      if !ok {
        IdleIsCovert(old(d.log), d.log);
        SafelyThen(old(d.log), d.log, d.log, {}, {}, {}, {}, homes, {});
        return Refused;
      }
      displaced := Sidecar(path);
    }
    ghost var ready := d.log;
    SafelyThen(old(d.log), ready, ready, {path, Sidecar(path)}, {}, {}, {}, homes, {});
    out := Retire(d, displaced, q);
    ghost var graves := if out.Removed? then {q} else {};
    SafelyThen(old(d.log), ready, d.log, homes, {}, {displaced, q}, graves, homes, graves);
  }

  // ---------- the whole request ----------

  /** No entry at the main path and no sidecar: an earlier run already finished here. */
  method UninstallAlreadyDone(d: Directory, path: Path) returns (done: bool)
    requires d.Valid()
    modifies d
    ensures d.Looks()
    ensures old(Alone(d.schedule)) && done ==> AlreadyDone(old(d.entries), path)
    ensures old(Quiet(d.schedule)) ==> done == AlreadyDone(old(d.entries), path)
  {
    var stat := d.Lstat(path);
    if !stat.Missing? {
      return false;
    }
    ghost var seen := d.log;
    stat := d.Lstat(Sidecar(path));
    IdleThenIdle(old(d.log), seen, d.log);
    done := stat.Missing?;
  }

  /** Prove the primitives the batch needs on two private entries. */
  method ProbeCapabilities(d: Directory, needsExchange: bool) returns (ok: bool)
    requires d.Valid()
    modifies d
    ensures d.Continues() && Covertly(old(d.log), d.log)
    // A rename of a private entry, and if need be an exchange of two, went through.
    ensures ok ==> ProvenAt(old(d.log), d.log, |d.log|, needsExchange)
    // Left alone it succeeds exactly when none of the calls before the sweep fails.
    ensures old(Alone(d.schedule)) ==> (ok <==> Spared(old(d.schedule), if needsExchange then 5 else 4))
    ensures old(Quiet(d.schedule)) ==> ok && d.entries == old(d.entries)
  {
    SparedNears(d.schedule, if needsExchange then 5 else 4);
    var a := d.Create();
    if a.None? {
      return false;
    }
    ghost var made := d.log;
    ok := ProbeWith(d, a.value, needsExchange);
    CovertlyThen(old(d.log), made, d.log);
    ghost var probed := d.log;
    var _ := d.RemovePrivate(a.value);
    CovertlyThen(old(d.log), probed, d.log);
    if ok {
      ProvenStays(old(d.log), made, probed, d.log, needsExchange);
    }
  }

  lemma ProvenStays(a: seq<Step>, since: seq<Step>, b: seq<Step>, c: seq<Step>, exchange: bool)
    requires ProvenAt(since, b, |b|, exchange) && a <= since && b <= c
    ensures ProvenAt(a, c, |c|, exchange)
  {
    ShownStays(a, since, b, c, |b|, |c|, false);
    if exchange {
      ShownStays(a, since, b, c, |b|, |c|, true);
    }
  }

  method ProbeWith(d: Directory, a: Name, needsExchange: bool) returns (ok: bool)
    requires d.Valid() && a.Private? && a in d.entries && d.entries[a] == Scratch
    modifies d
    ensures d.Continues() && Covertly(old(d.log), d.log)
    ensures a in d.entries ==> d.entries[a] == Scratch
    ensures ok ==> ProvenAt(old(d.log), d.log, |d.log|, needsExchange)
    ensures old(Alone(d.schedule)) ==> (ok <==> Spared(old(d.schedule), if needsExchange then 4 else 3))
    ensures old(Quiet(d.schedule)) ==> ok && d.entries == old(d.entries)
  {
    SparedNears(d.schedule, if needsExchange then 4 else 3);
    SparedNears(RestOf(d.schedule), if needsExchange then 3 else 2);
    var b := d.Create();
    if b.None? {
      return false;
    }
    ghost var made := d.log;
    var moved := d.DrawName();
    IdleIsCovert(made, d.log);
    CovertlyThen(old(d.log), made, d.log);
    if moved.None? {
      ghost var drawn := d.log;
      var _ := d.RemovePrivate(b.value);
      CovertlyThen(old(d.log), drawn, d.log);
      return false;
    }
    ghost var drawn := d.log;
    ok := ProbeMoves(d, a, b.value, moved.value, needsExchange);
    CovertlyThen(old(d.log), drawn, d.log);
    if ok {
      ProvenStays(old(d.log), drawn, d.log, d.log, needsExchange);
    }
  }

  /** Rename `b` to `moved`, exchange `a` with it when asked, and clear both names again. */
  method ProbeMoves(d: Directory, a: Name, b: Name, moved: Name, needsExchange: bool) returns (ok: bool)
    requires d.Valid() && a.Private? && b.Private? && moved.Private? && a != b && a != moved && b != moved
    requires a in d.entries && d.entries[a] == Scratch && b in d.entries && d.entries[b] == Scratch
    requires moved !in d.entries && moved.nonce < d.nextNonce
    modifies d
    ensures d.Continues() && Covertly(old(d.log), d.log)
    ensures a in d.entries ==> d.entries[a] == Scratch
    ensures ok ==> ProvenAt(old(d.log), d.log, |d.log|, needsExchange)
    ensures old(Alone(d.schedule)) ==> (ok <==> Spared(old(d.schedule), if needsExchange then 2 else 1))
    ensures old(Quiet(d.schedule)) ==> ok && d.entries == old(d.entries) - {b}
  {
    ok := TryPrimitives(d, a, b, moved, needsExchange);
    ghost var tried := d.log;
    Sweep(d, moved, b);
    CovertlyThen(old(d.log), tried, d.log);
    if ok {
      ProvenStays(old(d.log), old(d.log), tried, d.log, needsExchange);
    }
  }

  method TryPrimitives(d: Directory, a: Name, b: Name, moved: Name, needsExchange: bool) returns (ok: bool)
    requires d.Valid() && a.Private? && b.Private? && moved.Private? && a != b && a != moved && b != moved
    requires a in d.entries && d.entries[a] == Scratch && b in d.entries && d.entries[b] == Scratch
    requires moved !in d.entries && moved.nonce < d.nextNonce
    modifies d
    ensures d.Continues() && Covertly(old(d.log), d.log) && PrivateAgree(old(d.entries), d.entries, {b, moved})
    ensures a in d.entries && d.entries[a] == Scratch
    ensures if ok then b !in d.entries else b in d.entries ==> d.entries[b] == Scratch
    ensures moved in d.entries ==> d.entries[moved] == Scratch
    ensures ok ==> ProvenAt(old(d.log), d.log, |d.log|, needsExchange)
    ensures old(Alone(d.schedule)) ==> (ok <==> Spared(old(d.schedule), if needsExchange then 2 else 1))
    ensures old(Quiet(d.schedule)) ==> ok && d.entries == (old(d.entries) - {b})[moved := Scratch]
  {
    SparedNears(d.schedule, if needsExchange then 2 else 1);
    SparedNears(RestOf(d.schedule), 1);
    SparedNears(RestOf(RestOf(d.schedule)), 0);
    ok := d.MoveNoReplace(b, moved);
    if ok {
      StepShows(old(d.log), d.log, Moved(b, moved));
      if needsExchange {
        ghost var renamed := d.log;
        ok := TryExchange(d, a, moved);
        CovertlyThen(old(d.log), renamed, d.log);
        if ok {
          ShownStays(old(d.log), old(d.log), renamed, d.log, |renamed|, |d.log|, false);
          ShownStays(old(d.log), renamed, d.log, d.log, |d.log|, |d.log|, true);
        }
      }
    }
  }

  method TryExchange(d: Directory, a: Name, moved: Name) returns (ok: bool)
    requires d.Valid() && a.Private? && moved.Private? && a != moved
    requires a in d.entries && d.entries[a] == Scratch && moved in d.entries && d.entries[moved] == Scratch
    modifies d
    ensures d.Continues() && Covertly(old(d.log), d.log) && PrivateAgree(old(d.entries), d.entries, {})
    ensures ok ==> Shown(old(d.log), d.log, |d.log|, true)
    ensures old(Alone(d.schedule)) ==> (ok <==> !NextFault(old(d.schedule))) && d.entries == old(d.entries)
  {
    ok := d.Exchange(a, moved);
    if ok {
      StepShows(old(d.log), d.log, Exchanged(a, moved));
    } else {
      IdleIsCovert(old(d.log), d.log);
    }
  }

  /** The deferred removals of the probe names. */
  method Sweep(d: Directory, moved: Name, b: Name)
    requires d.Valid() && b.Private? && moved.Private? && b != moved
    requires forall n :: n in {moved, b} && n in d.entries ==> d.entries[n] == Scratch
    modifies d
    ensures d.Continues() && Covertly(old(d.log), d.log)
    ensures PrivateAgree(old(d.entries), d.entries, {moved, b})
    ensures old(Quiet(d.schedule)) ==> d.entries == old(d.entries) - {moved, b}
  {
    var _ := d.RemovePrivate(moved);
    ghost var cleared := d.log;
    var _ := d.RemovePrivate(b);
    CovertlyThen(old(d.log), cleared, d.log);
  }

  function Paths(target: Target): seq<Path> {
    if target.Xclip? then [Main(target)] else [Main(target), COMPANION]
  }

  /** The paths among the first `n` that an uninstall starting at `es` has to process. */
  ghost function Due(es: Entries, target: Target, n: nat): (due: seq<Path>)
    requires n <= |Paths(target)|
    ensures forall p :: p in due ==> p in Paths(target)[..n]
  {
    if n == 0 then []
    else
      var path := Paths(target)[n - 1];
      Due(es, target, n - 1)
      + if !(n == 1 && AlreadyDone(es, path)) && Judge(es, path, n != 1).Remove? then [path] else []
  }

  ghost predicate NoStop(es: Entries, target: Target, n: nat)
    requires n <= |Paths(target)|
  {
    forall i :: 0 <= i < n ==>
      (i == 0 && AlreadyDone(es, Paths(target)[0])) || !Judge(es, Paths(target)[i], i != 0).Stop?
  }

  ghost function RestoredAll(es: Entries, paths: seq<Path>): Entries {
    if paths == [] then es
    else Restored(RestoredAll(es, paths[..|paths| - 1]), paths[|paths| - 1])
  }

  /** Two programs that share no name, not even through their sidecars. */
  predicate Apart(a: Path, b: Path) {
    a != b && a != Sidecar(b) && Sidecar(a) != b && Sidecar(a) != Sidecar(b)
  }

  lemma PathsApart()
    ensures Apart(Main(WlPaste), COMPANION)
  {
    assert |"wl-paste"| == 8 && |"wl-copy"| == 7;
    assert |Sidecar(COMPANION).file| == 20 && |Sidecar(Main(WlPaste)).file| == 21;
  }

  /**
   A Wayland uninstall that got no further than its main path can be resumed exactly when no foreign
   program had been adopted there.
   */
  lemma HalfDoneResumes(es: Entries)
    requires Judge(es, Main(WlPaste), false).Remove? && Judge(es, COMPANION, true).Remove?
    ensures Accepts(Restored(es, Main(WlPaste)), WlPaste) <==>
      Sidecar(Main(WlPaste)) in es ==> ShimAt(es, Sidecar(Main(WlPaste)))
  {
    PathsApart();
    RestoredElsewhere(es, Main(WlPaste), COMPANION, true);
  }

  lemma RestoredElsewhere(es: Entries, path: Path, other: Path, optional: bool)
    requires Apart(path, other)
    ensures Judge(Restored(es, path), other, optional) == Judge(es, other, optional)
  {
  }

  lemma DueOf(es: Entries, target: Target)
    requires NoStop(es, target, |Paths(target)|)
    ensures Due(es, target, |Paths(target)|) ==
      (if Judge(es, Main(target), false).Remove? then [Main(target)] else [])
      + (if target.WlPaste? && Judge(es, COMPANION, true).Remove? then [COMPANION] else [])
  {
    assert Due(es, target, 0) == [];
    assert Due(es, target, 1) == if Judge(es, Main(target), false).Remove? then [Main(target)] else [];
    if target.WlPaste? {
      assert Due(es, target, 2) == Due(es, target, 1) + if Judge(es, COMPANION, true).Remove? then [COMPANION] else [];
    }
  }

  lemma RestoredOne(es: Entries, a: Path)
    ensures RestoredAll(es, [a]) == Restored(es, a)
  {
    assert [a][..0] == [];
  }

  lemma RestoredTwo(es: Entries, a: Path, b: Path)
    ensures RestoredAll(es, [a, b]) == Restored(Restored(es, a), b)
  {
    assert [a, b][..1] == [a];
    RestoredOne(es, a);
  }

  lemma AcceptsMeans(es: Entries, target: Target)
    ensures Accepts(es, target) <==>
      NoStop(es, target, |Paths(target)|) && Due(es, target, |Paths(target)|) != []
  {
    var n := |Paths(target)|;
    if NoStop(es, target, n) {
      DueOf(es, target);
    }
    assert NoStop(es, target, n) <==>
      && (AlreadyDone(es, Paths(target)[0]) || !Judge(es, Paths(target)[0], false).Stop?)
      && (n == 2 ==> !Judge(es, Paths(target)[1], true).Stop?);
  }

  lemma RestoredIdle(es: Entries, p: Path)
    requires !Judge(es, p, true).Remove?
    ensures Restored(es, p) == es
  {
  }

  /** A list of at most two paths, each there or not, restored in order. */
  lemma RestoredListed(es: Entries, a: Path, b: Path, first: bool, second: bool)
    requires !first ==> Restored(es, a) == es
    requires !second ==> Restored(Restored(es, a), b) == Restored(es, a)
    ensures RestoredAll(es, (if first then [a] else []) + (if second then [b] else [])) == Restored(Restored(es, a), b)
  {
    if first && second {
      assert [a] + [b] == [a, b];
      RestoredTwo(es, a, b);
    } else if first {
      assert [a] + [] == [a];
      RestoredOne(es, a);
    } else if second {
      assert [] + [b] == [b];
      RestoredOne(es, b);
    }
  }

  /** Processing the due paths one after the other is restoring the main path and then the companion. */
  lemma DueRestores(es: Entries, main: Path, other: Path)
    requires Apart(main, other)
    requires AlreadyDone(es, main) || Judge(es, main, false).Remove?
    requires !Judge(es, other, true).Stop?
    ensures RestoredAll(es, (if Judge(es, main, false).Remove? then [main] else [])
                            + (if Judge(es, other, true).Remove? then [other] else []))
         == Restored(Restored(es, main), other)
  {
    RestoredElsewhere(es, main, other, true);
    var first, second := Judge(es, main, false).Remove?, Judge(es, other, true).Remove?;
    if !first {
      RestoredIdle(es, main);
    }
    if !second {
      RestoredIdle(Restored(es, main), other);
    }
    RestoredListed(es, main, other, first, second);
  }

  lemma AfterMeans(es: Entries, target: Target)
    requires Accepts(es, target)
    ensures RestoredAll(es, Due(es, target, |Paths(target)|)) == AfterUninstall(es, target)
  {
    AcceptsMeans(es, target);
    DueOf(es, target);
    if target.WlPaste? {
      PathsApart();
      DueRestores(es, Main(target), COMPANION);
    } else {
      assert [Main(target)] + [] == [Main(target)];
      RestoredOne(es, Main(target));
    }
  }

  /** What was due at the start is still due after the paths before it were processed. */
  lemma StillDue(es: Entries, target: Target, i: nat)
    requires NoStop(es, target, |Paths(target)|) && i < |Due(es, target, |Paths(target)|)|
    ensures var due := Due(es, target, |Paths(target)|);
      Judge(RestoredAll(es, due[..i]), due[i], false).Remove?
  {
    var due := Due(es, target, |Paths(target)|);
    DueOf(es, target);
    if i == 0 {
      assert due[..0] == [];
    } else {
      PathsApart();
      assert due == [Main(target), COMPANION] && due[..1] == [Main(target)];
      RestoredOne(es, Main(target));
      RestoredElsewhere(es, Main(target), COMPANION, false);
    }
  }

  lemma RestoredNext(es: Entries, paths: seq<Path>, i: nat)
    requires i < |paths|
    ensures RestoredAll(es, paths[..i + 1]) == Restored(RestoredAll(es, paths[..i]), paths[i])
  {
    assert paths[..i + 1][..i] == paths[..i];
  }

  /** The names a request for `target` may move entries between. */
  function BatchNames(target: Target): set<Name> {
    {Main(target), Sidecar(Main(target))}
    + if target.WlPaste? then {COMPANION, Sidecar(COMPANION)} else {}
  }

  ghost predicate HomesOf(homes: set<Name>, target: Target) {
    forall n :: n in homes ==> n.Private? || n in BatchNames(target)
  }

  method ProcessAll(d: Directory, target: Target, paths: seq<Path>, ghost calm: bool)
    returns (out: BatchOutcome, ghost homes: set<Name>, ghost graves: set<Name>)
    requires d.Valid() && forall p :: p in paths ==> p in Paths(target)
    requires calm ==> Quiet(d.schedule) && NoStop(d.entries, target, |Paths(target)|)
                      && paths == Due(d.entries, target, |Paths(target)|)
    modifies d
    ensures d.Continues() && (out.Done? || out.Stopped?)
    ensures Safely(old(d.log), d.log, homes, graves)
    ensures HomesOf(homes, target) && |graves| <= |paths| && forall n :: n in graves ==> n.Private?
    ensures calm ==> out.Done? && d.entries == RestoredAll(old(d.entries), paths)
  {
    homes, graves := {}, {};
    var i := 0;
    while i < |paths|
      invariant 0 <= i <= |paths|
      invariant d.Continues()
      invariant Safely(old(d.log), d.log, homes, graves)
      invariant HomesOf(homes, target) && |graves| <= i && forall n :: n in graves ==> n.Private?
      invariant calm ==> d.entries == RestoredAll(old(d.entries), paths[..i])
    {
      assert calm ==> Judge(d.entries, paths[i], false).Remove? by {
        if calm {
          StillDue(old(d.entries), target, i);
        }
      }
      var why;
      why, homes, graves := ProcessOne(d, target, paths[i], old(d.log), homes, graves);
      if !why.Removed? {
        return Stopped(paths[i], why), homes, graves;
      }
      RestoredNext(old(d.entries), paths, i);
      i := i + 1;
    }
    assert paths[..|paths|] == paths;
    out := Done;
  }

  method ProcessOne(d: Directory, target: Target, path: Path, ghost since: seq<Step>, ghost h: set<Name>, ghost g: set<Name>)
    returns (why: Outcome, ghost homes: set<Name>, ghost graves: set<Name>)
    requires d.Valid() && path in Paths(target)
    requires Safely(since, d.log, h, g) && HomesOf(h, target) && forall n :: n in g ==> n.Private?
    modifies d
    ensures d.Continues() && Safely(since, d.log, homes, graves)
    ensures HomesOf(homes, target) && |graves| <= |g| + 1 && forall n :: n in graves ==> n.Private?
    ensures old(Quiet(d.schedule)) && Judge(old(d.entries), path, false).Remove? ==>
      why.Removed? && d.entries == Restored(old(d.entries), path)
  {
    var q;
    why, q := UninstallShim(d, path);
    ghost var grave := if why.Removed? then {q} else {};
    homes, graves := h + Homes(path, q), g + grave;
    SafelyThen(since, old(d.log), d.log, h, g, Homes(path, q), grave, homes, graves);
  }

  method Uninstall(d: Directory, target: Target) returns (out: BatchOutcome, ghost homes: set<Name>, ghost graves: set<Name>)
    requires d.Valid()
    modifies d
    ensures d.Continues()
    ensures Safely(old(d.log), d.log, homes, graves)
    ensures HomesOf(homes, target) && |graves| <= |Paths(target)| && forall n :: n in graves ==> n.Private?
    // No shared name is touched before the rename was shown to work on private names, nor, if an adopted
    // program is to go back, before the exchange was.
    ensures FirstProven(old(d.log), d.log, old(Alone(d.schedule)) && NeedsExchange(old(d.entries), target, |Paths(target)|))
    // A refusal found before the first path is processed changed nothing others can see.
    ensures out.BatchRefused? || out.NothingThere? ==> Covertly(old(d.log), d.log)
    ensures old(Quiet(d.schedule)) ==>
      && (out.Done? <==> Accepts(old(d.entries), target))
      && (!out.Done? ==> out.BatchRefused? || out.NothingThere?)
      && d.entries == if out.Done? then AfterUninstall(old(d.entries), target) else old(d.entries)
  {
    homes, graves := {}, {};
    AcceptsMeans(d.entries, target);
    if Accepts(d.entries, target) {
      AfterMeans(d.entries, target);
    }
    var pending, restore, mainGone := GatherPending(d, target);
    ghost var gathered := d.log;
    IdleIsCovert(old(d.log), gathered);
    ghost var exchange := old(Alone(d.schedule)) && NeedsExchange(old(d.entries), target, |Paths(target)|);
    CovertIsProven(old(d.log), gathered, exchange);
    if pending.None? {
      return BatchRefused, homes, graves;
    }
    if pending.value == [] {
      return if mainGone then NothingThere else Done, homes, graves;
    }
    var able := ProbeCapabilities(d, restore);
    ghost var probed := d.log;
    CovertlyThen(old(d.log), gathered, probed);
    if !able {
      CovertIsProven(old(d.log), probed, exchange);
      return BatchRefused, homes, graves;
    }
    out, homes, graves := ProcessAll(d, target, pending.value, old(Quiet(d.schedule)));
    SafelyThen(old(d.log), probed, d.log, {}, {}, homes, graves, homes, graves);
    ProvenStays(old(d.log), gathered, probed, probed, restore);
    ProvenThenAnything(old(d.log), probed, d.log, exchange);
  }

  /** Some of the first `n` paths has an adopted program to go back. */
  ghost predicate NeedsExchange(es: Entries, target: Target, n: nat)
    requires n <= |Paths(target)|
  {
    exists i :: 0 <= i < n && Judge(es, Paths(target)[i], true) == Remove(true)
  }

  /** Inspect every destination and sidecar before changing any entry. */
  method GatherPending(d: Directory, target: Target) returns (pending: Option<seq<Path>>, restore: bool, mainGone: bool)
    requires d.Valid()
    modifies d
    ensures d.Looks()
    ensures pending.Some? ==> |pending.value| <= |Paths(target)| && forall p :: p in pending.value ==> p in Paths(target)
    ensures pending == Some([]) ==> mainGone
    ensures old(Alone(d.schedule)) && pending.Some? ==> restore == NeedsExchange(old(d.entries), target, |Paths(target)|)
    ensures old(Quiet(d.schedule)) ==>
      && (pending.Some? <==> NoStop(old(d.entries), target, |Paths(target)|))
      && (pending.Some? ==> pending.value == Due(old(d.entries), target, |Paths(target)|))
  {
    var paths := Paths(target);
    var due: seq<Path> := [];
    restore, mainGone := false, false;
    var i := 0;
    while i < |paths|
      invariant 0 <= i <= |paths|
      invariant d.Looks()
      invariant |due| <= i && forall p :: p in due ==> p in paths
      invariant i > 0 && due == [] ==> mainGone
      invariant old(Alone(d.schedule)) ==> restore == NeedsExchange(old(d.entries), target, i)
      invariant old(Quiet(d.schedule)) ==> NoStop(old(d.entries), target, i) && due == Due(old(d.entries), target, i)
    {
      ghost var before := d.log;
      if i == 0 {
        mainGone := UninstallAlreadyDone(d, paths[0]);
        IdleThenIdle(old(d.log), before, d.log);
      }
      if !(i == 0 && mainGone) {
        ghost var asked := d.log;
        var v := Preflight(d, paths[i], i != 0);
        IdleThenIdle(old(d.log), asked, d.log);
        if v.Stop? {
          return None, restore, mainGone;
        }
        if v.Remove? {
          due := due + [paths[i]];
          restore := restore || v.restore;
        }
      }
      i := i + 1;
    }
    pending := Some(due);
  }
}
