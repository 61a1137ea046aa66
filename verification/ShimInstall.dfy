/**
 Installing a shim: clear every destination first, then act, with an undo stack that is replayed
 newest first when a later step fails. Faults may strike any call; nobody else touches the directory.
 */
module ShimInstall {
  import opened Text
  import opened Wrappers
  import opened Directories
  import opened ShimUninstall
  import Numerals

  // ---------- the text of a shim ----------

  function Intro(path: Path): string {
    "#!/bin/bash\n" +
    (if path == Shared("xclip") then "# cc-clip xclip shim - intercepts Claude Code clipboard calls\n"
     else if path == COMPANION then
       "# cc-clip wl-copy shim - forwards remote clipboard writes to the local machine (Wayland)\n"
     else "# cc-clip wl-paste shim - intercepts Claude Code clipboard calls (Wayland)\n")
  }

  /** The variable that holds the program to fall back to. */
  function Fallback(path: Path): string {
    if path == Shared("xclip") then "REAL_XCLIP" else if path == COMPANION then "REAL_WL_COPY" else "REAL_WL_PASTE"
  }

  function PortLine(port: nat): string {
    "CC_CLIP_PORT=\"${CC_CLIP_PORT:-" + (Numerals.Digits(port) + "}\"\n")
  }

  function ProgramLine(path: Path, delegate: string): string {
    Fallback(path) + ("=\"" + (delegate + "\"\n"))
  }

  const PREAMBLE := "\n# Remove with:  cc-clip uninstall\n\nset -euo pipefail\n\n"

  function Settings(path: Path, port: nat, delegate: string): string {
    PREAMBLE + (PortLine(port) + ProgramLine(path, delegate))
  }

  /** The head of the script and the two settings filled in; the other settings and the body are not modelled. */
  function ShimText(path: Path, port: nat, delegate: string): string {
    Intro(path) + (SHIM_OWNER_MARKER + Settings(path, port, delegate))
  }

  lemma SameBehind(head: string, a: string, b: string)
    requires head + a == head + b
    ensures a == b
  {
    assert a == (head + a)[|head|..];
  }

  lemma SameBefore(a: string, b: string, tail: string)
    requires a + tail == b + tail
    ensures a == b
  {
    assert |a + tail| == |b + tail|;
    assert a == (a + tail)[..|a|];
  }

  /** Digits end where the first other character stands. */
  lemma SameDigits(m: nat, n: nat, a: string, b: string)
    requires Numerals.Digits(m) + a == Numerals.Digits(n) + b && a != "" && b != "" && a[0] == b[0] == '}'
    ensures m == n && a == b
  {
    var x, y := Numerals.Digits(m), Numerals.Digits(n);
    Numerals.ValueOfDigits(m);
    Numerals.ValueOfDigits(n);
    assert (x + a)[|x|] == '}' && (y + b)[|y|] == '}';
    assert forall i :: 0 <= i < |x| ==> (x + a)[i] == x[i];
    assert forall i :: 0 <= i < |y| ==> (y + b)[i] == y[i];
    assert |x| == |y|;
    assert x == (x + a)[..|x|] && a == (x + a)[|x|..];
  }

  lemma SettingsTell(path: Path, port: nat, delegate: string, port': nat, delegate': string)
    requires Settings(path, port, delegate) == Settings(path, port', delegate')
    ensures port == port' && delegate == delegate'
  {
    SameBehind(PREAMBLE, PortLine(port) + ProgramLine(path, delegate), PortLine(port') + ProgramLine(path, delegate'));
    var head := "CC_CLIP_PORT=\"${CC_CLIP_PORT:-";
    var a, b := "}\"\n" + ProgramLine(path, delegate), "}\"\n" + ProgramLine(path, delegate');
    assert PortLine(port) + ProgramLine(path, delegate) == head + (Numerals.Digits(port) + a);
    assert PortLine(port') + ProgramLine(path, delegate') == head + (Numerals.Digits(port') + b);
    SameBehind(head, Numerals.Digits(port) + a, Numerals.Digits(port') + b);
    SameDigits(port, port', a, b);
    SameBehind("}\"\n", ProgramLine(path, delegate), ProgramLine(path, delegate'));
    SameBehind(Fallback(path), "=\"" + (delegate + "\"\n"), "=\"" + (delegate' + "\"\n"));
    SameBehind("=\"", delegate + "\"\n", delegate' + "\"\n");
    SameBefore(delegate, delegate', "\"\n");
  }

  /** The text of a shim tells its port and its program: no other pair gives the same text. */
  lemma ShimTextTells(path: Path, port: nat, delegate: string, port': nat, delegate': string)
    requires ShimText(path, port, delegate) == ShimText(path, port', delegate')
    ensures port == port' && delegate == delegate'
  {
    SameBehind(Intro(path), SHIM_OWNER_MARKER + Settings(path, port, delegate), SHIM_OWNER_MARKER + Settings(path, port', delegate'));
    SameBehind(SHIM_OWNER_MARKER, Settings(path, port, delegate), Settings(path, port', delegate'));
    SettingsTell(path, port, delegate, port', delegate');
  }

  /** Text that starts early enough is seen by the ownership check, whatever follows it. */
  lemma SeenInHeader(before: string, part: string, after: string)
    requires |before| + |part| <= SHIM_HEADER_BYTES
    ensures Contains(Header(before + (part + after)), part)
  {
    var t := before + (part + after);
    var h := Header(t);
    assert forall k :: 0 <= k < |part| ==> h[|before| + k] == t[|before| + k] == part[k];
    assert h[|before|..][..|part|] == part;
    assert HasPrefix(h[|before|..], part);
  }

  lemma IntroIsShort(path: Path)
    ensures |Intro(path)| <= 120
  {
  }

  /** Whatever the port and the delegate, an installed shim is recognised as ours. */
  lemma ShimTextIsOurs(e: Entry, path: Path, port: nat, delegate: string)
    requires IsText(e, ShimText(path, port, delegate))
    ensures IsShim(e)
  {
    IntroIsShort(path);
    assert |SHIM_OWNER_MARKER| == 31;
    SeenInHeader(Intro(path), SHIM_OWNER_MARKER, Settings(path, port, delegate));
  }

  // ---------- deciding about one destination ----------

  datatype Plan = NoGo | Go(delegate: Option<string>, adopt: bool)

  function FullPath(dir: string, path: Path): string {
    dir + "/" + path.file
  }

  ghost function AdoptedDelegate(es: Entries, dir: string, path: Path): Option<string> {
    if RegularAt(es, Sidecar(path)) then Some(FullPath(dir, Sidecar(path))) else None
  }

  /** What a calm inspection decides: replace a link, refuse or adopt a program, take a vacant place. */
  ghost function PlanFor(es: Entries, dir: string, path: Path, adoptForeign: bool): Plan {
    if path !in es then Go(AdoptedDelegate(es, dir, path), false)
    else if LinkAt(es, path) then
      Go(if es[path].kind.target != FullPath(dir, path) && es[path].kind.live then Some(es[path].kind.target) else None, false)
    else if IsShim(es[path]) then Go(AdoptedDelegate(es, dir, path), false)
    else if !RegularAt(es, path) || !adoptForeign || Sidecar(path) in es then NoGo
    else Go(Some(FullPath(dir, Sidecar(path))), true)
  }

  /**
   The program a shim at `path` is to fall back to: what an adoption moved aside; else what a live link to
   another place led to; else, where no link was, what an earlier adoption left; else what the search found;
   else the one in /usr/bin.
   */
  ghost function ProgramFor(es: Entries, dir: string, path: Path, adopted: bool, found: Option<string>): string {
    var kept := path.file + ".cc-clip-real";
    if adopted then dir + "/" + kept
    else if LinkAt(es, path) && es[path].kind.live && es[path].kind.target != dir + "/" + path.file then es[path].kind.target
    else if !LinkAt(es, path) && RegularAt(es, Shared(kept)) then dir + "/" + kept
    else if found.Some? then found.value
    else "/usr/bin/" + path.file
  }

  /** A shim is told to fall back to itself only by the search, or in /usr/bin without one. */
  ghost predicate NotItself(dir: string, path: Path, program: string, found: Option<string>) {
    program == dir + "/" + path.file ==> found == Some(program) || (found.None? && dir == "/usr/bin")
  }

  lemma SidecarIsElsewhere(dir: string, path: Path)
    ensures FullPath(dir, Sidecar(path)) == dir + "/" + (path.file + ".cc-clip-real")
    ensures FullPath(dir, Sidecar(path)) != FullPath(dir, path)
  {
    assert |FullPath(dir, Sidecar(path))| > |FullPath(dir, path)|;
  }

  lemma OnlyUsrBin(dir: string, path: Path)
    ensures "/usr/bin/" + path.file == dir + "/" + path.file <==> dir == "/usr/bin"
  {
    assert "/usr/bin/" + path.file == "/usr/bin" + ("/" + path.file);
    assert dir + "/" + path.file == dir + ("/" + path.file);
    if "/usr/bin/" + path.file == dir + "/" + path.file {
      SameBefore("/usr/bin", dir, "/" + path.file);
    }
  }

  /**
   A shim falls back to itself exactly when nothing was adopted, no live link led elsewhere, nothing kept
   answers, and the search gave the shim's own path or, for a shim in /usr/bin, nothing.
   */
  lemma FallsBackToItself(es: Entries, dir: string, path: Path, adopted: bool, found: Option<string>)
    ensures ProgramFor(es, dir, path, adopted, found) == FullPath(dir, path) <==>
      && !adopted
      && (LinkAt(es, path) ==> !es[path].kind.live || es[path].kind.target == FullPath(dir, path))
      && (!LinkAt(es, path) ==> !RegularAt(es, Sidecar(path)))
      && (found == Some(FullPath(dir, path)) || (found.None? && dir == "/usr/bin"))
  {
    SidecarIsElsewhere(dir, path);
    OnlyUsrBin(dir, path);
  }

  /** What the calm decision hands on is that program. */
  lemma DelegateIs(es: Entries, dir: string, path: Path, adoptForeign: bool, found: Option<string>)
    requires PlanFor(es, dir, path, adoptForeign).Go?
    ensures var plan := PlanFor(es, dir, path, adoptForeign);
      Delegate(plan, found, path) == ProgramFor(es, dir, path, plan.adopt, found)
  {
    SidecarIsElsewhere(dir, path);
  }

  /** The shim for this port that falls back to `program` stands at `path`. */
  ghost predicate Serves(es: Entries, path: Path, port: nat, program: string) {
    path in es && IsText(es[path], ShimText(path, port, program))
  }

  ghost predicate LinkAt(es: Entries, path: Path) {
    path in es && es[path].File? && es[path].kind.Symlink?
  }

  /** What may be overwritten without being moved aside first. */
  ghost predicate Replaceable(es: Entries, path: Path) {
    path !in es || LinkAt(es, path) || ShimAt(es, path)
  }

  /** The last call between two schedules failed. */
  ghost predicate LastFailed(before: seq<Turn>, after: seq<Turn>) {
    |after| < |before| && before[|before| - |after| - 1].fault
  }

  /** What a plan to go on rests on, whatever calls failed. */
  ghost predicate Grounded(plan: Plan, es: Entries, path: Path, adoptForeign: bool) {
    plan.Go? ==> if plan.adopt then adoptForeign && RegularAt(es, path) else Replaceable(es, path)
  }

  method AdoptedDelegateOf(d: Directory, dir: string, path: Path) returns (r: Option<string>)
    requires d.Valid()
    modifies d
    ensures d.Looks() && d.schedule == RestOf(old(d.schedule)) && r != Some(FullPath(dir, path))
    ensures old(Quiet(d.schedule)) ==> r == AdoptedDelegate(old(d.entries), dir, path)
  {
    SidecarIsElsewhere(dir, path);
    var stat := d.Lstat(Sidecar(path));
    r := if stat.Found? && stat.entry.File? && stat.entry.kind.Regular? then Some(FullPath(dir, Sidecar(path))) else None;
  }

  method PrepareShimPath(d: Directory, dir: string, path: Path, adoptForeign: bool) returns (plan: Plan)
    requires d.Valid()
    modifies d
    ensures d.Looks()
    ensures old(Alone(d.schedule)) ==> Grounded(plan, old(d.entries), path, adoptForeign)
    // A sidecar that is in the way is only overlooked when the very look at it failed.
    ensures old(Alone(d.schedule)) && plan.Go? && plan.adopt && Sidecar(path) in old(d.entries) ==>
      LastFailed(old(d.schedule), d.schedule)
    ensures plan.Go? && plan.adopt ==> plan.delegate == Some(FullPath(dir, Sidecar(path)))
    ensures plan.Go? ==> plan.delegate != Some(FullPath(dir, path))
    ensures old(Quiet(d.schedule)) ==> plan == PlanFor(old(d.entries), dir, path, adoptForeign)
    ensures old(Alone(d.schedule)) && !NextFault(old(d.schedule)) ==>
      && (path !in old(d.entries) ==> plan.Go? && !plan.adopt && d.schedule == RestOf(RestOf(old(d.schedule))))
      && (LinkAt(old(d.entries), path) ==> plan.Go? && !plan.adopt && d.schedule == RestOf(old(d.schedule)))
    ensures Overlooked(old(d.entries), old(d.schedule), path, 3) && adoptForeign ==> plan.Go? && plan.adopt && Quiet(d.schedule)
  {
    if Overlooked(d.entries, d.schedule, path, 3) {
      OneFaultNears(d.schedule, 3);
    }
    var stat := d.Lstat(path);
    ghost var seen := d.log;
    match stat {
      case Missing =>
        var delegate := AdoptedDelegateOf(d, dir, path);
        plan := Go(delegate, false);
        IdleThenIdle(old(d.log), seen, d.log);
        return;
      case Unknown =>
        return NoGo;
      case Found(entry) =>
        if entry.File? && entry.kind.Symlink? {
          var useful := entry.kind.target != FullPath(dir, path) && entry.kind.live;
          return Go(if useful then Some(entry.kind.target) else None, false);
        }
        plan := PrepareOccupied(d, dir, path, entry, adoptForeign);
        IdleThenIdle(old(d.log), seen, d.log);
    }
  }

  /** A foreign program whose sidecar name is taken, and only the `n`th call after the next fails. */
  ghost predicate Overlooked(es: Entries, schedule: seq<Turn>, path: Path, n: nat) {
    OneFault(schedule, n) && RegularAt(es, path) && !IsShim(es[path]) && Sidecar(path) in es
  }

  /** The destination holds something that is not a link. */
  method PrepareOccupied(d: Directory, dir: string, path: Path, entry: Entry, adoptForeign: bool) returns (plan: Plan)
    requires d.Valid() && path in d.entries && d.entries[path] == entry && !LinkAt(d.entries, path)
    modifies d
    ensures d.Looks()
    ensures old(Alone(d.schedule)) ==> Grounded(plan, old(d.entries), path, adoptForeign)
    ensures old(Alone(d.schedule)) && plan.Go? && plan.adopt && Sidecar(path) in old(d.entries) ==>
      LastFailed(old(d.schedule), d.schedule)
    ensures plan.Go? && plan.adopt ==> plan.delegate == Some(FullPath(dir, Sidecar(path)))
    ensures plan.Go? ==> plan.delegate != Some(FullPath(dir, path))
    ensures old(Quiet(d.schedule)) ==> plan == PlanFor(old(d.entries), dir, path, adoptForeign)
    ensures Overlooked(old(d.entries), old(d.schedule), path, 2) && adoptForeign ==> plan.Go? && plan.adopt && Quiet(d.schedule)
  {
    SidecarIsElsewhere(dir, path);
    if Overlooked(d.entries, d.schedule, path, 2) {
      OneFaultNears(d.schedule, 2);
      OneFaultNears(RestOf(d.schedule), 1);
      OneFaultNears(RestOf(RestOf(d.schedule)), 0);
    }
    var ours := d.IsOurShim(path);
    ghost var seen := d.log;
    if ours {
      var delegate := AdoptedDelegateOf(d, dir, path);
      IdleThenIdle(old(d.log), seen, d.log);
      return Go(delegate, false);
    }
    if !(entry.File? && entry.kind.Regular?) || !adoptForeign {
      return NoGo;
    }
    var stat := d.Lstat(Sidecar(path));
    IdleThenIdle(old(d.log), seen, d.log);
    return if stat.Found? then NoGo else Go(Some(FullPath(dir, Sidecar(path))), true);
  }

  // ---------- acting, with an undo stack ----------

  datatype Undo = MoveBack(path: Path) | TakeOff(path: Path)

  datatype Stage = AdoptMain | AdoptCompanion | WriteMain | WriteCompanion

  datatype Result = Installed | NotStarted | Failed(at: Stage, undone: bool)

  function MovedAside(v: Entries, path: Path): Entries
    requires path in v
  {
    (v - {path})[Sidecar(path) := v[path]]
  }

  function UndoOne(v: Entries, u: Undo): Entries {
    match u
    case MoveBack(path) => if Sidecar(path) in v then (v - {Sidecar(path)})[path := v[Sidecar(path)]] else v
    case TakeOff(path) => v - {path}
  }

  /** Undo steps are replayed newest first. */
  function UndoAll(v: Entries, undo: seq<Undo>): Entries
    decreases |undo|
  {
    if undo == [] then v else UndoAll(UndoOne(v, undo[|undo| - 1]), undo[..|undo| - 1])
  }

  /** Every step of the stack finds what it is to move or take off. */
  predicate Undoable(v: Entries, undo: seq<Undo>)
    decreases |undo|
  {
    undo == [] ||
    var u := undo[|undo| - 1];
    && (match u case MoveBack(path) => Sidecar(path) in v case TakeOff(path) => path in v)
    && Undoable(UndoOne(v, u), undo[..|undo| - 1])
  }

  method Replay(d: Directory, undo: seq<Undo>) returns (undone: bool)
    requires d.Valid()
    modifies d
    ensures d.Continues()
    ensures old(Alone(d.schedule)) && undone ==> Visible(d.entries) == UndoAll(Visible(old(d.entries)), undo)
    ensures old(Quiet(d.schedule)) && Undoable(Visible(old(d.entries)), undo) ==> undone
  {
    undone := true;
    var i := |undo|;
    assert undo[..i] == undo;
    while i > 0
      invariant 0 <= i <= |undo|
      invariant d.Continues()
      invariant old(Alone(d.schedule)) && undone ==>
        UndoAll(Visible(d.entries), undo[..i]) == UndoAll(Visible(old(d.entries)), undo)
      invariant old(Quiet(d.schedule)) && Undoable(Visible(old(d.entries)), undo) ==>
        undone && Undoable(Visible(d.entries), undo[..i])
    {
      i := i - 1;
      ghost var before := Visible(d.entries);
      assert undo[..i + 1][..i] == undo[..i];
      var ok;
      match undo[i] {
        case MoveBack(path) => ok := d.Rename(Sidecar(path), path);
        case TakeOff(path) => ok := d.Remove(path);
      }
      assert old(Alone(d.schedule)) && ok ==> Visible(d.entries) == UndoOne(before, undo[i]);
      undone := undone && ok;
    }
  }

  /** Write to a sibling temporary file, then rename it over the destination. */
  method WriteShimFile(d: Directory, path: Path, content: string) returns (ok: bool)
    requires d.Valid()
    modifies d
    ensures d.Continues()
    ensures old(Alone(d.schedule)) && !ok ==> Visible(d.entries) == Visible(old(d.entries))
    ensures old(Alone(d.schedule)) && ok ==> path in d.entries && IsText(d.entries[path], content)
    ensures old(Alone(d.schedule)) && ok ==> Visible(d.entries) == Visible(old(d.entries))[path := d.entries[path]]
    ensures old(Quiet(d.schedule)) ==> ok
    ensures old(Quiet(d.schedule)) ==> d.entries == old(d.entries)[path := d.entries[path]]
    ensures OneFault(old(d.schedule), 0) ==> !ok && Quiet(d.schedule)
    ensures OneFault(old(d.schedule), 4) ==> ok && OneFault(d.schedule, 0)
  {
    if OneFault(d.schedule, 0) {
      OneFaultNears(d.schedule, 0);
    } else if OneFault(d.schedule, 4) {
      OneFaultNears(d.schedule, 4);
    }
    var tmp := d.Create();
    if tmp.None? {
      return false;
    }
    assert old(Alone(d.schedule)) ==> tmp.value !in old(d.entries);
    if old(Alone(d.schedule)) {
      TempGone(old(d.entries), tmp.value);
    }
    ok := PublishAndSweep(d, tmp.value, path, content);
  }

  /** Publish, and whatever came of it remove the temporary name. */
  method PublishAndSweep(d: Directory, tmp: Name, path: Path, content: string) returns (ok: bool)
    requires d.Valid() && tmp.Private? && tmp in d.entries && d.entries[tmp].Scratch?
    modifies d
    ensures d.Continues()
    ensures old(Alone(d.schedule)) && !ok ==> Visible(d.entries) == Visible(old(d.entries))
    ensures old(Alone(d.schedule)) && ok ==> path in d.entries && IsText(d.entries[path], content)
    ensures old(Alone(d.schedule)) && ok ==> d.entries == (old(d.entries) - {tmp})[path := d.entries[path]]
    ensures old(Quiet(d.schedule)) ==> ok
    ensures OneFault(old(d.schedule), 3) ==> ok && OneFault(d.schedule, 0)
  {
    ok := Publish(d, tmp, path, content);
    if OneFault(d.schedule, 1) {
      OneFaultNears(d.schedule, 1);
    }
    var _ := d.Remove(tmp);
  }

  lemma TempGone(es: Entries, tmp: Name)
    requires tmp !in es && tmp.Private?
    ensures es[tmp := Scratch] - {tmp} == es && Visible(es[tmp := Scratch]) == Visible(es)
  {
  }

  /** The temporary file gets its content and takes the place of whatever is at the path. */
  method Publish(d: Directory, tmp: Name, path: Path, content: string) returns (ok: bool)
    requires d.Valid() && tmp.Private? && tmp in d.entries && d.entries[tmp].Scratch?
    modifies d
    ensures d.Continues()
    ensures old(Alone(d.schedule)) && !ok ==> Visible(d.entries) == Visible(old(d.entries)) && d.entries - {tmp} == old(d.entries) - {tmp}
    ensures old(Alone(d.schedule)) && ok ==> path in d.entries && IsText(d.entries[path], content)
    ensures old(Alone(d.schedule)) && ok ==> d.entries == (old(d.entries) - {tmp})[path := d.entries[path]]
    ensures old(Quiet(d.schedule)) ==> ok
    ensures OneFault(old(d.schedule), 3) ==> ok && OneFault(d.schedule, 1)
  {
    if OneFault(d.schedule, 3) {
      OneFaultNears(d.schedule, 3);
      OneFaultNears(RestOf(d.schedule), 2);
    }
    ok := d.Fill(tmp, content);
    if ok {
      ok := d.Rename(tmp, path);
    }
  }

  // ---------- what the undo stack gives back ----------

  function Touched(u: Undo): set<Name> {
    {u.path, Sidecar(u.path)}
  }

  lemma {:induction false} UndoSpares(v: Entries, undo: seq<Undo>, n: Name)
    requires forall u :: u in undo ==> n !in Touched(u)
    ensures UndoAll(v - {n}, undo) == UndoAll(v, undo) - {n}
    decreases |undo|
  {
    if undo != [] {
      var u := undo[|undo| - 1];
      assert u in undo;
      assert UndoOne(v - {n}, u) == UndoOne(v, u) - {n};
      UndoSpares(UndoOne(v, u), undo[..|undo| - 1], n);
    }
  }

  lemma UndoPushed(v: Entries, undo: seq<Undo>, u: Undo)
    ensures UndoAll(v, undo + [u]) == UndoAll(UndoOne(v, u), undo)
  {
    assert (undo + [u])[..|undo|] == undo;
  }

  /** After moving `p` aside the stack still leads back, but for what sat on the sidecar name. */
  lemma PushedMoveBack(v: Entries, undo: seq<Undo>, p: Path)
    requires p in v && forall u :: u in undo ==> Apart(u.path, p)
    ensures UndoAll(MovedAside(v, p), undo + [MoveBack(p)]) == UndoAll(v, undo) - {Sidecar(p)}
  {
    UndoPushed(MovedAside(v, p), undo, MoveBack(p));
    assert UndoOne(MovedAside(v, p), MoveBack(p)) == v - {Sidecar(p)};
    UndoSpares(v, undo, Sidecar(p));
  }

  /** After writing a shim over `p` the stack leads back, but for what the shim replaced. */
  lemma PushedTakeOff(v: Entries, undo: seq<Undo>, p: Path, shim: Entry, vacant: bool)
    requires if vacant then p !in v else forall u :: u in undo ==> p !in Touched(u)
    ensures UndoAll(v[p := shim], undo + [TakeOff(p)]) == UndoAll(v, undo) - if vacant then {} else {p}
  {
    UndoPushed(v[p := shim], undo, TakeOff(p));
    assert UndoOne(v[p := shim], TakeOff(p)) == v - {p};
    if vacant {
      assert v - {p} == v;
    } else {
      UndoSpares(v, undo, p);
    }
  }

  // ---------- the whole request ----------

  /** What an install that succeeds leaves at one destination. */
  function AfterOne(v: Entries, path: Path, adopt: bool, shim: Entry): Entries
    requires adopt ==> path in v
  {
    (if adopt then MovedAside(v, path) else v)[path := shim]
  }

  /** The two destinations of a request, with the decision taken about each. */
  datatype Cleared = Cleared(main: Path, other: Option<Path>, adoptMain: bool, adoptOther: bool) {
    predicate Valid() {
      (other.Some? ==> Apart(main, other.value)) && (adoptOther ==> other.Some?)
    }
  }

  /**
   The names whose entry a complete rollback cannot give back after a failure at `at`: whatever an
   adoption overwrote on a sidecar name, and what the main shim replaced without moving it aside.
   */
  function Lost(at: Stage, c: Cleared): set<Path>
    requires c.Valid()
  {
    (if c.adoptMain && at != AdoptMain then {Sidecar(c.main)} else {})
    + (if c.adoptOther && (at.WriteMain? || at.WriteCompanion?) then {Sidecar(c.other.value)} else {})
    + (if !c.adoptMain && at.WriteCompanion? then {c.main} else {})
  }

  ghost predicate LeadsBack(d: Directory, undo: seq<Undo>, start: Entries, lost: set<Path>)
    reads d
  {
    UndoAll(Visible(d.entries), undo) == start - lost
  }

  /** Move aside what was cleared for adoption, leaving a stack that leads back. */
  method AdoptIf(d: Directory, path: Path, want: bool, undo: seq<Undo>, ghost start: Entries, ghost lost: set<Path>,
                 ghost alone: bool)
    returns (ok: bool, undo': seq<Undo>)
    requires d.Valid() && forall u :: u in undo ==> Apart(u.path, path)
    requires alone ==> Alone(d.schedule) && LeadsBack(d, undo, start, lost) && (want ==> path in d.entries)
    modifies d
    ensures d.Continues()
    ensures undo' == if ok && want then undo + [MoveBack(path)] else undo
    ensures !want ==> ok && d.schedule == old(d.schedule) && d.entries == old(d.entries)
    ensures alone && !ok ==> d.entries == old(d.entries)
    ensures alone ==> LeadsBack(d, undo', start, lost + if ok && want then {Sidecar(path)} else {})
    ensures alone && ok ==>
      Visible(d.entries) == if want then MovedAside(Visible(old(d.entries)), path) else Visible(old(d.entries))
    ensures alone && old(Quiet(d.schedule)) ==> ok
  {
    ok, undo' := true, undo;
    if !want {
      assert lost + {} == lost;
      return;
    }
    ok := d.Rename(path, Sidecar(path));
    if !ok {
      assert lost + {} == lost;
      return;
    }
    undo' := undo + [MoveBack(path)];
    if alone {
      assert Visible(d.entries) == MovedAside(Visible(old(d.entries)), path);
      PushedMoveBack(Visible(old(d.entries)), undo, path);
      assert start - lost - {Sidecar(path)} == start - (lost + {Sidecar(path)});
    }
  }

  lemma VisibleIs(es: Entries, path: Path)
    ensures path in Visible(es) <==> path in es
    ensures path in es ==> Visible(es)[path] == es[path]
  {
  }

  /** Undo what was done and report the failure. */
  method Fail(d: Directory, undo: seq<Undo>, at: Stage) returns (out: Result)
    requires d.Valid()
    modifies d
    ensures d.Continues() && out.Failed? && out.at == at
    ensures old(Alone(d.schedule)) && out.undone ==> Visible(d.entries) == UndoAll(Visible(old(d.entries)), undo)
    ensures old(Quiet(d.schedule)) && Undoable(Visible(old(d.entries)), undo) ==> out.undone
  {
    var undone := Replay(d, undo);
    out := Failed(at, undone);
  }

  /** Put the main shim in place and register its removal; `vacant` says that its place is empty. */
  method WriteMainShim(d: Directory, main: Path, content: string, undo: seq<Undo>, ghost start: Entries, ghost lost: set<Path>,
                       ghost alone: bool, ghost vacant: bool)
    returns (ok: bool, undo': seq<Undo>)
    requires d.Valid()
    requires alone ==> Alone(d.schedule) && LeadsBack(d, undo, start, lost)
    requires alone ==> if vacant then main !in Visible(d.entries) else forall u :: u in undo ==> main !in Touched(u)
    modifies d
    ensures d.Continues()
    ensures old(Quiet(d.schedule)) ==> ok
    ensures OneFault(old(d.schedule), 4) ==> ok && OneFault(d.schedule, 0)
    ensures ok ==> undo' == undo + [TakeOff(main)]
    ensures alone && !ok ==> LeadsBack(d, undo', start, lost)
    ensures alone && ok ==> main in d.entries && IsText(d.entries[main], content)
    ensures alone && ok ==> Visible(d.entries) == Visible(old(d.entries))[main := d.entries[main]]
    ensures alone && ok ==> LeadsBack(d, undo', start, lost + if vacant then {} else {main})
  {
    ok := WriteShimFile(d, main, content);
    undo' := undo;
    if ok {
      undo' := undo + [TakeOff(main)];
      if alone {
        PushedTakeOff(Visible(old(d.entries)), undo, main, d.entries[main], vacant);
        assert start - lost - {main} == start - (lost + {main});
        assert start - lost - {} == start - (lost + {});
      }
    }
  }

  /** What both destinations look like once everything cleared for adoption is moved aside. */
  function AdoptedView(v: Entries, c: Cleared): Entries
    requires c.Valid() && (c.adoptMain ==> c.main in v) && (c.adoptOther ==> c.other.value in v)
  {
    var first := if c.adoptMain then MovedAside(v, c.main) else v;
    if c.adoptOther then MovedAside(first, c.other.value) else first
  }

  method AdoptAll(d: Directory, c: Cleared, ghost alone: bool) returns (failed: Option<Stage>, undo: seq<Undo>)
    requires d.Valid() && c.Valid()
    requires alone ==> Alone(d.schedule)
    requires alone ==>
      (c.adoptMain ==> c.main in Visible(d.entries)) && (c.adoptOther ==> c.other.value in Visible(d.entries))
    modifies d
    ensures d.Continues()
    ensures failed.Some? ==> failed == Some(AdoptMain) || failed == Some(AdoptCompanion)
    ensures forall u :: u in undo ==> (u.path == c.main && c.adoptMain) || (c.other.Some? && u.path == c.other.value)
    ensures alone ==>
      LeadsBack(d, undo, old(Visible(d.entries)), Lost(if failed.Some? then failed.value else WriteMain, c))
    ensures alone && failed.None? ==> Visible(d.entries) == AdoptedView(old(Visible(d.entries)), c)
    ensures alone && old(Quiet(d.schedule)) ==> failed.None?
    ensures !c.adoptMain && !c.adoptOther ==>
      failed.None? && undo == [] && d.schedule == old(d.schedule) && d.entries == old(d.entries)
  {
    ghost var start := Visible(d.entries);
    undo, failed := [], None;
    assert start - {} == start;
    var ok;
    ok, undo := AdoptIf(d, c.main, c.adoptMain, undo, start, {}, alone);
    if !ok {
      return Some(AdoptMain), undo;
    }
    ghost var lost: set<Path> := {} + if c.adoptMain then {Sidecar(c.main)} else {};
    assert lost == Lost(AdoptCompanion, c);
    if c.other.Some? {
      VisibleIs(d.entries, c.other.value);
      ok, undo := AdoptIf(d, c.other.value, c.adoptOther, undo, start, lost, alone);
      if !ok {
        assert lost + {} == lost;
        return Some(AdoptCompanion), undo;
      }
    }
    assert Lost(WriteMain, c) == lost + if c.adoptOther then {Sidecar(c.other.value)} else {};
  }

  lemma OneUndoable(v: Entries, undo: seq<Undo>, p: Path)
    requires undo == [] + [TakeOff(p)] && p in v
    ensures Undoable(v, undo)
  {
    assert undo[..0] == [];
  }

  /** Both shims go in, main first; a failure rolls everything back. */
  method WriteAll(d: Directory, c: Cleared, mainText: string, otherText: string, undo0: seq<Undo>,
                  ghost start: Entries, ghost alone: bool) returns (out: Result)
    requires d.Valid() && c.Valid()
    requires alone ==> Alone(d.schedule) && LeadsBack(d, undo0, start, Lost(WriteMain, c))
    requires alone && c.adoptMain ==> c.main !in Visible(d.entries)
    requires !c.adoptMain ==> forall u :: u in undo0 ==> c.main !in Touched(u)
    modifies d
    ensures d.Continues() && (out.Installed? || out.Failed?)
    ensures old(Quiet(d.schedule)) ==> out.Installed?
    ensures alone && out.Failed? && out.undone ==> Visible(d.entries) == start - Lost(out.at, c)
    ensures alone && undo0 == [] && c.other.Some? && OneFault(old(d.schedule), 4) ==> out == Failed(WriteCompanion, true)
    ensures alone && out.Installed? ==> c.main in d.entries && IsText(d.entries[c.main], mainText)
    ensures alone && out.Installed? && c.other.Some? ==>
      c.other.value in d.entries && IsText(d.entries[c.other.value], otherText)
    ensures alone && out.Installed? ==> Visible(d.entries) == Written(Visible(old(d.entries)), c, d.entries)
  {
    var ok, undo := WriteMainShim(d, c.main, mainText, undo0, start, Lost(WriteMain, c), alone, c.adoptMain);
    if !ok {
      out := Fail(d, undo, WriteMain);
      return;
    }
    out := Installed;
    if c.other.Some? {
      VisibleIs(d.entries, c.main);
      assert Lost(WriteCompanion, c) == Lost(WriteMain, c) + if c.adoptMain then {} else {c.main};
      if undo0 == [] && alone {
        OneUndoable(Visible(d.entries), undo, c.main);
      }
      out := WriteCompanionShim(d, c.other.value, otherText, undo, start, Lost(WriteCompanion, c), alone);
      VisibleIs(d.entries, c.main);
    }
  }

  /** The companion's shim, or everything undone. */
  method WriteCompanionShim(d: Directory, other: Path, text: string, undo: seq<Undo>, ghost start: Entries, ghost lost: set<Path>,
                            ghost alone: bool)
    returns (out: Result)
    requires d.Valid()
    requires alone ==> Alone(d.schedule) && LeadsBack(d, undo, start, lost)
    modifies d
    ensures d.Continues() && (out.Installed? || (out.Failed? && out.at == WriteCompanion))
    ensures old(Quiet(d.schedule)) ==> out.Installed?
    ensures alone && out.Failed? && out.undone ==> Visible(d.entries) == start - lost
    ensures alone && OneFault(old(d.schedule), 0) && Undoable(Visible(old(d.entries)), undo) ==> out == Failed(WriteCompanion, true)
    ensures alone && out.Installed? ==> other in d.entries && IsText(d.entries[other], text)
    ensures alone && out.Installed? ==> Visible(d.entries) == Visible(old(d.entries))[other := d.entries[other]]
  {
    var ok := WriteShimFile(d, other, text);
    out := Installed;
    if !ok {
      out := Fail(d, undo, WriteCompanion);
    }
  }

  /** `v` with the shims found in `now` at their places. */
  function Written(v: Entries, c: Cleared, now: Entries): Entries
    requires c.main in now && (c.other.Some? ==> c.other.value in now)
  {
    var first := v[c.main := now[c.main]];
    if c.other.Some? then first[c.other.value := now[c.other.value]] else first
  }

  /** Nothing is to be moved aside, and the one call that fails is that for the companion's temporary file. */
  ghost predicate CompanionFails(c: Cleared, schedule: seq<Turn>, n: nat) {
    !c.adoptMain && !c.adoptOther && c.other.Some? && OneFault(schedule, n)
  }

  /** Every destination is cleared: perform the side effects, each with its undo. */
  method Perform(d: Directory, c: Cleared, mainText: string, otherText: string, ghost alone: bool)
    returns (out: Result)
    requires d.Valid() && c.Valid()
    requires alone ==> Alone(d.schedule)
    requires alone ==>
      (c.adoptMain ==> c.main in Visible(d.entries)) && (c.adoptOther ==> c.other.value in Visible(d.entries))
    modifies d
    ensures d.Continues() && !out.NotStarted?
    ensures alone && old(Quiet(d.schedule)) ==> out.Installed?
    // A rollback that went through gives everything back but the entries on the lost names.
    ensures alone && out.Failed? && out.undone ==>
      Visible(d.entries) == old(Visible(d.entries)) - Lost(out.at, c)
    ensures alone && CompanionFails(c, old(d.schedule), 4) ==> out == Failed(WriteCompanion, true)
    ensures alone && out.Installed? ==> c.main in d.entries && IsText(d.entries[c.main], mainText)
    ensures alone && out.Installed? && c.other.Some? ==>
      c.other.value in d.entries && IsText(d.entries[c.other.value], otherText)
    ensures alone && out.Installed? ==>
      Visible(d.entries) == Written(AdoptedView(old(Visible(d.entries)), c), c, d.entries)
  {
    ghost var start := Visible(d.entries);
    var failed, undo := AdoptAll(d, c, alone);
    if failed.Some? {
      out := Fail(d, undo, failed.value);
    } else {
      out := WriteAll(d, c, mainText, otherText, undo, start, alone);
    }
  }

  function Other(target: Target): Option<Path> {
    if target.WlPaste? then Some(COMPANION) else None
  }

  /** The program the shim falls back to: what was adopted or linked, else a search result, else /usr/bin. */
  function Delegate(plan: Plan, found: Option<string>, path: Path): string
    requires plan.Go?
  {
    if plan.delegate.Some? then plan.delegate.value
    else if found.Some? then found.value
    else "/usr/bin/" + path.file
  }

  ghost predicate Installable(es: Entries, dir: string, target: Target, adoptForeign: bool) {
    && !ShimAt(es, Main(target))
    && PlanFor(es, dir, Main(target), adoptForeign).Go?
    && (target.WlPaste? ==> PlanFor(es, dir, COMPANION, adoptForeign).Go?)
  }

  ghost function ClearedBy(es: Entries, dir: string, target: Target, adoptForeign: bool): Cleared
    requires Installable(es, dir, target, adoptForeign)
  {
    Cleared(Main(target), Other(target), PlanFor(es, dir, Main(target), adoptForeign).adopt,
            target.WlPaste? && PlanFor(es, dir, COMPANION, adoptForeign).adopt)
  }

  /** Without faults the entries alone decide. */
  ghost predicate Decided(es: Entries, dir: string, target: Target, adoptForeign: bool, out: Result, c: Cleared) {
    if Installable(es, dir, target, adoptForeign) then out.Installed? && c == ClearedBy(es, dir, target, adoptForeign)
    else out.NotStarted?
  }

  /** What is to be moved aside is a program, and everything else may be overwritten. */
  ghost predicate WellCleared(c: Cleared, es: Entries, adoptForeign: bool) {
    && (if c.adoptMain then adoptForeign && RegularAt(es, c.main) else Replaceable(es, c.main))
    && (c.other.Some? ==>
      if c.adoptOther then adoptForeign && RegularAt(es, c.other.value) else Replaceable(es, c.other.value))
  }

  ghost predicate LinkBesideVacant(es: Entries, target: Target) {
    target.WlPaste? && LinkAt(es, Main(target)) && COMPANION !in es
  }

  /** Both decisions are taken before anything is touched. */
  method Clear(d: Directory, dir: string, target: Target, adoptForeign: bool)
    returns (c: Option<Cleared>, mainPlan: Plan, otherPlan: Plan)
    requires d.Valid()
    modifies d
    ensures d.Looks()
    ensures c.Some? ==> c.value.Valid() && c.value.main == Main(target) && c.value.other == Other(target)
    ensures c.Some? ==> mainPlan.Go? && (target.WlPaste? ==> otherPlan.Go?)
    ensures c.Some? && c.value.adoptMain ==> mainPlan.delegate == Some(FullPath(dir, Sidecar(Main(target))))
    ensures c.Some? && c.value.adoptOther ==> otherPlan.delegate == Some(FullPath(dir, Sidecar(COMPANION)))
    ensures c.Some? ==> mainPlan.delegate != Some(FullPath(dir, Main(target)))
    ensures c.Some? && target.WlPaste? ==> otherPlan.delegate != Some(FullPath(dir, COMPANION))
    ensures old(Alone(d.schedule)) && c.Some? ==> WellCleared(c.value, old(d.entries), adoptForeign)
    ensures LinkBesideVacant(old(d.entries), target) && OneFault(old(d.schedule), 8) ==>
      c == Some(Cleared(Main(target), Some(COMPANION), false, false)) && OneFault(d.schedule, 4)
    ensures target.Xclip? && adoptForeign && Overlooked(old(d.entries), old(d.schedule), Main(target), 5) ==>
      c == Some(Cleared(Main(target), None, true, false)) && Quiet(d.schedule)
    ensures old(Quiet(d.schedule)) ==> (c.Some? <==> Installable(old(d.entries), dir, target, adoptForeign))
    ensures old(Quiet(d.schedule)) && c.Some? ==> c.value == ClearedBy(old(d.entries), dir, target, adoptForeign)
    ensures old(Quiet(d.schedule)) && c.Some? ==>
      && mainPlan == PlanFor(old(d.entries), dir, Main(target), adoptForeign)
      && (target.WlPaste? ==> otherPlan == PlanFor(old(d.entries), dir, COMPANION, adoptForeign))
  {
    PathsApart();
    otherPlan := NoGo;
    mainPlan := ClearMain(d, dir, target, adoptForeign);
    if mainPlan.NoGo? {
      return None, mainPlan, otherPlan;
    }
    if target.WlPaste? {
      ghost var prepared := d.log;
      if OneFault(d.schedule, 6) {
        OneFaultNears(d.schedule, 6);
        OneFaultNears(RestOf(d.schedule), 5);
      }
      otherPlan := PrepareShimPath(d, dir, COMPANION, adoptForeign);
      IdleThenIdle(old(d.log), prepared, d.log);
      if otherPlan.NoGo? {
        return None, mainPlan, otherPlan;
      }
    }
    c := Some(Cleared(Main(target), Other(target), mainPlan.adopt, target.WlPaste? && otherPlan.adopt));
  }

  /** The main path first: a shim that is there already ends the request. */
  method ClearMain(d: Directory, dir: string, target: Target, adoptForeign: bool) returns (plan: Plan)
    requires d.Valid()
    modifies d
    ensures d.Looks()
    ensures plan.Go? && plan.adopt ==> plan.delegate == Some(FullPath(dir, Sidecar(Main(target))))
    ensures plan.Go? ==> plan.delegate != Some(FullPath(dir, Main(target)))
    ensures old(Alone(d.schedule)) ==> Grounded(plan, old(d.entries), Main(target), adoptForeign)
    ensures LinkAt(old(d.entries), Main(target)) && OneFault(old(d.schedule), 8) ==> plan.Go? && !plan.adopt && OneFault(d.schedule, 6)
    ensures adoptForeign && Overlooked(old(d.entries), old(d.schedule), Main(target), 5) ==> plan.Go? && plan.adopt && Quiet(d.schedule)
    ensures old(Quiet(d.schedule)) ==>
      plan == if ShimAt(old(d.entries), Main(target)) then NoGo else PlanFor(old(d.entries), dir, Main(target), adoptForeign)
  {
    if OneFault(d.schedule, 8) {
      OneFaultNears(d.schedule, 8);
      OneFaultNears(RestOf(d.schedule), 7);
    } else if OneFault(d.schedule, 5) {
      OneFaultNears(d.schedule, 5);
      OneFaultNears(RestOf(d.schedule), 4);
    }
    var already := d.IsOurShim(Main(target));
    if already {
      return NoGo;
    }
    ghost var asked := d.log;
    plan := PrepareShimPath(d, dir, Main(target), adoptForeign);
    IdleThenIdle(old(d.log), asked, d.log);
  }

  /** `after` is `before` with the adopted programs moved aside and a shim at every destination. */
  ghost predicate InstalledFrom(before: Entries, after: Entries, c: Cleared) {
    && c.Valid()
    && (c.adoptMain ==> c.main in before) && (c.adoptOther ==> c.other.value in before)
    && ShimAt(after, c.main) && (c.other.Some? ==> ShimAt(after, c.other.value))
    && after == Written(AdoptedView(before, c), c, after)
  }

  lemma ShimIsPlaced(es: Entries, path: Path, port: nat, delegate: string)
    requires path in es && IsText(es[path], ShimText(path, port, delegate))
    ensures ShimAt(Visible(es), path)
  {
    VisibleIs(es, path);
    ShimTextIsOurs(es[path], path, port, delegate);
  }

  /** No sidecar was overwritten by an adoption, and the main shim replaced nothing. */
  ghost predicate NothingLost(v: Entries, at: Stage, c: Cleared)
    requires c.Valid()
  {
    && (c.adoptMain && at != AdoptMain ==> Sidecar(c.main) !in v)
    && (c.adoptOther && (at.WriteMain? || at.WriteCompanion?) ==> Sidecar(c.other.value) !in v)
    && (!c.adoptMain && at.WriteCompanion? ==> c.main !in v)
  }

  lemma RestoredIffNothingLost(v: Entries, at: Stage, c: Cleared)
    requires c.Valid()
    ensures v - Lost(at, c) == v <==> NothingLost(v, at, c)
  {
    if v - Lost(at, c) == v {
      forall n | n in Lost(at, c) ensures n !in v {
        assert n !in v - Lost(at, c);
      }
    } else {
      assert exists n :: n in v && n in Lost(at, c);
    }
  }

  /** What a request that cleared its destinations makes of what others see. */
  ghost predicate Outcome(v: Entries, w: Entries, out: Result, c: Cleared) {
    && c.Valid()
    && match out
       case NotStarted => w == v
       // Every entry is as it was but those on the lost names; so the directory is restored exactly when
       // nothing was replaced and no sidecar was overlooked.
       case Failed(at, undone) => undone ==> w == v - Lost(at, c) && (w == v <==> NothingLost(v, at, c))
       // The adopted programs were moved aside, and a shim stands at every destination.
       case Installed => InstalledFrom(v, w, c)
  }

  method PerformShims(d: Directory, c: Cleared, port: nat, delegate: string, otherDelegate: string, ghost alone: bool)
    returns (out: Result)
    requires d.Valid() && c.Valid()
    requires alone ==> Alone(d.schedule)
    requires alone ==>
      (c.adoptMain ==> c.main in Visible(d.entries)) && (c.adoptOther ==> c.other.value in Visible(d.entries))
    modifies d
    ensures d.Continues() && !out.NotStarted?
    ensures alone && old(Quiet(d.schedule)) ==> out.Installed?
    ensures alone ==> Outcome(old(Visible(d.entries)), Visible(d.entries), out, c)
    ensures alone && CompanionFails(c, old(d.schedule), 4) ==> out == Failed(WriteCompanion, true)
    ensures alone && out.Installed? ==> Serves(d.entries, c.main, port, delegate)
    ensures alone && out.Installed? && c.other.Some? ==> Serves(d.entries, c.other.value, port, otherDelegate)
  {
    var mainText := ShimText(c.main, port, delegate);
    var otherText := if c.other.Some? then ShimText(c.other.value, port, otherDelegate) else "";
    out := Perform(d, c, mainText, otherText, alone);
    if out.Failed? {
      RestoredIffNothingLost(old(Visible(d.entries)), out.at, c);
    }
    if out.Installed? && alone {
      ShimIsPlaced(d.entries, c.main, port, delegate);
      if c.other.Some? {
        ShimIsPlaced(d.entries, c.other.value, port, otherDelegate);
      }
    }
  }

  method InstallWithOptions(d: Directory, dir: string, target: Target, port: nat, adoptForeign: bool,
                            foundMain: Option<string>, foundOther: Option<string>)
    returns (out: Result, delegate: string, c: Cleared)
    requires d.Valid()
    modifies d
    ensures d.Continues() && c.Valid() && c.main == Main(target)
    ensures out.NotStarted? ==> Idly(old(d.log), d.log, |d.log|)
    ensures old(Alone(d.schedule)) && out.NotStarted? ==> d.entries == old(d.entries)
    // Only a vacant place, a link or a shim of ours is overwritten without being moved aside.
    ensures old(Alone(d.schedule)) && !out.NotStarted? ==> WellCleared(c, old(d.entries), adoptForeign)
    ensures old(Alone(d.schedule)) ==> Outcome(old(Visible(d.entries)), Visible(d.entries), out, c)
    ensures LinkBesideVacant(old(d.entries), target) && OneFault(old(d.schedule), 8) ==> out == Failed(WriteCompanion, true)
    ensures target.Xclip? && adoptForeign && Overlooked(old(d.entries), old(d.schedule), Main(target), 5) ==>
      out.Installed? && c.adoptMain
    // Each shim falls back to one program, which after a calm install is the one that used to answer there.
    ensures !out.NotStarted? ==> c.other == Other(target)
    ensures old(Alone(d.schedule)) && out.Installed? ==> Serves(d.entries, c.main, port, delegate)
    ensures old(Alone(d.schedule)) && out.Installed? && c.other.Some? ==> exists program ::
      Serves(d.entries, c.other.value, port, program) && NotItself(dir, c.other.value, program, foundOther)
    ensures !out.NotStarted? ==> NotItself(dir, c.main, delegate, foundMain)
    ensures old(Quiet(d.schedule)) && out.Installed? ==>
      && delegate == ProgramFor(old(d.entries), dir, c.main, c.adoptMain, foundMain)
      && (c.other.Some? ==>
        Serves(d.entries, c.other.value, port, ProgramFor(old(d.entries), dir, c.other.value, c.adoptOther, foundOther)))
    ensures old(Alone(d.schedule)) && c.adoptMain ==>
      adoptForeign && RegularAt(old(d.entries), c.main) && delegate == FullPath(dir, Sidecar(c.main))
    ensures old(Quiet(d.schedule)) ==> Decided(old(d.entries), dir, target, adoptForeign, out, c)
  {
    delegate, c := "", Cleared(Main(target), None, false, false);
    var otherDelegate;
    var cleared;
    cleared, delegate, otherDelegate := Choose(d, dir, target, adoptForeign, foundMain, foundOther);
    if cleared.None? {
      return NotStarted, delegate, c;
    }
    c := cleared.value;
    out := PerformShims(d, c, port, delegate, otherDelegate, old(Alone(d.schedule)));
  }

  /** Clear both destinations and settle what their shims fall back to. */
  method Choose(d: Directory, dir: string, target: Target, adoptForeign: bool, foundMain: Option<string>, foundOther: Option<string>)
    returns (c: Option<Cleared>, delegate: string, otherDelegate: string)
    requires d.Valid()
    modifies d
    ensures d.Looks()
    ensures c.Some? ==> c.value.Valid() && c.value.main == Main(target) && c.value.other == Other(target)
    ensures c.Some? && c.value.adoptMain ==> delegate == FullPath(dir, Sidecar(Main(target)))
    ensures c.Some? && c.value.adoptOther ==> otherDelegate == FullPath(dir, Sidecar(COMPANION))
    ensures c.Some? ==> NotItself(dir, Main(target), delegate, foundMain)
    ensures c.Some? && target.WlPaste? ==> NotItself(dir, COMPANION, otherDelegate, foundOther)
    ensures old(Alone(d.schedule)) && c.Some? ==> WellCleared(c.value, old(d.entries), adoptForeign)
    ensures LinkBesideVacant(old(d.entries), target) && OneFault(old(d.schedule), 8) ==>
      c == Some(Cleared(Main(target), Some(COMPANION), false, false)) && OneFault(d.schedule, 4)
    ensures target.Xclip? && adoptForeign && Overlooked(old(d.entries), old(d.schedule), Main(target), 5) ==>
      c == Some(Cleared(Main(target), None, true, false)) && Quiet(d.schedule)
    ensures old(Quiet(d.schedule)) ==> (c.Some? <==> Installable(old(d.entries), dir, target, adoptForeign))
    ensures old(Quiet(d.schedule)) && c.Some? ==>
      && c.value == ClearedBy(old(d.entries), dir, target, adoptForeign)
      && delegate == ProgramFor(old(d.entries), dir, Main(target), c.value.adoptMain, foundMain)
      && (target.WlPaste? ==> otherDelegate == ProgramFor(old(d.entries), dir, COMPANION, c.value.adoptOther, foundOther))
  {
    delegate, otherDelegate := "", "";
    var mainPlan, otherPlan;
    c, mainPlan, otherPlan := Clear(d, dir, target, adoptForeign);
    if c.Some? {
      delegate := ProgramOf(mainPlan, old(d.entries), dir, Main(target), adoptForeign, foundMain, old(Quiet(d.schedule)));
      if target.WlPaste? {
        otherDelegate := ProgramOf(otherPlan, old(d.entries), dir, COMPANION, adoptForeign, foundOther, old(Quiet(d.schedule)));
      }
    }
  }

  method ProgramOf(plan: Plan, ghost es: Entries, dir: string, path: Path, ghost adoptForeign: bool, found: Option<string>, ghost calm: bool)
    returns (program: string)
    requires plan.Go? && plan.delegate != Some(FullPath(dir, path))
    requires calm ==> plan == PlanFor(es, dir, path, adoptForeign)
    ensures NotItself(dir, path, program, found)
    ensures plan.delegate.Some? ==> program == plan.delegate.value
    ensures calm ==> program == ProgramFor(es, dir, path, plan.adopt, found)
  {
    OnlyUsrBin(dir, path);
    if calm {
      DelegateIs(es, dir, path, adoptForeign, found);
    }
    program := Delegate(plan, found, path);
  }

  // ---------- what the two requests mean together ----------

  function Calm(n: nat): seq<Turn> {
    seq(n, _ => Turn(None, false))
  }

  const FAULT := Turn(None, true)

  /**
   A run that loses a link: the main path holds one, the companion is vacant, and the companion's temporary
   file cannot be made. The rollback goes through, and the link is gone.
   */
  method ReplacedLinkIsLost(link: Entry, dir: string, port: nat, adoptForeign: bool) returns (d: Directory, out: Result)
    requires link.File? && link.kind.Symlink?
    ensures fresh(d) && out == Failed(WriteCompanion, true) && Visible(d.entries) == map[]
  {
    var start: Entries := map[Main(WlPaste) := link];
    PathsApart();
    d := new Directory(start, Calm(8) + [FAULT]);
    var delegate, c;
    out, delegate, c := InstallWithOptions(d, dir, WlPaste, port, adoptForeign, None, None);
    assert Visible(start) == start;
    assert Replaceable(start, c.main) && !RegularAt(start, c.main);
    assert Main(WlPaste) in Lost(WriteCompanion, c);
  }

  /**
   A run that loses a sidecar: the look at it fails, so the program that is moved aside takes its place.
   The install reports success, and the two programs have become one.
   */
  method OverlookedSidecarIsLost(program: Entry, kept: Entry, dir: string, port: nat) returns (d: Directory, out: Result)
    requires Foreign(program) && program.kind.Regular? && Foreign(kept) && kept != program
    ensures fresh(d) && out.Installed?
    ensures Sidecar(Main(Xclip)) in d.entries && d.entries[Sidecar(Main(Xclip))] == program
    ensures forall n :: n in Visible(d.entries) ==> d.entries[n] != kept
  {
    var main := Main(Xclip);
    var start: Entries := map[main := program, Sidecar(main) := kept];
    d := new Directory(start, Calm(5) + [FAULT]);
    var delegate, c;
    out, delegate, c := InstallWithOptions(d, dir, Xclip, port, true, None, None);
    assert Visible(start) == start;
    OnlyProgramLeft(start, d.entries, c, main, program, kept);
  }

  lemma OnlyProgramLeft(start: Entries, now: Entries, c: Cleared, main: Path, program: Entry, kept: Entry)
    requires start == map[main := program, Sidecar(main) := kept] && kept != program && !IsShim(kept)
    requires c.main == main && c.other.None? && c.adoptMain && InstalledFrom(start, Visible(now), c)
    ensures Sidecar(main) in now && now[Sidecar(main)] == program
    ensures forall n :: n in Visible(now) ==> now[n] != kept
  {
    assert MovedAside(start, main) == map[Sidecar(main) := program];
    VisibleIs(now, main);
    VisibleIs(now, Sidecar(main));
  }

  /** Uninstalling one freshly installed path gives the starting directory back exactly in these cases. */
  lemma RoundTripOne(v: Entries, p: Path, adopt: bool, shim: Entry)
    requires IsShim(shim) && (adopt ==> RegularAt(v, p) && Sidecar(p) !in v)
    ensures var w := AfterOne(v, p, adopt, shim);
      Judge(w, p, false).Remove? && Restored(w, p) == v <==> Sidecar(p) !in v && (p in v ==> adopt)
  {
    var w := AfterOne(v, p, adopt, shim);
    if adopt {
      assert Restored(w, p) == v;
    } else if Sidecar(p) in v {
      if Judge(w, p, false).Remove? {
        assert Sidecar(p) !in Restored(w, p);
      }
    } else {
      assert p !in Restored(w, p);
      if p !in v {
        assert Restored(w, p) == v;
      }
    }
  }

  /** What an install did at `p` is undone by an uninstall, whatever happens at names apart from `p`. */
  lemma RestoredCommutes(v: Entries, p: Path, q: Path, shim: Entry, adopt: bool)
    requires Apart(p, q) && (adopt ==> q in v)
    ensures adopt ==> q in Restored(v, p)
    ensures Restored(AfterOne(v, q, adopt, shim), p) == AfterOne(Restored(v, p), q, adopt, shim)
    ensures Judge(AfterOne(v, q, adopt, shim), p, false) == Judge(v, p, false)
  {
  }

  ghost predicate Reversible(v: Entries, p: Path, adopt: bool) {
    Sidecar(p) !in v && (p in v ==> adopt)
  }

  /**
   An install followed by an uninstall of the same target gives the starting directory back exactly
   when every destination was vacant or a program the install adopted, and had no sidecar.
   */
  lemma RoundTrip(v: Entries, w: Entries, c: Cleared, target: Target)
    requires InstalledFrom(v, w, c) && c.main == Main(target) && c.other == Other(target)
    requires c.adoptMain ==> RegularAt(v, c.main) && Sidecar(c.main) !in v
    requires c.adoptOther ==> RegularAt(v, c.other.value) && Sidecar(c.other.value) !in v
    ensures Accepts(w, target) && AfterUninstall(w, target) == v <==>
      Reversible(v, c.main, c.adoptMain) && (c.other.Some? ==> Reversible(v, c.other.value, c.adoptOther))
  {
    var shim := w[c.main];
    RoundTripOne(v, c.main, c.adoptMain, shim);
    if c.other.Some? {
      RoundTripTwo(v, w, c);
    } else {
      assert w == AfterOne(v, c.main, c.adoptMain, shim);
    }
  }

  lemma RoundTripTwo(v: Entries, w: Entries, c: Cleared)
    requires InstalledFrom(v, w, c) && c.main == Main(WlPaste) && c.other == Some(COMPANION)
    requires c.adoptMain ==> RegularAt(v, c.main) && Sidecar(c.main) !in v
    requires c.adoptOther ==> RegularAt(v, COMPANION) && Sidecar(COMPANION) !in v
    ensures Accepts(w, WlPaste) && AfterUninstall(w, WlPaste) == v <==>
      Reversible(v, c.main, c.adoptMain) && Reversible(v, COMPANION, c.adoptOther)
  {
    var p, q := c.main, COMPANION;
    var x := AfterOne(v, p, c.adoptMain, w[p]);
    assert w == AfterOne(x, q, c.adoptOther, w[q]) by {
      TwoDestinations(v, w, c);
    }
    RestoredCommutes(x, p, q, w[q], c.adoptOther);
    RoundTripOne(v, p, c.adoptMain, w[p]);
    assert Judge(w, q, true) == Judge(w, q, false);
    var back := Restored(x, p);
    RoundTripOne(back, q, c.adoptOther, w[q]);
  }

  lemma TwoDestinations(v: Entries, w: Entries, c: Cleared)
    requires InstalledFrom(v, w, c) && c.other.Some?
    ensures var x := AfterOne(v, c.main, c.adoptMain, w[c.main]);
      (c.adoptOther ==> c.other.value in x) && w == AfterOne(x, c.other.value, c.adoptOther, w[c.other.value])
  {
  }

  /** Uninstalling only depends on, and only changes, what is visible. */
  lemma RestoresVisible(es: Entries, p: Path)
    ensures Visible(Restored(es, p)) == Restored(Visible(es), p)
    ensures forall optional :: Judge(Visible(es), p, optional) == Judge(es, p, optional)
  {
    VisibleIs(es, p);
    VisibleIs(es, Sidecar(p));
  }

  lemma UninstallsVisible(es: Entries, target: Target)
    ensures Accepts(es, target) <==> Accepts(Visible(es), target)
    ensures Visible(AfterUninstall(es, target)) == AfterUninstall(Visible(es), target)
  {
    RestoresVisible(es, Main(target));
    RestoresVisible(es, COMPANION);
    RestoresVisible(Restored(es, Main(target)), COMPANION);
    VisibleIs(es, Main(target));
    VisibleIs(es, Sidecar(Main(target)));
  }

  ghost predicate ReversibleRequest(v: Entries, c: Cleared) {
    Reversible(v, c.main, c.adoptMain) && (c.other.Some? ==> Reversible(v, c.other.value, c.adoptOther))
  }

  lemma CalmRoundTrip(start: Entries, next: Entries, dir: string, target: Target, adoptForeign: bool)
    requires Installable(start, dir, target, adoptForeign)
    requires InstalledFrom(Visible(start), Visible(next), ClearedBy(start, dir, target, adoptForeign))
    ensures Accepts(next, target) && Visible(AfterUninstall(next, target)) == Visible(start) <==>
      ReversibleRequest(Visible(start), ClearedBy(start, dir, target, adoptForeign))
  {
    var c := ClearedBy(start, dir, target, adoptForeign);
    VisibleIs(start, c.main);
    VisibleIs(start, Sidecar(c.main));
    VisibleIs(start, COMPANION);
    VisibleIs(start, Sidecar(COMPANION));
    RoundTrip(Visible(start), Visible(next), c, target);
    UninstallsVisible(next, target);
  }

  /** Both requests in a row on a calm directory: what the user had is back exactly when it was reversible. */
  method InstallThenUninstall(d: Directory, dir: string, target: Target, port: nat, adoptForeign: bool)
    returns (out: Result, c: Cleared, back: BatchOutcome)
    requires d.Valid() && Quiet(d.schedule)
    modifies d
    ensures out.Installed? <==> Installable(old(d.entries), dir, target, adoptForeign)
    ensures out.Installed? ==> c == ClearedBy(old(d.entries), dir, target, adoptForeign)
    ensures out.Installed? ==>
      (back.Done? && Visible(d.entries) == old(Visible(d.entries)) <==> ReversibleRequest(old(Visible(d.entries)), c))
  {
    out, c := JustInstall(d, dir, target, port, adoptForeign);
    back := NothingThere;
    if out.Installed? {
      CalmRoundTrip(old(d.entries), d.entries, dir, target, adoptForeign);
      back := JustUninstall(d, target);
    }
  }

  method JustInstall(d: Directory, dir: string, target: Target, port: nat, adoptForeign: bool) returns (out: Result, c: Cleared)
    requires d.Valid() && Quiet(d.schedule)
    modifies d
    ensures d.Valid() && Quiet(d.schedule) && Decided(old(d.entries), dir, target, adoptForeign, out, c)
    ensures out.Installed? ==> InstalledFrom(old(Visible(d.entries)), Visible(d.entries), c)
  {
    var delegate;
    out, delegate, c := InstallWithOptions(d, dir, target, port, adoptForeign, None, None);
  }

  method JustUninstall(d: Directory, target: Target) returns (back: BatchOutcome)
    requires d.Valid() && Quiet(d.schedule)
    modifies d
    ensures back.Done? <==> Accepts(old(d.entries), target)
    ensures back.Done? ==> d.entries == AfterUninstall(old(d.entries), target)
  {
    ghost var homes, graves;
    back, homes, graves := Uninstall(d, target);
  }
}
