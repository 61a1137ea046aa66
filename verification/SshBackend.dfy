/**
 The managed ssh child and the goroutines that wait for it.

 `World` is everything outside: each of its turns says which waiting goroutines get the lock next and
 how the outside answers. All interleavings of reaps with the supervisor's calls are all scripts.
 The backend keeps a ghost log, and its fields are proved to be what replaying the log gives; what
 that means for the caller is proved about the replay.
 */
module SshBackend {
  import opened Wrappers
  import opened TunnelStore

  datatype ExitInfo = ExitInfo(code: int, stderr: string, uptime: int, processExit: bool)

  datatype Reap = Reap(child: nat, exit: ExitInfo)

  // What the identity endpoint said through the tunnel, or locally.
  datatype Identity = Answered(instanceID: string) | HelperMissing | EndpointUnavailable | TokenInvalid | NoAnswer

  datatype Turn = Turn(
    reaps: seq<Reap>,
    cancelled: bool,
    ok: bool,
    conflict: bool,
    text: string,
    now: int,
    remote: Remote,
    identity: Identity)

  datatype ForwardResult = Added | Conflict(why: string) | NotAdded(why: string)

  /** Once the script is over the context is cancelled and nothing succeeds. */
  function Upcoming(script: seq<Turn>): Turn {
    if script == [] then Turn([], true, false, false, "", 0, NotProbed, NoAnswer) else script[0]
  }

  function Following(script: seq<Turn>): seq<Turn> {
    if script == [] then [] else script[1..]
  }

  class World {
    var script: seq<Turn>
    var cancelled: bool

    constructor (script: seq<Turn>)
      ensures this.script == script && !cancelled
    {
      this.script, cancelled := script, false;
    }

    method Next() returns (t: Turn)
      modifies this
      ensures t == Upcoming(old(script)) && script == Following(old(script)) && cancelled == (old(cancelled) || t.cancelled)
      ensures !cancelled ==> |script| < |old(script)|
    {
      t := Upcoming(script);
      script := Following(script);
      cancelled := cancelled || t.cancelled;
    }
  }

  // ---------- the log and its replay ----------

  datatype Event =
    | Spawned(child: nat)
    | Reaped(child: nat, exit: ExitInfo)
    | ForwardAdded(child: nat)
    | ForwardCancelled
    | Abandoned
    | ExitTaken(child: nat)
    | ExitAsked(child: nat)
    | Terminated(child: nat)
    | Killed(child: nat)

  datatype Fields = Fields(view: View, spawned: nat, reaped: set<nat>)

  datatype View = View(cmd: Option<nat>, running: bool, forwarded: bool, exit: Option<Reap>)

  ghost function Apply(v: View, e: Event): View {
    match e
    case Spawned(c) => View(Some(c), true, false, None)
    case Reaped(c, x) => if v.cmd == Some(c) then View(v.cmd, false, false, Some(Reap(c, x))) else v
    case ForwardAdded(c) => v.(forwarded := true)
    case ForwardCancelled => v.(forwarded := false)
    case Abandoned => View(None, false, false, v.exit)
    case ExitTaken(c) => v.(exit := None)
    case _ => v
  }

  ghost function Replayed(log: seq<Event>): View {
    if log == [] then View(None, false, false, None) else Apply(Replayed(log[..|log| - 1]), log[|log| - 1])
  }

  ghost function Spawns(log: seq<Event>): nat {
    if log == [] then 0 else Spawns(log[..|log| - 1]) + if log[|log| - 1].Spawned? then 1 else 0
  }

  ghost function ReapedIn(log: seq<Event>): set<nat> {
    if log == [] then {}
    else ReapedIn(log[..|log| - 1]) + if log[|log| - 1].Reaped? then {log[|log| - 1].child} else {}
  }

  /**
   The children are numbered as they start, and each is reaped once; only the latest gets a forward, and
   only the one the backend owns is asked to exit or signalled, and killed only after it was told to terminate.
   */
  ghost predicate Legal(log: seq<Event>, e: Event) {
    match e
    case Spawned(c) => c == Spawns(log)
    case Reaped(c, _) => c < Spawns(log) && c !in ReapedIn(log)
    case ForwardAdded(c) => c == Spawns(log) - 1
    case ExitTaken(c) => Replayed(log).exit.Some? && Replayed(log).exit.value.child == c
    case ExitAsked(c) => Replayed(log).cmd == Some(c)
    case Terminated(c) => Replayed(log).cmd == Some(c)
    case Killed(c) => Replayed(log).cmd == Some(c) && Terminated(c) in log
    case _ => true
  }

  ghost predicate LegalLog(log: seq<Event>) {
    log == [] || (LegalLog(log[..|log| - 1]) && Legal(log[..|log| - 1], log[|log| - 1]))
  }

  lemma Pushed(log: seq<Event>, e: Event)
    ensures Replayed(log + [e]) == Apply(Replayed(log), e)
    ensures Spawns(log + [e]) == Spawns(log) + if e.Spawned? then 1 else 0
    ensures LegalLog(log + [e]) <==> LegalLog(log) && Legal(log, e)
    ensures ReapedIn(log + [e]) == ReapedIn(log) + if e.Reaped? then {e.child} else {}
  {
    assert (log + [e])[..|log|] == log;
  }

  // ---------- what the waiting goroutines do ----------

  /** Only the reap of the current child shows, and only the first of each child. */
  function Reaping(f: Fields, reaps: seq<Reap>): Fields
    decreases |reaps|
  {
    if reaps == [] then f
    else
      var r := reaps[0];
      Reaping(if r.child < f.spawned && r.child !in f.reaped then Gone(f, r) else f, reaps[1..])
  }

  function Gone(f: Fields, r: Reap): Fields {
    Fields(if f.view.cmd == Some(r.child) then View(f.view.cmd, false, false, Some(r)) else f.view, f.spawned, f.reaped + {r.child})
  }

  /** The reaps among these that happen, in order. */
  function ReapLog(f: Fields, reaps: seq<Reap>): seq<Event>
    decreases |reaps|
  {
    if reaps == [] then []
    else
      var r := reaps[0];
      if r.child < f.spawned && r.child !in f.reaped then [Reaped(r.child, r.exit)] + ReapLog(Gone(f, r), reaps[1..])
      else ReapLog(f, reaps[1..])
  }

  /** A wait for the control socket: each round looks whether the child runs, checks the socket, and pauses. */
  datatype Wait = Wait(f: Fields, script: seq<Turn>, cancelled: bool)

  predicate ChildUp(w: Wait) {
    Reaping(w.f, Upcoming(w.script).reaps).view.running
  }

  predicate CheckPasses(w: Wait, control: bool) {
    control && Upcoming(Following(w.script)).ok
  }

  /** The wait after one round. */
  function Later(w: Wait): Wait {
    var look, check := Upcoming(w.script), Upcoming(Following(w.script));
    var rest := Following(Following(w.script));
    Wait(Reaping(Reaping(w.f, look.reaps), check.reaps), Following(rest),
         w.cancelled || look.cancelled || check.cancelled || Upcoming(rest).cancelled)
  }

  predicate TimeLeft(w: Wait) {
    !Later(w).cancelled && !Upcoming(Following(Following(w.script))).ok
  }

  /** Whether a wait ends well, round by round. */
  function Ready(w: Wait, control: bool): bool
    decreases |w.script|, !w.cancelled
  {
    if !ChildUp(w) then false
    else if CheckPasses(w, control) then true
    else TimeLeft(w) && Ready(Later(w), control)
  }

  function Round(w: Wait, n: nat): Wait
    decreases n
  {
    if n == 0 then w else Round(Later(w), n - 1)
  }

  /** In round `n` the child runs and the check passes, and until then it ran and there was time. */
  ghost predicate PassesAt(w: Wait, n: nat, control: bool) {
    && ChildUp(Round(w, n)) && CheckPasses(Round(w, n), control)
    && forall i {:trigger Round(w, i)} :: 0 <= i < n ==> ChildUp(Round(w, i)) && TimeLeft(Round(w, i))
  }

  /** A wait ends well exactly when in some round the child runs and the socket answers, before it is gone or the time is over. */
  lemma {:induction false} ReadyMeans(w: Wait, control: bool)
    ensures Ready(w, control) <==> exists n: nat :: PassesAt(w, n, control)
    decreases |w.script|, !w.cancelled
  {
    assert Round(w, 0) == w;
    forall n: nat | PassesAt(w, n, control) ensures ChildUp(w) && (CheckPasses(w, control) || TimeLeft(w)) {
      FirstRound(w, n, control);
    }
    if ChildUp(w) && CheckPasses(w, control) {
      assert PassesAt(w, 0, control);
    } else if ChildUp(w) && TimeLeft(w) {
      ReadyMeans(Later(w), control);
      if Ready(w, control) {
        var n: nat :| PassesAt(Later(w), n, control);
        LaterPasses(w, n, control);
      }
      forall n: nat | PassesAt(w, n, control) ensures n > 0 && PassesAt(Later(w), n - 1, control) {
        EarlierPasses(w, n, control);
      }
    }
  }

  lemma FirstRound(w: Wait, n: nat, control: bool)
    requires PassesAt(w, n, control)
    ensures ChildUp(w) && (CheckPasses(w, control) || TimeLeft(w))
  {
    assert Round(w, 0) == w;
  }

  lemma LaterPasses(w: Wait, n: nat, control: bool)
    requires PassesAt(Later(w), n, control) && ChildUp(w) && TimeLeft(w)
    ensures PassesAt(w, n + 1, control)
  {
    forall i | 0 <= i < n + 1 ensures ChildUp(Round(w, i)) && TimeLeft(Round(w, i)) {
      if i > 0 {
        assert Round(w, i) == Round(Later(w), i - 1);
      }
    }
  }

  lemma EarlierPasses(w: Wait, n: nat, control: bool)
    requires PassesAt(w, n, control) && !CheckPasses(w, control)
    ensures n > 0 && PassesAt(Later(w), n - 1, control)
  {
    forall i | 0 <= i < n - 1 ensures ChildUp(Round(Later(w), i)) && TimeLeft(Round(Later(w), i)) {
      assert Round(w, i + 1) == Round(Later(w), i);
    }
  }

  /** What a probe over the control socket comes to: nothing unless the check and the command go through. */
  function AnswerAt(control: Option<nat>, script: seq<Turn>): Option<Turn> {
    var answer := Upcoming(Following(script));
    if control.Some? && Upcoming(script).ok && answer.ok then Some(answer) else None
  }

  // ---------- the log and the fields ----------

  ghost predicate TellsAt(log: seq<Event>, f: Fields, k: nat) {
    LegalLog(log) && f == Fields(Replayed(log), Spawns(log), ReapedIn(log))
  }

  /** The log is legal and replaying it gives these fields; stated so that only the lemmas here look inside. */
  ghost predicate Tells(log: seq<Event>, f: Fields) {
    forall k {:trigger TellsAt(log, f, k)} :: TellsAt(log, f, k)
  }

  ghost function ApplyAll(f: Fields, e: Event): Fields {
    Fields(Apply(f.view, e), if e.Spawned? then f.spawned + 1 else f.spawned, if e.Reaped? then f.reaped + {e.child} else f.reaped)
  }

  /** `Legal`, as far as the fields tell. */
  ghost predicate LegalNow(log: seq<Event>, f: Fields, e: Event) {
    match e
    case Spawned(c) => c == f.spawned
    case Reaped(c, _) => c < f.spawned && c !in f.reaped
    case ForwardAdded(c) => c == f.spawned - 1
    case ExitTaken(c) => f.view.exit.Some? && f.view.exit.value.child == c
    case ExitAsked(c) => f.view.cmd == Some(c)
    case Terminated(c) => f.view.cmd == Some(c)
    case Killed(c) => f.view.cmd == Some(c) && Terminated(c) in log
    case _ => true
  }

  lemma Push(log: seq<Event>, f: Fields, e: Event)
    requires Tells(log, f) && LegalNow(log, f, e)
    ensures Tells(log + [e], ApplyAll(f, e))
  {
    assert TellsAt(log, f, 0);
    Pushed(log, e);
  }

  lemma TellsNothing()
    ensures Tells([], Fields(View(None, false, false, None), 0, {}))
  {
  }

  // ---------- how a child ended ----------

  /** The exit with which the child was reaped, if the backend owned it then. */
  ghost function ExitOf(log: seq<Event>, c: nat): Option<ExitInfo> {
    if log == [] then None
    else
      var init, e := log[..|log| - 1], log[|log| - 1];
      if e.Reaped? && e.child == c && Replayed(init).cmd == Some(c) then Some(e.exit) else ExitOf(init, c)
  }

  lemma {:induction false} ReapedWereStarted(log: seq<Event>, c: nat)
    requires LegalLog(log)
    ensures forall r: nat :: r in ReapedIn(log) ==> r < Spawns(log)
    ensures ExitOf(log, c).Some? ==> c in ReapedIn(log)
  {
    if log != [] {
      ReapedWereStarted(log[..|log| - 1], c);
    }
  }

  /** The exit that waits is that of its child, which is the current one as long as there is one. */
  lemma {:induction false} WaitingExitIsItsOwn(log: seq<Event>, c: nat)
    requires LegalLog(log)
    ensures var v := Replayed(log);
      && (v.exit.Some? ==> ExitOf(log, v.exit.value.child) == Some(v.exit.value.exit))
      && (v.exit.Some? && v.cmd.Some? ==> v.exit.value.child == v.cmd.value)
      && (v.cmd == Some(c) ==> (ExitOf(log, c).Some? <==> c in ReapedIn(log)))
  {
    if log != [] {
      var init := log[..|log| - 1];
      WaitingExitIsItsOwn(init, c);
      ReapedWereStarted(init, c);
    }
  }

  lemma {:induction false} ExitStays(a: seq<Event>, b: seq<Event>, c: nat)
    requires a <= b && LegalLog(b) && ExitOf(a, c).Some?
    ensures ExitOf(b, c) == ExitOf(a, c)
  {
    if a != b {
      var init := b[..|b| - 1];
      ExitStays(a, init, c);
      ReapedWereStarted(init, c);
    }
  }

  /** Without a child of its own the backend takes note of no exit. */
  lemma {:induction false} UnownedExits(a: seq<Event>, b: seq<Event>, c: nat)
    requires a <= b && Replayed(a).cmd.None? && forall i :: |a| <= i < |b| ==> !b[i].Spawned?
    ensures ExitOf(b, c) == ExitOf(a, c) && Replayed(b).cmd.None?
  {
    if a != b {
      UnownedExits(a, b[..|b| - 1], c);
    }
  }

  lemma ExitTold(log: seq<Event>, f: Fields, c: nat)
    requires Tells(log, f)
    ensures f.view.exit.Some? ==> ExitOf(log, f.view.exit.value.child) == Some(f.view.exit.value.exit)
    ensures f.view.exit.Some? && f.view.cmd.Some? ==> f.view.exit.value.child == f.view.cmd.value
    ensures f.view.cmd == Some(c) ==> (ExitOf(log, c).Some? <==> c in f.reaped)
  {
    assert TellsAt(log, f, 0);
    WaitingExitIsItsOwn(log, c);
  }

  lemma ExitStaysTold(a: seq<Event>, b: seq<Event>, f: Fields, c: nat)
    requires a <= b && Tells(b, f) && ExitOf(a, c).Some?
    ensures ExitOf(b, c) == ExitOf(a, c)
  {
    assert TellsAt(b, f, 0);
    ExitStays(a, b, c);
  }

  lemma UnownedExitsTold(a: seq<Event>, f: Fields, b: seq<Event>, c: nat)
    requires a <= b && Tells(a, f) && f.view.cmd.None? && forall i :: |a| <= i < |b| ==> !b[i].Spawned?
    ensures ExitOf(b, c) == ExitOf(a, c)
  {
    assert TellsAt(a, f, 0);
    UnownedExits(a, b, c);
  }

  lemma {:induction false} ReapingUnowned(f: Fields, reaps: seq<Reap>)
    requires f.view.cmd.None?
    ensures Reaping(f, reaps).view == f.view
    decreases |reaps|
  {
    if reaps != [] {
      var r := reaps[0];
      ReapingUnowned(if r.child < f.spawned && r.child !in f.reaped then Gone(f, r) else f, reaps[1..]);
    }
  }

  // ---------- what shutting down comes to ----------

  datatype Moment = Moment(f: Fields, log: seq<Event>, script: seq<Turn>)

  /** One turn later. */
  ghost function Passed(m: Moment): Moment {
    var reaps := Upcoming(m.script).reaps;
    Moment(Reaping(m.f, reaps), m.log + ReapLog(m.f, reaps), Following(m.script))
  }

  /** After a step of our own. */
  ghost function Doing(m: Moment, e: Event): Moment {
    Moment(ApplyAll(m.f, e), m.log + [e], m.script)
  }

  /** What the next turn answers to a command, or that a wait is not over with it. */
  predicate Says(m: Moment) {
    Upcoming(m.script).ok
  }

  /** The forward is still there when looked at, and its cancelling is refused. */
  ghost predicate CancelFails(m: Moment) {
    Passed(m).f.view.running && Passed(m).f.view.forwarded && !Says(Passed(m))
  }

  ghost function AfterCancel(m: Moment): Moment {
    var look := Passed(m);
    if !(look.f.view.running && look.f.view.forwarded) then look
    else if Says(look) then Doing(Passed(Passed(look)), ForwardCancelled)
    else Passed(look)
  }

  /** The master was asked to exit, whatever it answers. */
  ghost function AfterRequest(m: Moment, c: nat): Moment {
    Passed(Doing(AfterCancel(m), ExitAsked(c)))
  }

  /** A bounded wait that starts here sees the exit of `c`. */
  ghost predicate SeenInTime(m: Moment, c: nat) {
    c in Passed(m).f.reaped && Says(m)
  }

  /** The forward is cancelled, the master accepts the request to exit, and its exit is seen in time. */
  ghost predicate Obeys(m: Moment, c: nat) {
    !CancelFails(m) && Says(AfterCancel(m)) && SeenInTime(AfterRequest(m, c), c)
  }

  ghost function AfterAsking(m: Moment, c: nat): Moment {
    if CancelFails(m) then AfterCancel(m)
    else if !Says(AfterCancel(m)) then AfterRequest(m, c)
    else Passed(AfterRequest(m, c))
  }

  /** Terminate, wait a turn, and kill what was not seen to go. */
  ghost function AfterForce(m: Moment, c: nat): Moment {
    var told := Doing(m, Terminated(c));
    if SeenInTime(told, c) then Passed(told) else Passed(Doing(Passed(told), Killed(c)))
  }

  ghost function AfterWinding(m: Moment, c: nat): Moment {
    if Obeys(m, c) then AfterAsking(m, c) else AfterForce(AfterAsking(m, c), c)
  }

  ghost function AfterStop(m: Moment): Moment {
    var v := Passed(m).f.view;
    var wound := if v.cmd.Some? && v.running then AfterWinding(Passed(m), v.cmd.value) else Passed(m);
    Doing(Passed(wound), Abandoned)
  }

  ghost predicate StopsAt(m: Moment, x: Moment, k: nat) {
    x == AfterStop(m)
  }

  /** Stopping leads from one moment to the other; stated so that only the lemma here looks inside. */
  ghost predicate Stops(m: Moment, x: Moment) {
    forall k {:trigger StopsAt(m, x, k)} :: StopsAt(m, x, k)
  }

  lemma StopsMeans(m: Moment, x: Moment)
    requires Stops(m, x)
    ensures x == AfterStop(m)
  {
    assert StopsAt(m, x, 0);
  }

  /** Between the two logs this event was added. */
  ghost predicate AddedAt(a: seq<Event>, b: seq<Event>, i: int, e: Event) {
    |a| <= i < |b| && b[i] == e
  }

  ghost predicate Adds(a: seq<Event>, b: seq<Event>, e: Event) {
    a <= b && exists i {:trigger AddedAt(a, b, i, e)} :: AddedAt(a, b, i, e)
  }

  /** `b` continues `a` without telling or forcing a child to go. */
  ghost predicate Peaceful(a: seq<Event>, b: seq<Event>) {
    a <= b && forall i {:trigger b[i]} :: |a| <= i < |b| ==> !b[i].Terminated? && !b[i].Killed?
  }

  lemma {:induction false} ReapsOnly(f: Fields, reaps: seq<Reap>)
    ensures forall i {:trigger ReapLog(f, reaps)[i]} :: 0 <= i < |ReapLog(f, reaps)| ==> ReapLog(f, reaps)[i].Reaped?
    decreases |reaps|
  {
    if reaps != [] {
      var r := reaps[0];
      if r.child < f.spawned && r.child !in f.reaped {
        ReapsOnly(Gone(f, r), reaps[1..]);
      } else {
        ReapsOnly(f, reaps[1..]);
      }
    }
  }

  lemma PassingIsPeaceful(m: Moment)
    ensures Peaceful(m.log, Passed(m).log)
  {
    ReapsOnly(m.f, Upcoming(m.script).reaps);
  }

  lemma AskingIsPeaceful(m: Moment, c: nat)
    ensures Peaceful(m.log, AfterAsking(m, c).log)
    ensures Obeys(m, c) ==> Adds(m.log, AfterAsking(m, c).log, ExitAsked(c)) && c in AfterAsking(m, c).f.reaped
  {
    var look, cancelled := Passed(m), AfterCancel(m);
    PassingIsPeaceful(m);
    PassingIsPeaceful(look);
    PassingIsPeaceful(Passed(look));
    var asked := Doing(cancelled, ExitAsked(c));
    PassingIsPeaceful(asked);
    PassingIsPeaceful(Passed(asked));
    assert asked.log[|cancelled.log|] == ExitAsked(c);
    if Obeys(m, c) {
      assert AddedAt(m.log, AfterAsking(m, c).log, |cancelled.log|, ExitAsked(c));
    }
  }

  /**
   Winding down a child: one that obeys is asked to exit, is gone, and gets no signal. Any other is told to
   terminate; and it is killed exactly when the wait of one turn after that has not seen its exit in time,
   so that between the two signals stands that turn, at whose end it was not reaped or the time was over.
   */
  lemma WindingMeans(m: Moment, c: nat)
    ensures Obeys(m, c) ==>
      Peaceful(m.log, AfterWinding(m, c).log) && Adds(m.log, AfterWinding(m, c).log, ExitAsked(c)) && c in AfterWinding(m, c).f.reaped
    ensures !Obeys(m, c) ==>
      && Peaceful(m.log, AfterAsking(m, c).log)
      && AfterAsking(m, c).log + [Terminated(c)] <= AfterWinding(m, c).log
    ensures Adds(m.log, AfterWinding(m, c).log, Killed(c)) <==> !Obeys(m, c) && !SeenInTime(AfterAsking(m, c), c)
    ensures !Obeys(m, c) && !SeenInTime(AfterAsking(m, c), c) ==>
      var a := AfterAsking(m, c);
      var turn := Upcoming(a.script);
      && a.log + [Terminated(c)] + ReapLog(a.f, turn.reaps) + [Killed(c)] <= AfterWinding(m, c).log
      && (c !in Reaping(a.f, turn.reaps).reaped || !turn.ok)
    ensures c in AfterWinding(m, c).f.reaped || Adds(m.log, AfterWinding(m, c).log, Killed(c))
  {
    AskingIsPeaceful(m, c);
    var told := Doing(AfterAsking(m, c), Terminated(c));
    PassingIsPeaceful(told);
    var killed := Doing(Passed(told), Killed(c));
    PassingIsPeaceful(killed);
    if !Obeys(m, c) && !SeenInTime(told, c) {
      assert AddedAt(m.log, AfterWinding(m, c).log, |Passed(told).log|, Killed(c));
    }
  }

  /** A reap is for good, and the current child runs as long as it is not reaped. */
  lemma {:induction false} ReapingKeeps(f: Fields, reaps: seq<Reap>, c: nat)
    requires f.view.cmd == Some(c) && (f.view.running <==> c !in f.reaped)
    ensures f.reaped <= Reaping(f, reaps).reaped && Reaping(f, reaps).view.cmd == Some(c)
    ensures Reaping(f, reaps).view.running <==> c !in Reaping(f, reaps).reaped
    decreases |reaps|
  {
    if reaps != [] {
      var r := reaps[0];
      ReapingKeeps(if r.child < f.spawned && r.child !in f.reaped then Gone(f, r) else f, reaps[1..], c);
    }
  }

  lemma {:induction false} ReapsStay(f: Fields, reaps: seq<Reap>)
    ensures f.reaped <= Reaping(f, reaps).reaped
    decreases |reaps|
  {
    if reaps != [] {
      var r := reaps[0];
      ReapsStay(if r.child < f.spawned && r.child !in f.reaped then Gone(f, r) else f, reaps[1..]);
    }
  }

  /** After Stop a child that was running has been reaped, or was killed in the course of it. */
  lemma StopFinishes(m: Moment, c: nat)
    requires m.f.view.cmd == Some(c) && (m.f.view.running <==> c !in m.f.reaped)
    ensures c in AfterStop(m).f.reaped || Adds(m.log, AfterStop(m).log, Killed(c))
  {
    var look := Passed(m);
    ReapingKeeps(m.f, Upcoming(m.script).reaps, c);
    var wound := if look.f.view.running then AfterWinding(look, c) else look;
    ReapsStay(wound.f, Upcoming(wound.script).reaps);
    if look.f.view.running {
      WindingMeans(look, c);
      if c !in wound.f.reaped {
        var i :| AddedAt(look.log, wound.log, i, Killed(c));
        assert AddedAt(m.log, AfterStop(m).log, i, Killed(c));
      }
    }
  }

  /** Stopping a child that is gone, or obeys, tells nobody to terminate. */
  lemma StopIsGentle(m: Moment)
    requires var v := Passed(m).f.view; v.cmd.Some? && v.running ==> Obeys(Passed(m), v.cmd.value)
    ensures Peaceful(m.log, AfterStop(m).log)
  {
    var v := Passed(m).f.view;
    PassingIsPeaceful(m);
    if v.cmd.Some? && v.running {
      WindingMeans(Passed(m), v.cmd.value);
      PassingIsPeaceful(AfterWinding(Passed(m), v.cmd.value));
    } else {
      PassingIsPeaceful(Passed(m));
    }
  }

  class Backend {
    const world: World
    var cmd: Option<nat>
    var control: Option<nat>
    var running: bool
    var forwarded: bool
    var exit: Option<Reap>
    var spawned: nat
    var reaped: set<nat>
    ghost var log: seq<Event>

    ghost predicate Valid()
      reads this
    {
      && Tells(log, Now())
      && (forall c: nat :: c in reaped ==> c < spawned)
      && (cmd.Some? ==> cmd.value == spawned - 1 && (running <==> cmd.value !in reaped))
      && (cmd.None? ==> !running)
      && control == (if spawned == 0 then None else Some(spawned - 1))
    }

    constructor (world: World)
      ensures Valid() && !running && exit == None && this.world == world && log == [] && spawned == 0
    {
      this.world := world;
      cmd, control, running, forwarded, exit, spawned, reaped, log := None, None, false, false, None, 0, {}, [];
      new;
      TellsNothing();
    }

    function Now(): Fields
      reads this
    {
      Fields(View(cmd, running, forwarded, exit), spawned, reaped)
    }

    ghost function Here(): Moment
      reads this, world
    {
      Moment(Now(), log, world.script)
    }

    function Waiting(): Wait
      reads this, world
    {
      Wait(Now(), world.script, world.cancelled)
    }

    /** What the next turn makes of the fields. */
    function Soon(): Fields
      reads this, world
    {
      Reaping(Now(), Upcoming(world.script).reaps)
    }

    /** Only waiting goroutines got the lock: the child may be gone now, nothing else changed. */
    twostate predicate Drifts()
      reads this, world
    {
      && Valid()
      && old(log) <= log
      && (forall i :: |old(log)| <= i < |log| ==> log[i].Reaped?)
      && cmd == old(cmd) && control == old(control) && spawned == old(spawned)
      && (running ==> old(running))
      && (running == old(running) ==> forwarded == old(forwarded) && exit == old(exit))
      && (running != old(running) ==> !forwarded && exit.Some?)
      && |world.script| <= |old(world.script)|
      && (old(world.cancelled) ==> world.cancelled)
    }

    /** No new child: the current one may be gone, its forward may be cancelled. */
    twostate predicate Subsides()
      reads this, world
    {
      && Valid()
      && old(log) <= log
      && cmd == old(cmd) && control == old(control) && spawned == old(spawned)
      && (running ==> old(running))
      && (old(running || exit.Some?) ==> running || exit.Some?)
      && |world.script| <= |old(world.script)|
      && (old(world.cancelled) ==> world.cancelled)
    }

    /** The critical section of the goroutine that waited for `child`. */
    method ReapChild(child: nat, info: ExitInfo)
      requires Valid() && child < spawned && child !in reaped
      modifies this
      ensures Drifts() && log == old(log) + [Reaped(child, info)] && Now() == Gone(old(Now()), Reap(child, info))
      // A late reap of an older child changes nothing.
      ensures old(cmd) != Some(child) ==>
        running == old(running) && forwarded == old(forwarded) && exit == old(exit)
    {
      Push(log, Now(), Reaped(child, info));
      if cmd == Some(child) {
        running := false;
        forwarded := false;
        exit := Some(Reap(child, info));
      }
      reaped := reaped + {child};
      log := log + [Reaped(child, info)];
    }

    /** Whoever waits for the lock goes first: any number of reaps, in any order. */
    method Interleave() returns (t: Turn)
      requires Valid()
      modifies this, world
      ensures Drifts() && t == Upcoming(old(world.script)) && Now() == old(Soon()) && Here() == old(Passed(Here()))
      ensures world.script == Following(old(world.script)) && world.cancelled == (old(world.cancelled) || t.cancelled)
      ensures !world.cancelled ==> |world.script| < |old(world.script)|
    {
      t := world.Next();
      var i := 0;
      assert t.reaps[0..] == t.reaps;
      while i < |t.reaps|
        invariant 0 <= i <= |t.reaps| && Drifts()
        invariant world.script == Following(old(world.script)) && world.cancelled == (old(world.cancelled) || t.cancelled)
        invariant !world.cancelled ==> |world.script| < |old(world.script)|
        invariant Reaping(Now(), t.reaps[i..]) == old(Soon())
        invariant log + ReapLog(Now(), t.reaps[i..]) == old(log) + ReapLog(old(Now()), t.reaps)
      {
        var r := t.reaps[i];
        assert t.reaps[i..][0] == r && t.reaps[i..][1..] == t.reaps[i + 1..];
        if r.child < spawned && r.child !in reaped {
          ReapChild(r.child, r.exit);
        }
        i := i + 1;
      }
      assert t.reaps[i..] == [];
    }

    /** Spawn a forwarding-free private master; the answer says whether the process came up. */
    method Start() returns (ok: bool, why: string)
      requires Valid()
      modifies this, world
      ensures Valid() && |world.script| <= |old(world.script)| && (old(world.cancelled) ==> world.cancelled)
      ensures ok ==> running && !forwarded && exit == None && spawned == old(spawned) + 1 && cmd == Some(old(spawned))
      ensures ok ==> |log| > |old(log)| && log[|log| - 1] == Spawned(old(spawned))
      ensures !ok ==> Drifts() && Now() == old(Soon())
      ensures ok <==> !old(Soon()).view.running && Upcoming(old(world.script)).ok
    {
      var t := Interleave();
      if running {
        return false, "managed ssh child already running";
      }
      if !t.ok {
        return false, t.text;
      }
      Adopt();
      return true, "";
    }

    /** The process is up: it becomes the child. */
    method Adopt()
      requires Valid() && !running
      modifies this
      ensures Valid() && running && !forwarded && exit == None
      ensures spawned == old(spawned) + 1 && cmd == Some(old(spawned)) && log == old(log) + [Spawned(old(spawned))]
    {
      Push(log, Now(), Spawned(spawned));
      cmd := Some(spawned);
      control := Some(spawned);
      running := true;
      forwarded := false;
      exit := None;
      log := log + [Spawned(spawned)];
      spawned := spawned + 1;
    }

    method Running() returns (r: bool)
      requires Valid()
      modifies this, world
      ensures Drifts() && r == running && Now() == old(Soon())
      ensures world.script == Following(old(world.script)) && world.cancelled == (old(world.cancelled) || Upcoming(old(world.script)).cancelled)
    {
      var _ := Interleave();
      r := running;
    }

    method Forwarded() returns (r: bool)
      requires Valid()
      modifies this, world
      ensures Drifts() && r == (running && forwarded) && Now() == old(Soon()) && Here() == old(Passed(Here()))
    {
      var _ := Interleave();
      r := running && forwarded;
    }

    /** Hand out the last exit and forget it. */
    method ConsumeLastExit() returns (r: Option<ExitInfo>)
      requires Valid()
      modifies this, world
      ensures Valid() && exit == None
      ensures running ==> old(running)
      ensures running ==> forwarded == old(forwarded)
      ensures cmd == old(cmd) && spawned == old(spawned)
      ensures |world.script| <= |old(world.script)| && (old(world.cancelled) ==> world.cancelled)
      ensures old(exit) == None && (running || !old(running)) ==> r == None
      ensures Now() == old(Soon()).(view := old(Soon()).view.(exit := None))
      ensures r == if old(Soon()).view.exit.Some? then Some(old(Soon()).view.exit.value.exit) else None
      ensures old(log) <= log && forall i :: |old(log)| <= i < |log| ==> log[i].Reaped? || log[i].ExitTaken?
      // What is handed out is how the child ended that the backend owns; without one it is what was left waiting.
      ensures cmd.Some? && r.Some? ==> r == ExitOf(log, cmd.value)
      ensures r.None? && old(running || exit.Some?) ==> running
      ensures cmd.None? ==> r == if old(exit).Some? then Some(old(exit).value.exit) else None
    {
      if cmd.None? {
        ReapingUnowned(Now(), Upcoming(world.script).reaps);
      }
      var _ := Interleave();
      if exit.None? {
        return None;
      }
      r := Some(exit.value.exit);
      ghost var told := log;
      ExitTold(log, Now(), exit.value.child);
      TakeExit();
      ExitStaysTold(told, log, Now(), old(Soon()).view.exit.value.child);
    }

    method TakeExit()
      requires Valid() && exit.Some?
      modifies this`log, this`exit
      ensures Valid() && exit == None && log == old(log) + [ExitTaken(old(exit).value.child)]
    {
      Push(log, Now(), ExitTaken(exit.value.child));
      log := log + [ExitTaken(exit.value.child)];
      exit := None;
    }

    /** `ssh -O check` through the private socket. */
    method Check() returns (ok: bool)
      requires Valid()
      modifies this, world
      ensures Drifts() && Now() == old(Soon())
      ensures world.script == Following(old(world.script)) && world.cancelled == (old(world.cancelled) || Upcoming(old(world.script)).cancelled)
      ensures ok <==> control.Some? && Upcoming(old(world.script)).ok
    {
      var t := Interleave();
      ok := control.Some? && t.ok;
    }

    /** Poll until the master answers its socket, dies, or the time is over. */
    method WaitReady() returns (ready: bool, why: string)
      requires Valid()
      modifies this, world
      ensures Drifts() && ready == Ready(old(Waiting()), control.Some?)
    {
      while true
        invariant Drifts()
        invariant Ready(Waiting(), control.Some?) == Ready(old(Waiting()), control.Some?)
        decreases |world.script|, !world.cancelled
      {
        ghost var left, live := |world.script|, !world.cancelled;
        var up := Running();
        if !up {
          return false, "ssh master exited";
        }
        var ok := Check();
        if ok {
          return true, "";
        }
        var t := world.Next();
        if world.cancelled || t.ok {
          return false, "wait for ssh control master";
        }
      }
    }

    /** Add the reverse forward through the running master; reaps may come before and after the command. */
    method Forward() returns (r: ForwardResult)
      requires Valid()
      modifies this, world
      ensures Valid() && |world.script| <= |old(world.script)| && (old(world.cancelled) ==> world.cancelled)
      ensures cmd == old(cmd) && spawned == old(spawned) && (running ==> old(running))
      ensures r.Added? ==> forwarded && control.Some? && log != [] && log[|log| - 1] == ForwardAdded(control.value)
      ensures r.Added? <==> control.Some? && Upcoming(old(world.script)).ok
      ensures !r.Added? ==> Drifts() && Now() == old(Soon()) && (r.Conflict? <==> Upcoming(old(world.script)).conflict)
    {
      var t := Interleave();
      if control.None? || !t.ok {
        return if t.conflict then Conflict(t.text) else NotAdded(t.text);
      }
      var _ := Interleave();
      NoteForwarded();
      return Added;
    }

    method NoteForwarded()
      requires Valid() && control.Some?
      modifies this`log, this`forwarded
      ensures Valid() && forwarded && log == old(log) + [ForwardAdded(control.value)]
    {
      Push(log, Now(), ForwardAdded(control.value));
      log := log + [ForwardAdded(control.value)];
      forwarded := true;
    }

    method Cancel() returns (ok: bool)
      requires Valid()
      modifies this, world
      ensures Subsides() && (ok ==> !(running && forwarded))
      ensures ok == !CancelFails(old(Here())) && Here() == AfterCancel(old(Here()))
    {
      var on := Forwarded();
      if !on {
        return true;
      }
      ok := CancelForward();
    }

    method CancelForward() returns (ok: bool)
      requires Valid()
      modifies this, world
      ensures Subsides() && (ok ==> !forwarded)
      ensures ok <==> control.Some? && Says(old(Here()))
      ensures Here() == if ok then Doing(Passed(Passed(old(Here()))), ForwardCancelled) else Passed(old(Here()))
    {
      var t := Interleave();
      ok := control.Some? && t.ok;
      if ok {
        var _ := Interleave();
        NoteCancelled();
      }
    }

    method NoteCancelled()
      requires Valid()
      modifies this`log, this`forwarded
      ensures Valid() && !forwarded && log == old(log) + [ForwardCancelled] && Here() == Doing(old(Here()), ForwardCancelled)
    {
      Push(log, Now(), ForwardCancelled);
      log := log + [ForwardCancelled];
      forwarded := false;
    }

    /** Something is done to the child, and the fields do not show it. */
    ghost method Record(e: Event)
      requires Valid() && LegalNow(log, Now(), e) && IsSignal(e)
      modifies this`log
      ensures Valid() && log == old(log) + [e] && Here() == Doing(old(Here()), e)
    {
      Push(log, Now(), e);
      log := log + [e];
    }

    /** Cancel the forward and ask the master to exit; done means that its exit was seen in time. */
    method Ask() returns (done: bool)
      requires Valid() && cmd.Some?
      modifies this, world
      ensures Subsides() && (done ==> cmd.value in reaped)
      ensures done == Obeys(old(Here()), cmd.value) && Here() == AfterAsking(old(Here()), cmd.value)
    {
      done := Cancel();
      if done {
        Record(ExitAsked(cmd.value));
        var t := Interleave();
        done := control.Some? && t.ok;
      }
      if done {
        var t := Interleave();
        done := cmd.value in reaped && t.ok;
      }
    }

    /** Ask, and if that fails terminate, and if that fails kill; waiting is the world's turn. */
    method WindDown()
      requires Valid() && cmd.Some?
      modifies this, world
      ensures Subsides() && Here() == AfterWinding(old(Here()), cmd.value)
    {
      var done := Ask();
      if !done {
        Force();
      }
    }

    method Force()
      requires Valid() && cmd.Some?
      modifies this, world
      ensures Subsides() && Here() == AfterForce(old(Here()), cmd.value)
    {
      Record(Terminated(cmd.value));
      ghost var told := log;
      var t := Interleave();
      assert log[|told| - 1] == Terminated(cmd.value);
      if !(cmd.value in reaped && t.ok) {
        Record(Killed(cmd.value));
        var _ := Interleave();
      }
    }

    /** Bounded shutdown; whatever the child does, the backend no longer owns it afterwards. */
    method Stop()
      requires Valid()
      modifies this, world
      ensures Valid() && !running && cmd == None && spawned == old(spawned)
      ensures |world.script| <= |old(world.script)| && (old(world.cancelled) ==> world.cancelled)
      // A child that was running has been reaped or killed.
      ensures old(cmd).Some? && old(running) ==> old(cmd).value in reaped || Adds(old(log), log, Killed(old(cmd).value))
      ensures Stops(old(Here()), Here())
      // The exit that waits afterwards is how the child ended, if it was reaped before it was let go.
      ensures old(log) <= log
      ensures old(cmd).Some? && old(running || exit.Some?) ==>
        ExitOf(log, old(cmd).value) == if exit.Some? then Some(exit.value.exit) else None
    {
      if cmd.Some? && running {
        StopFinishes(Here(), cmd.value);
      }
      var _ := Interleave();
      if cmd.Some? && running {
        WindDown();
      }
      var _ := Interleave();
      if cmd.Some? {
        ExitTold(log, Now(), cmd.value);
      }
      LetGo();
    }

    method LetGo()
      requires Valid()
      modifies this
      ensures Valid() && !running && cmd == None && spawned == old(spawned) && exit == old(exit) && reaped == old(reaped)
      ensures log == old(log) + [Abandoned] && Here() == Doing(old(Here()), Abandoned)
      ensures forall c :: ExitOf(log, c) == ExitOf(old(log), c)
    {
      assert forall c :: ExitOf(log + [Abandoned], c) == ExitOf(log, c) by {
        assert (log + [Abandoned])[..|log|] == log;
      }
      Push(log, Now(), Abandoned);
      log := log + [Abandoned];
      cmd, running, forwarded := None, false, false;
    }

    /** A command over the control socket, after checking the master. */
    method ProbeRemote() returns (remote: Remote, failed: bool, why: string)
      requires Valid()
      modifies this, world
      ensures Drifts()
      ensures var answer := AnswerAt(control, old(world.script));
        if answer.Some? then !failed && remote == answer.value.remote && world.script == Following(Following(old(world.script)))
        else failed
    {
      var up := Check();
      if !up {
        return Inconclusive, true, "check ssh master";
      }
      var t := Interleave();
      return t.remote, !t.ok, t.text;
    }

    method ProbeIdentity() returns (identity: Identity, failed: bool, why: string)
      requires Valid()
      modifies this, world
      ensures Drifts()
      ensures var answer := AnswerAt(control, old(world.script));
        if answer.Some? then !failed && identity == answer.value.identity else failed
    {
      var up := Check();
      if !up {
        return NoAnswer, true, "check ssh master";
      }
      var t := Interleave();
      return t.identity, !t.ok, t.text;
    }
  }

  // ---------- what the replay means ----------

  /** At every moment the log is legal and the fields are what replaying it gives. */
  lemma FieldsAreReplayed(b: Backend)
    requires b.Valid()
    ensures LegalLog(b.log) && Replayed(b.log) == b.Now().view && Spawns(b.log) == b.spawned && ReapedIn(b.log) == b.reaped
  {
    assert TellsAt(b.log, b.Now(), 0);
  }

  /** Position `i` starts the current child: nothing later starts another, reaps this one, or lets go of it. */
  ghost predicate Current(log: seq<Event>, i: int) {
    && 0 <= i < |log| && log[i].Spawned?
    && forall j {:trigger log[j]} :: i < j < |log| ==>
      !log[j].Spawned? && !log[j].Abandoned? && !(log[j].Reaped? && log[j].child == log[i].child)
  }

  /** Running holds exactly for the latest started child, while its reap has not run and Stop has not let go of it. */
  lemma {:induction false} RunningMeans(log: seq<Event>)
    requires LegalLog(log)
    ensures Replayed(log).running <==> exists i :: Current(log, i)
    ensures forall i :: Current(log, i) ==> Replayed(log).cmd == Some(log[i].child)
  {
    if log != [] {
      var init, e := log[..|log| - 1], log[|log| - 1];
      RunningMeans(init);
      forall i | Current(log, i) ensures i == |init| || Current(init, i) {
        forall j | i < j < |init| ensures init[j] == log[j] {
        }
      }
      if Replayed(log).running {
        if e.Spawned? {
          assert Current(log, |init|);
        } else {
          var i :| Current(init, i);
          assert Current(log, i);
        }
      }
    }
  }

  /** Position `k` added the forward to the current child, and nothing cancelled it since. */
  ghost predicate ForwardOn(log: seq<Event>, i: int, k: int) {
    && Current(log, i) && i < k < |log|
    && log[k] == ForwardAdded(log[i].child)
    && forall j {:trigger log[j]} :: k < j < |log| ==> !log[j].ForwardCancelled?
  }

  lemma {:induction false} CurrentIsLatest(log: seq<Event>, i: int)
    requires LegalLog(log) && Current(log, i)
    ensures log[i].child == Spawns(log) - 1
  {
    var init := log[..|log| - 1];
    if i < |init| {
      assert Current(init, i);
      CurrentIsLatest(init, i);
    }
  }

  /** While the child runs, Forwarded holds exactly when Forward succeeded on that same child and was not cancelled. */
  lemma {:induction false} ForwardedMeans(log: seq<Event>)
    requires LegalLog(log) && Replayed(log).running
    ensures Replayed(log).forwarded <==> exists i, k :: ForwardOn(log, i, k)
  {
    RunningMeans(log);
    var init, e := log[..|log| - 1], log[|log| - 1];
    if !e.Spawned? {
      RunningMeans(init);
      ForwardedMeans(init);
      var s :| Current(log, s);
      forall i, k | ForwardOn(log, i, k) && k < |init| && !e.ForwardCancelled? ensures ForwardOn(init, i, k) {
        assert Current(init, i);
      }
      if e.ForwardAdded? {
        assert Current(init, s);
        CurrentIsLatest(init, s);
        assert ForwardOn(log, s, |init|);
      } else if Replayed(init).forwarded && !e.ForwardCancelled? {
        var i, k :| ForwardOn(init, i, k);
        assert Current(init, s) && Current(init, i);
        assert Current(log, i);
        assert ForwardOn(log, i, k);
      }
    }
  }

  ghost function TakenIn(log: seq<Event>): set<nat> {
    if log == [] then {}
    else TakenIn(log[..|log| - 1]) + if log[|log| - 1].ExitTaken? then {log[|log| - 1].child} else {}
  }

  /** An exit that waits to be taken belongs to a reaped child and was not handed out before. */
  lemma {:induction false} WaitingExitIsNew(log: seq<Event>)
    requires LegalLog(log)
    ensures TakenIn(log) <= ReapedIn(log)
    ensures Replayed(log).exit.Some? ==>
      Replayed(log).exit.value.child in ReapedIn(log) && Replayed(log).exit.value.child !in TakenIn(log)
  {
    if log != [] {
      WaitingExitIsNew(log[..|log| - 1]);
    }
  }

  lemma {:induction false} LegalUpTo(log: seq<Event>, j: nat)
    requires LegalLog(log) && j < |log|
    ensures LegalLog(log[..j]) && Legal(log[..j], log[j])
  {
    var init := log[..|log| - 1];
    if j < |init| {
      LegalUpTo(init, j);
      assert init[..j] == log[..j];
    }
  }

  lemma {:induction false} TakenBefore(log: seq<Event>, i: nat)
    requires i < |log| && log[i].ExitTaken?
    ensures log[i].child in TakenIn(log)
  {
    if i < |log| - 1 {
      TakenBefore(log[..|log| - 1], i);
    }
  }

  predicate IsSignal(e: Event) {
    e.ExitAsked? || e.Terminated? || e.Killed?
  }

  /** The child started at position `s`, and until `i` no other was, nor did the backend let go of it. */
  ghost predicate OwnedSince(log: seq<Event>, s: int, i: int, child: nat) {
    && 0 <= s < i <= |log| && log[s] == Spawned(child)
    && forall j {:trigger log[j]} :: s < j < i ==> !log[j].Spawned? && !log[j].Abandoned?
  }

  /** Whatever is asked to exit, terminated or killed is the child started last, which the backend still owns. */
  lemma SignalsItsOwn(log: seq<Event>, i: nat)
    requires LegalLog(log) && i < |log| && IsSignal(log[i])
    ensures exists s :: OwnedSince(log, s, i, log[i].child)
  {
    LegalUpTo(log, i);
    var s := LastSpawn(log[..i]);
    forall j | s < j < i ensures !log[j].Spawned? && !log[j].Abandoned? {
      assert log[..i][j] == log[j];
    }
    assert OwnedSince(log, s, i, log[i].child);
  }

  lemma {:induction false} LastSpawn(log: seq<Event>) returns (s: nat)
    requires Replayed(log).cmd.Some?
    ensures OwnedSince(log, s, |log|, Replayed(log).cmd.value)
  {
    var init, e := log[..|log| - 1], log[|log| - 1];
    if e.Spawned? {
      s := |init|;
    } else {
      s := LastSpawn(init);
      forall j | s < j < |log| ensures !log[j].Spawned? && !log[j].Abandoned? {
        if j < |init| {
          assert init[j] == log[j];
        }
      }
    }
  }

  /** The child is reaped with this exit at position `i`, and the backend owned it. */
  ghost predicate EndsAt(log: seq<Event>, i: int, c: nat, x: ExitInfo) {
    0 <= i < |log| && log[i] == Reaped(c, x) && exists s :: OwnedSince(log, s, i, c)
  }

  lemma {:induction false} OwnedIsCurrent(log: seq<Event>, s: int, i: nat, c: nat)
    requires OwnedSince(log, s, i, c)
    ensures Replayed(log[..i]).cmd == Some(c)
  {
    assert log[..i][..i - 1] == log[..i - 1];
    if i > s + 1 {
      OwnedIsCurrent(log, s, i - 1, c);
    }
  }

  /** How a child ended is the exit it was reaped with while the backend owned it, and there is only one. */
  lemma {:induction false} ExitOfMeans(log: seq<Event>, c: nat, x: ExitInfo)
    requires LegalLog(log)
    ensures ExitOf(log, c) == Some(x) <==> exists i :: EndsAt(log, i, c, x)
  {
    if log != [] {
      var init, e := log[..|log| - 1], log[|log| - 1];
      ExitOfMeans(init, c, x);
      if ExitOf(log, c) == Some(x) {
        if e.Reaped? && e.child == c && Replayed(init).cmd == Some(c) {
          var s := LastSpawn(init);
          assert OwnedSince(log, s, |init|, c);
          assert EndsAt(log, |init|, c, x);
        } else {
          var i :| EndsAt(init, i, c, x);
          var s :| OwnedSince(init, s, i, c);
          assert OwnedSince(log, s, i, c);
          assert EndsAt(log, i, c, x);
        }
      }
      forall i | EndsAt(log, i, c, x) ensures ExitOf(log, c) == Some(x) {
        var s :| OwnedSince(log, s, i, c);
        if i == |init| {
          OwnedIsCurrent(log, s, i, c);
        } else {
          assert OwnedSince(init, s, i, c);
          assert EndsAt(init, i, c, x);
          ReapedWereStarted(init, c);
        }
      }
    }
  }

  /** Each exit is consumed at most once. */
  lemma ExitTakenOnce(log: seq<Event>, i: nat, j: nat)
    requires LegalLog(log) && i < j < |log| && log[i].ExitTaken? && log[j].ExitTaken?
    ensures log[i].child != log[j].child
  {
    LegalUpTo(log, j);
    WaitingExitIsNew(log[..j]);
    TakenBefore(log[..j], i);
  }
}
