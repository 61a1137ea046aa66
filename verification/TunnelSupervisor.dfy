/**
 The supervisor of one managed tunnel: a persisted state machine with a crash-loop breaker, a healthy
 state that needs proof, and a stable window. Everything it asks the outside is a turn of `World`.
 */
module TunnelSupervisor {
  import opened Wrappers
  import opened Text
  import opened Numerals
  import opened TunnelStore
  import opened TunnelTrace
  import opened SshBackend

  // ---------- the key that decides whether a save can be skipped ----------

  function Key(rt: Runtime): string {
    Name(rt.state) + ("|" + (RemoteName(rt.remote) + ("|" + (rt.lastError + ("|" + Itoa(rt.failures))))))
  }

  predicate Keyed(key: string, rt: Runtime) {
    key == Key(rt)
  }

  /** `key` is the key of `rt`; stated so that only the lemmas about keys look inside. */
  ghost predicate KeyIs(key: string, rt: Runtime) {
    forall k {:trigger Keyed(k, rt)} :: Keyed(k, rt) ==> k == key
  }

  /** The first separator is found where a separator-free first field ends. */
  lemma SplitFirst(a: string, x: string, b: string, y: string)
    requires Plain(a) && Plain(b) && a + ("|" + x) == b + ("|" + y)
    ensures a == b && x == y
  {
    var s := a + ("|" + x);
    assert s[|a|] == '|' && forall i :: 0 <= i < |a| ==> s[i] == a[i];
    assert s[|b|] == '|' && forall i :: 0 <= i < |b| ==> s[i] == b[i];
    assert |a| == |b|;
    assert a == s[..|a|] && b == s[..|b|];
    assert x == s[|a| + 1..] && y == s[|b| + 1..];
  }

  /** The last separator is found where a separator-free last field starts. */
  lemma SplitLast(a: string, x: string, b: string, y: string)
    requires Plain(x) && Plain(y) && a + ("|" + x) == b + ("|" + y)
    ensures a == b && x == y
  {
    var s := a + ("|" + x);
    assert s[|a|] == '|' && forall i :: |a| < i < |s| ==> s[i] == x[i - |a| - 1];
    assert s[|b|] == '|' && forall i :: |b| < i < |s| ==> s[i] == y[i - |b| - 1];
    assert |a| == |b|;
    assert a == s[..|a|] && b == s[..|b|];
    assert x == s[|a| + 1..] && y == s[|b| + 1..];
  }

  /** The joined key loses nothing, although the error text may itself contain the separator. */
  lemma KeyInjective(p: Runtime, q: Runtime)
    requires Key(p) == Key(q)
    ensures p == q
  {
    NamePlain(p.state);
    NamePlain(q.state);
    SplitFirst(Name(p.state), RemoteName(p.remote) + ("|" + (p.lastError + ("|" + Itoa(p.failures)))),
               Name(q.state), RemoteName(q.remote) + ("|" + (q.lastError + ("|" + Itoa(q.failures)))));
    NameInjective(p.state, q.state);
    RemoteNameInjective(p.remote, q.remote);
    RemoteNameInjective(q.remote, p.remote);
    SplitFirst(RemoteName(p.remote), p.lastError + ("|" + Itoa(p.failures)),
               RemoteName(q.remote), q.lastError + ("|" + Itoa(q.failures)));
    ItoaPlain(p.failures);
    ItoaPlain(q.failures);
    SplitLast(p.lastError, Itoa(p.failures), q.lastError, Itoa(q.failures));
    ItoaInjective(p.failures, q.failures);
  }

  lemma ItoaPlain(i: int)
    ensures Plain(Itoa(i))
  {
    forall k | 0 <= k < |Itoa(i)| ensures Itoa(i)[k] != '|' {
      ItoaChars(i, k);
    }
  }

  lemma KeyOfIs(rt: Runtime)
    ensures KeyIs(Key(rt), rt) && Key(rt) != ""
  {
    assert |Key(rt)| > 0;
  }

  /** A save skipped because of an equal key would have written what is there. */
  lemma SameKey(key: string, p: Runtime, q: Runtime)
    requires key == Key(p) && KeyIs(key, q)
    ensures p == q
  {
    assert Keyed(Key(q), q);
    KeyInjective(p, q);
  }

  // ---------- pure decisions ----------

  function ClassifyExit(exit: ExitInfo): State {
    var msg := ToLower(exit.stderr);
    if exit.code == 255 && Contains(msg, "permission denied") then AuthRequired
    else if exit.code == 255
      && (Contains(msg, "host key verification failed") || Contains(msg, "remote host identification has changed"))
    then HostKeyError
    else Reconnecting
  }

  function Upper(c: char): char {
    if 'a' <= c <= 'z' then (c as int - 32) as char else c
  }

  /** From position `i` on the text reads as the phrase, in whatever case. */
  ghost predicate ReadsAt(text: string, i: int, phrase: string) {
    && 0 <= i && i + |phrase| <= |text|
    && forall k :: 0 <= k < |phrase| ==> text[i + k] == phrase[k] || text[i + k] == Upper(phrase[k])
  }

  ghost predicate Mentions(text: string, phrase: string) {
    exists i :: ReadsAt(text, i, phrase)
  }

  /** What stops ssh for good: a login or a host key that was refused. */
  ghost predicate LoginRefused(x: ExitInfo) {
    x.code == 255 && Mentions(x.stderr, "permission denied")
  }

  ghost predicate HostRefused(x: ExitInfo) {
    && x.code == 255
    && (Mentions(x.stderr, "host key verification failed") || Mentions(x.stderr, "remote host identification has changed"))
  }

  lemma ContainsInAnyCase(text: string, phrase: string)
    requires forall k :: 0 <= k < |phrase| ==> !('A' <= phrase[k] <= 'Z')
    ensures Contains(ToLower(text), phrase) <==> Mentions(text, phrase)
  {
    var low := ToLower(text);
    forall i | 0 <= i <= |text| ensures HasPrefix(low[i..], phrase) <==> ReadsAt(text, i, phrase) {
      if i + |phrase| <= |text| {
        var part := low[i..i + |phrase|];
        assert low[i..][..|phrase|] == part;
        assert forall k :: 0 <= k < |phrase| ==> part[k] == Lower(text[i + k]);
      }
    }
  }

  /** Exit code 255 and the message, in any case of letters, decide; a refused login goes before a refused host. */
  lemma ClassifyMeans(x: ExitInfo)
    ensures ClassifyExit(x) == if LoginRefused(x) then AuthRequired else if HostRefused(x) then HostKeyError else Reconnecting
  {
    ContainsInAnyCase(x.stderr, "permission denied");
    ContainsInAnyCase(x.stderr, "host key verification failed");
    ContainsInAnyCase(x.stderr, "remote host identification has changed");
  }

  function StateForRemote(remote: Remote): State {
    match remote
    case Down => RemoteDown
    case Stale => RemoteStale
    case Unverified => RemoteUnverified
    case _ => RemoteUnknown
  }

  /** Each answer of the remote side is stored as the state of its own name; what is no answer is unknown. */
  lemma RemoteStateMeans(remote: Remote)
    ensures Name(StateForRemote(remote)) == "remote-" + (if remote.NotProbed? || remote.Ok? then "unknown" else RemoteName(remote))
  {
  }

  /** The duration a process exit's message also names is not part of the text here. */
  function DescribeStartFailure(exit: ExitInfo): string {
    var detail := TrimSpace(exit.stderr);
    if !exit.processExit then detail
    else
      var message := "ssh child exited with code " + Itoa(exit.code);
      if detail == "" then message else message + ": " + detail
  }

  /** The text of a failed start ends with what ssh said, and tells the code when a process ended. */
  lemma DescribeMeans(exit: ExitInfo)
    ensures var said, text := TrimSpace(exit.stderr), DescribeStartFailure(exit);
      && HasSuffix(text, said)
      && (!exit.processExit ==> text == said)
      && (exit.processExit ==> HasPrefix(text, "ssh child exited with code " + Itoa(exit.code)))
  {
    var said, text := TrimSpace(exit.stderr), DescribeStartFailure(exit);
    var head := "ssh child exited with code " + Itoa(exit.code);
    assert exit.processExit ==> text[..|head|] == head;
    assert text[|text| - |said|..] == said;
  }

  predicate IsCause(cause: State) {
    cause.Reconnecting? || NeedsAttention(cause)
  }

  predicate NeedsAttention(cause: State) {
    cause.AuthRequired? || cause.HostKeyError?
  }

  /** What the local side amounts to: ready, or a state to store and its reason. */
  datatype Local = Local(ready: bool, why: State, reason: string)

  const MISMATCH := "local daemon instance does not match persisted tunnel spec"

  function StateForIdentity(identity: Identity, expected: string): State {
    match identity
    case HelperMissing => IdentityHelperMissing
    case EndpointUnavailable => IdentityEndpointUnavailable
    case TokenInvalid => RemoteTokenInvalid
    case NoAnswer => RemoteUnknown
    case Answered(id) => if id == expected then Healthy else IdentityMismatch
  }

  function ThreeOn(script: seq<Turn>): seq<Turn> {
    Following(Following(Following(script)))
  }

  /** The child outlives the next turn, and its forward the one after. */
  predicate Held(f: Fields, script: seq<Turn>) {
    var f' := Reaping(f, Upcoming(script).reaps);
    var f'' := Reaping(f', Upcoming(Following(script)).reaps);
    f'.view.running && f''.view.running && f''.view.forwarded
  }

  /** The child outlives the next turn, and its socket answers in the one after. */
  predicate MasterStands(f: Fields, control: Option<nat>, script: seq<Turn>) {
    Reaping(f, Upcoming(script).reaps).view.running && control.Some? && Upcoming(Following(script)).ok
  }

  /** What the two probes tell, if both came through. */
  datatype Finding = Unclear | Clear(state: State, remote: Remote)

  function IdentityFinding(control: Option<nat>, script: seq<Turn>, remote: Remote, expected: string): Finding {
    var answer := AnswerAt(control, script);
    if answer.None? then Unclear else Clear(StateForIdentity(answer.value.identity, expected), remote)
  }

  function ProbeFinding(control: Option<nat>, script: seq<Turn>, expected: string): Finding {
    var answer := AnswerAt(control, script);
    if answer.None? then Unclear
    else if !answer.value.remote.Ok? then Clear(StateForRemote(answer.value.remote), answer.value.remote)
    else IdentityFinding(control, ThreeOn(script), Ok, expected)
  }

  /** Healthy is what the probes tell exactly when both came through, the first was OK and the second named us. */
  lemma FindingIsHealthy(control: Option<nat>, script: seq<Turn>, expected: string)
    ensures var first, second := AnswerAt(control, script), AnswerAt(control, ThreeOn(script));
      var f := ProbeFinding(control, script, expected);
      f.Clear? && f.state.Healthy? <==>
      first.Some? && first.value.remote.Ok? && second.Some? && second.value.identity == Answered(expected)
  {
  }

  datatype RunError = CrashLoopOpen | RunFailed

  datatype Flow = Proceed | Again | Break | Return(err: RunError)

  class Supervisor {
    const spec: Spec
    const store: Store
    const backend: Backend
    const world: World
    const gate: int
    const window: int
    const threshold: int
    var state: State
    var remote: Remote
    var lastErr: string
    var failures: int
    var retryFailures: int
    var healthySince: Option<int>
    var lastKey: string
    ghost const born: nat  // how many children the backend had started before
    ghost var trace: seq<Note>
    ghost var sum: Summary

    constructor (spec: Spec, store: Store, backend: Backend, gate: int, window: int, threshold: int)
      ensures this.spec == spec && this.store == store && this.backend == backend && world == backend.world
      ensures this.gate == gate && this.window == window && this.threshold == threshold
      ensures lastKey == "" && healthySince == None && trace == [] && born == backend.spawned
      ensures Recording(trace, sum, spec.expectedInstanceID, window, threshold) && sum.spawns == 0 && sum.seen.child == None && sum.state == None
    {
      this.spec, this.store, this.backend, world := spec, store, backend, backend.world;
      this.gate, this.window, this.threshold := gate, window, threshold;
      state, remote, lastErr, failures, retryFailures := Unknown, NotProbed, "", 0, 0;
      healthySince, lastKey, trace, born := None, "", [], backend.spawned;
      sum := Summary(NOTHING, None, None, 0, false, None);
      new;
      RecordsNothing(spec.expectedInstanceID, window, threshold);
    }

    function Memory(): Runtime
      reads this
    {
      Runtime(state, remote, lastErr, failures)
    }

    /** The last key, once there is one, is the key of the record on disk, and its state is one the run had. */
    ghost predicate Synced()
      reads this, store
    {
      lastKey == "" ||
      (store.Legible() && store.disk.record.spec == spec && KeyIs(lastKey, store.disk.record.runtime)
       && Noted(trace, store.disk.record.runtime.state))
    }

    /** The record on disk is what memory says. */
    ghost predicate Agrees()
      reads this, store
    {
      store.disk.Stored? && store.disk.record == Record(SCHEMA_VERSION, spec, Memory())
    }

    /** Memory, once saved together with `events`, counts the history right. */
    ghost predicate Countable(events: seq<Milestone>)
      reads this, store
    {
      var n := Count(store.history + events);
      && threshold > 0
      && (if state.Stopped? then n == 0 else failures == n)
      && (n >= threshold <==> state.CrashLoop?)
    }

    /** Save memory unless the key says that nothing changed; `events` is what a success records. */
    method Persist(ghost events: seq<Milestone>) returns (ok: bool)
      requires Synced() && store.Counts(threshold) && Countable(events) && sum.state == Some(state)
      requires Recording(trace, sum, spec.expectedInstanceID, window, threshold)
      modifies this`lastKey, store, world
      ensures Synced() && store.Counts(threshold)
      ensures ok ==> Agrees() && store.Legible() && store.history == old(store.history) + events
      ensures !ok ==> store.disk == old(store.disk) && store.history == old(store.history)
      ensures |world.script| <= |old(world.script)| && (old(world.cancelled) ==> world.cancelled)
    {
      var rec := Record(SCHEMA_VERSION, spec, Memory());
      var key := Key(rec.runtime);
      KeyOfIs(rec.runtime);
      if key == lastKey {
        SameKey(key, rec.runtime, store.disk.record.runtime);
        store.Confirm(events);
        return true;
      }
      var t := world.Next();
      RecordingMeans(trace, sum, spec.expectedInstanceID, window, threshold);
      StateIsNoted(trace);
      ok := store.Save(rec, t.ok, events);
      if ok {
        lastKey := key;
      }
    }

    // ---------- invariants ----------

    /** What holds at every moment, even after a failed save. */
    ghost predicate Intact()
      reads this, store, backend, world
    {
      && backend.world == world
      && backend.Valid()
      && store.Counts(threshold)
      && Synced()
      && Recording(trace, sum, spec.expectedInstanceID, window, threshold)
      && Tied()
    }

    /** The trace tells of exactly the children the backend started since, and ends with the state there is. */
    ghost predicate Tied()
      reads this, backend
    {
      && backend.spawned == born + sum.spawns
      && sum.seen.child == (if sum.spawns == 0 then None else Some(backend.spawned - 1))
      && (backend.running ==> sum.spawns > 0)
      && (sum.state.Some? ==> sum.state.value == state)
    }

    /** What holds while the loop goes on. */
    ghost predicate Steady()
      reads this, store, backend, world
    {
      Going() && (healthySince.Some? ==> state.Healthy?)
    }

    /** The same, while a healthy observation is being recorded. */
    ghost predicate Going()
      reads this, store, backend, world
    {
      && Intact()
      && store.Legible()
      && failures == Count(store.history) && failures < threshold
      && !state.CrashLoop? && !state.Stopped?
      && sum.state == Some(state) && !sum.tripped
      && healthySince == sum.healthySince
    }

    /** In this iteration the forward of the child started last was on. */
    ghost predicate Forwarding()
      reads this
    {
      sum.seen.child.Some? && sum.seen.forward == sum.seen.child
    }

    /** Time and the outside move on: nothing comes back that was used up. */
    twostate predicate MovesOn()
      reads this, store, world
    {
      && old(trace) <= trace
      && old(store.history) <= store.history
      && |world.script| <= |old(world.script)|
      && (old(world.cancelled) ==> world.cancelled)
    }

    ghost method Note(n: Note)
      requires Recording(trace, sum, spec.expectedInstanceID, window, threshold) && Synced()
      requires Allowed(sum, n, spec.expectedInstanceID, window, threshold)
      modifies this`trace, this`sum
      ensures trace == old(trace) + [n] && Recording(trace, sum, spec.expectedInstanceID, window, threshold) && Synced()
      ensures sum == Grown(old(sum), n)
    {
      Recorded(trace, sum, n, spec.expectedInstanceID, window, threshold);
      if lastKey != "" {
        NotedGrows(trace, n, store.disk.record.runtime.state);
      }
      trace, sum := trace + [n], Grown(sum, n);
    }

    /** Store a state of the running loop; Healthy only with the iteration's full evidence. */
    method Transition(next: State, remote': Remote, why: string) returns (ok: bool)
      requires Going() && !next.CrashLoop? && !next.Stopped?
      requires next.Healthy? ==> Full(sum.seen, spec.expectedInstanceID)
      modifies this, store, world
      ensures MovesOn() && Intact() && (ok ==> Steady() && Agrees())
      ensures Memory() == Runtime(next, remote', why, old(failures)) && store.history == old(store.history)
      ensures healthySince == if next.Healthy? then old(healthySince) else None
      ensures sum.seen == old(sum.seen) && retryFailures == old(retryFailures)
    {
      if !next.Healthy? {
        healthySince := None;
      }
      state := next;
      remote := remote';
      lastErr := why;
      Note(StoredState(next));
      assert store.history + [] == store.history;
      ok := Persist([]);
    }
  
    /** What a saved start failure adds to the history: nothing when a human has to act first. */
    function Milestones(cause: State, exit: ExitInfo): seq<Milestone> {
      if NeedsAttention(cause) then []
      else if exit.uptime < gate then [EarlyFailure]
      else [LateFailure]
    }

    /** What a failed start makes of memory. */
    twostate predicate Failed(cause: State, exit: ExitInfo)
      reads this
    {
      var n := Tallied(old(failures), cause, exit);
      && Memory() == Runtime(if !NeedsAttention(cause) && n >= threshold then CrashLoop else cause, old(remote),
                             DescribeStartFailure(exit), n)
      && retryFailures == (if NeedsAttention(cause) then old(retryFailures) else old(retryFailures) + 1)
      && healthySince == None
    }

    /** Count a failed start and open the circuit breaker at the threshold. */
    method RecordStartFailure(cause: State, exit: ExitInfo) returns (ok: bool)
      requires Steady() && IsCause(cause)
      modifies this, store, world
      ensures MovesOn() && Intact() && Failed(cause, exit)
      ensures ok ==> Agrees() && store.history == old(store.history) + Milestones(cause, exit)
      ensures !ok ==> store.disk == old(store.disk) && store.history == old(store.history)
      ensures ok && !state.CrashLoop? ==> Steady()
      ensures ok ==> (state.CrashLoop? <==> Count(store.history) >= threshold)
    {
      CountFailure(cause, exit);
      ok := Persist(Milestones(cause, exit));
    }

    method CountFailure(cause: State, exit: ExitInfo)
      requires Steady() && IsCause(cause)
      modifies this
      ensures MovesOn() && Intact() && Countable(Milestones(cause, exit))
      ensures Failed(cause, exit) && sum.healthySince == None && sum.state == Some(state) && (sum.tripped ==> state.CrashLoop?)
    {
      MilestonesCount(store.history, cause, exit);
      Tally(cause, exit);
      healthySince := None;
      state := if !NeedsAttention(cause) && failures >= threshold then CrashLoop else cause;
      Note(StoredState(state));
    }

    /** Authentication and host key failures do not count; a child that outlived the gate starts the count anew. */
    method Tally(cause: State, exit: ExitInfo)
      modifies this`lastErr, this`failures, this`retryFailures
      ensures failures == Tallied(old(failures), cause, exit) && lastErr == DescribeStartFailure(exit)
      ensures retryFailures == if NeedsAttention(cause) then old(retryFailures) else old(retryFailures) + 1
    {
      lastErr := DescribeStartFailure(exit);
      if !NeedsAttention(cause) {
        retryFailures := retryFailures + 1;
        if exit.uptime < gate {
          failures := failures + 1;
        } else {
          failures := 0;
        }
      }
    }

    function Tallied(n: int, cause: State, exit: ExitInfo): int {
      if NeedsAttention(cause) then n else if exit.uptime < gate then n + 1 else 0
    }

    lemma MilestonesCount(history: seq<Milestone>, cause: State, exit: ExitInfo)
      ensures Count(history + Milestones(cause, exit)) == Tallied(Count(history), cause, exit)
    {
      if NeedsAttention(cause) {
        assert history + [] == history;
      } else {
        CountPushed(history, Milestones(cause, exit)[0]);
      }
    }

    /** The breaker's answer, or a pause before the next attempt. */
    method RecordStartFailureAndWait(cause: State, exit: ExitInfo) returns (retry: bool, err: Option<RunError>)
      requires Steady() && IsCause(cause)
      modifies this, store, world
      ensures MovesOn() && Intact() && Failed(cause, exit)
      ensures err.None? ==> Steady() && (!retry ==> world.cancelled)
      ensures store.history == if err == Some(RunFailed) then old(store.history) else old(store.history) + Milestones(cause, exit)
      ensures err == Some(CrashLoopOpen) ==> store.disk.Stored? && store.disk.record.runtime.state.CrashLoop?
    {
      var ok := RecordStartFailure(cause, exit);
      if !ok {
        return false, Some(RunFailed);
      }
      if state.CrashLoop? {
        return false, Some(CrashLoopOpen);
      }
      retry := Sleep();
      err := None;
    }

    /** A pause that the context may cut short. */
    method Sleep() returns (on: bool)
      modifies world
      ensures MovesOn() && (!on ==> world.cancelled)
    {
      var t := world.Next();
      on := !world.cancelled || t.ok;
    }

    /** The answers of the local daemon, the token file and the identity endpoint, in this order, decide. */
    function LocalVerdict(script: seq<Turn>): Local {
      var daemon, token, endpoint := Upcoming(script), Upcoming(Following(script)), Upcoming(Following(Following(script)));
      if !daemon.ok then Local(false, LocalDaemonDown, daemon.text)
      else if !token.ok then Local(false, ConfigError, token.text)
      else if endpoint.identity == Answered(spec.expectedInstanceID) then Local(true, Healthy, "")
      else if endpoint.identity.Answered? then Local(false, IdentityMismatch, MISMATCH)
      else if endpoint.identity.EndpointUnavailable? then Local(false, IdentityEndpointUnavailable, endpoint.text)
      else Local(false, ConfigError, endpoint.text)
    }

    /** The local daemon must answer, with a token at hand, as the expected instance. */
    method LocalReady() returns (ready: bool, why: State, reason: string)
      requires Steady()
      modifies this`trace, this`sum, world
      ensures MovesOn() && Steady() && Local(ready, why, reason) == LocalVerdict(old(world.script))
      ensures ready ==> world.script == ThreeOn(old(world.script))
      ensures sum.seen == if ready then old(sum.seen).(local := true) else old(sum.seen)
      ensures !ready ==> why.LocalDaemonDown? || why.ConfigError? || why.IdentityEndpointUnavailable? || why.IdentityMismatch?
    {
      var t := world.Next();
      if !t.ok {
        return false, LocalDaemonDown, t.text;
      }
      t := world.Next();
      if !t.ok {
        return false, ConfigError, t.text;
      }
      t := world.Next();
      match t.identity {
        case Answered(id) =>
          if id != spec.expectedInstanceID {
            return false, IdentityMismatch, MISMATCH;
          }
        case EndpointUnavailable => return false, IdentityEndpointUnavailable, t.text;
        case _ => return false, ConfigError, t.text;
      }
      Note(LocalMatched);
      return true, Healthy, "";
    }

    /** A healthy observation; after a stable window of them the retry counter is cleared. */
    method ObserveHealthy(remote': Remote) returns (ok: bool)
      requires Steady() && Full(sum.seen, spec.expectedInstanceID)
      modifies this, store, world
      ensures MovesOn() && Intact() && (ok ==> Steady() && Agrees())
      ensures Memory() == Runtime(Healthy, remote', "", old(failures))
      ensures Timed(Upcoming(old(world.script)).now)
    {
      var t := world.Next();
      MarkHealthy(t.now);
      ok := Transition(Healthy, remote', "");
    }

    /** The window began with this observation or goes on; the retry counter is cleared exactly when it is over. */
    twostate predicate Timed(now: int)
      reads this
    {
      var since := if old(state).Healthy? && old(healthySince).Some? then old(healthySince).value else now;
      && healthySince == Some(since)
      && retryFailures == (if now - since >= window then 0 else old(retryFailures))
    }

    method MarkHealthy(now: int)
      requires Steady() && Full(sum.seen, spec.expectedInstanceID)
      modifies this`healthySince, this`retryFailures, this`trace, this`sum
      ensures old(trace) <= trace && Going() && sum.seen == old(sum.seen) && Timed(now)
    {
      if !state.Healthy? || healthySince.None? {
        healthySince := Some(now);
      }
      Note(Observed(now));
      if now - healthySince.value >= window {
        Note(RetryCleared(healthySince.value, now));
        retryFailures := 0;
      }
    }

    // ---------- the loop ----------

    /** No child is running: account for the last exit, check the local side, start a new child and wait for it. */
    method EnsureChild() returns (flow: Flow, ghost why: string)
      requires Steady() && !backend.running
      modifies this, store, backend, world
      ensures MovesOn() && Intact() && (flow.Break? ==> world.cancelled)
      ensures if flow.Return? then !backend.running else Steady()
      ensures flow.Proceed? ==> backend.spawned == old(backend.spawned) + 1 && state.Starting?
      // An exit that was waiting is accounted for before anything else.
      ensures var e := old(backend.Soon()).view.exit;
        e.Some? && !flow.Return? ==>
          old(store.history) + Milestones(ClassifyExit(e.value.exit), e.value.exit) <= store.history
      // Without one, a new child that never got ready counts by how it ended.
      ensures old(backend.Soon()).view.exit.None? && !flow.Proceed? && backend.spawned > old(backend.spawned) && !world.cancelled ==>
        EndedBy(ExitOf(backend.log, old(backend.spawned)), why, flow, NotProbed) && Forgiven(ExitOf(backend.log, old(backend.spawned)))
    {
      why := "";
      flow := AccountForExit();
      if flow.Proceed? {
        flow, why := LaunchWhenReady();
      }
    }

    /** A child is only started when the local side is ready. */
    method LaunchWhenReady() returns (flow: Flow, ghost why: string)
      requires Steady() && !backend.running
      modifies this, store, backend, world
      ensures MovesOn() && Intact() && (flow.Break? ==> world.cancelled)
      ensures if flow.Return? then !backend.running else Steady()
      ensures flow.Proceed? ==> backend.spawned == old(backend.spawned) + 1 && state.Starting?
      ensures backend.spawned > old(backend.spawned) ==> LocalVerdict(old(world.script)).ready
      ensures !flow.Proceed? && backend.spawned > old(backend.spawned) && !world.cancelled ==>
        EndedBy(ExitOf(backend.log, old(backend.spawned)), why, flow, NotProbed)
      ensures !flow.Proceed? && backend.spawned > old(backend.spawned) && !world.cancelled ==>
        Forgiven(ExitOf(backend.log, old(backend.spawned)))
    {
      why := "";
      flow := LocalOrWait(false);
      if flow.Proceed? {
        flow, why := Launch();
      }
    }

    /** An exit that is waiting is a failure to be counted, and a reason to pause. */
    method AccountForExit() returns (flow: Flow)
      requires Steady() && !backend.running
      modifies this, store, backend, world
      ensures MovesOn() && Intact() && (flow.Break? ==> world.cancelled) && !backend.running && (!flow.Return? ==> Steady())
      ensures backend.spawned == old(backend.spawned)
      ensures var e := old(backend.Soon()).view.exit;
        if e.Some? then Forgiven(Some(e.value.exit)) && (!flow.Return? ==>
          store.history == old(store.history) + Milestones(ClassifyExit(e.value.exit), e.value.exit))
        else flow.Proceed? && Memory() == old(Memory()) && store.history == old(store.history)
      ensures !flow.Return? ==> backend.exit == None
    {
      var exit := backend.ConsumeLastExit();
      if exit.None? {
        return Proceed;
      }
      var retry, err := RecordExit(exit.value);
      if err.Some? {
        backend.Stop();
        return Return(err.value);
      }
      return if retry then Proceed else Break;
    }

    method RecordExit(x: ExitInfo) returns (retry: bool, err: Option<RunError>)
      requires Steady()
      modifies this, store, world
      ensures MovesOn() && Intact() && Forgiven(Some(x))
      ensures err.None? ==> Steady() && (!retry ==> world.cancelled)
      ensures err.None? ==> store.history == old(store.history) + Milestones(ClassifyExit(x), x)
    {
      ClassifyMeans(x);
      assert store.history + [] == store.history;
      retry, err := RecordStartFailureAndWait(ClassifyExit(x), x);
    }

    /** The local side is ready, or its state is stored and the loop waits; a mismatch ends the run. */
    method LocalOrWait(stop: bool) returns (flow: Flow)
      requires Steady() && (!stop ==> !backend.running)
      modifies this, store, backend, world
      ensures MovesOn() && Intact() && (flow.Break? ==> world.cancelled)
      ensures if flow.Return? then !backend.running else Steady()
      ensures flow.Proceed? ==> sum.seen == old(sum.seen).(local := true)
      ensures !stop ==> !backend.running
      ensures flow.Proceed? ==> backend.Now() == old(backend.Now()) && backend.control == old(backend.control)
      ensures flow.Proceed? ==> world.script == ThreeOn(old(world.script))
      ensures var v := LocalVerdict(old(world.script));
        && (flow.Proceed? <==> v.ready)
        && (v.why.ConfigError? || v.why.IdentityMismatch? ==> flow.Return?)
        && Memory() == if v.ready then old(Memory()) else Runtime(v.why, NotProbed, v.reason, old(failures))
      ensures backend.spawned == old(backend.spawned) && store.history == old(store.history)
    {
      var ready, next, reason := LocalReady();
      if ready {
        return Proceed;
      }
      var ok := Transition(next, NotProbed, reason);
      if !ok {
        backend.Stop();
        return Return(RunFailed);
      }
      if next.ConfigError? || next.IdentityMismatch? {
        if stop {
          backend.Stop();
        }
        return Return(RunFailed);
      }
      var on := Sleep();
      return if on then Again else Break;
    }

    /** Start a child and wait until its control socket answers. */
    method Launch() returns (flow: Flow, ghost why: string)
      requires Steady() && !backend.running
      modifies this, store, backend, world
      ensures MovesOn() && Intact() && (flow.Break? ==> world.cancelled)
      ensures if flow.Return? then !backend.running else Steady()
      ensures flow.Proceed? ==> backend.spawned == old(backend.spawned) + 1 && state.Starting?
      ensures flow.Again? ==> IsCause(state)
      ensures !flow.Return? ==> exists i :: |old(trace)| <= i < |trace| && trace[i].Launched?
      // A child that was started and never got ready counts by the exit it was reaped with, if it was, and once.
      ensures !flow.Proceed? && backend.spawned > old(backend.spawned) && !world.cancelled ==>
        EndedBy(ExitOf(backend.log, old(backend.spawned)), why, flow, NotProbed) && backend.exit == None
      ensures !flow.Proceed? && backend.spawned > old(backend.spawned) && !world.cancelled ==>
        Forgiven(ExitOf(backend.log, old(backend.spawned)))
      ensures !flow.Proceed? && backend.spawned == old(backend.spawned) && flow != Return(RunFailed) ==>
        EndedBy(None, why, flow, NotProbed)
    {
      var ok := Transition(Starting, NotProbed, "");
      if !ok {
        return Return(RunFailed), "";
      }
      flow, why := Bootstrap();
      ghost var x := ExitOf(backend.log, old(backend.spawned));
      if x.Some? {
        ClassifyMeans(x.value);
        assert old(store.history) + [] == old(store.history);
      }
    }

    /** A refused login or host key is no failure that counts, in memory or on disk. */
    twostate predicate Forgiven(new x: Option<ExitInfo>)
      reads this, store
    {
      x.Some? && (LoginRefused(x.value) || HostRefused(x.value)) ==>
        && state == (if LoginRefused(x.value) then AuthRequired else HostKeyError)
        && failures == old(failures) && store.history == old(store.history)
    }

    method Bootstrap() returns (flow: Flow, ghost why: string)
      requires Steady() && !backend.running && state.Starting?
      modifies this, store, backend, world
      ensures MovesOn() && Intact() && (flow.Break? ==> world.cancelled)
      ensures if flow.Return? then !backend.running else Steady()
      ensures flow.Proceed? ==> backend.spawned == old(backend.spawned) + 1 && state.Starting?
      ensures flow.Again? ==> IsCause(state)
      ensures |trace| > |old(trace)| && trace[|old(trace)|].Launched?
      ensures !flow.Proceed? && backend.spawned > old(backend.spawned) && !world.cancelled ==>
        EndedBy(ExitOf(backend.log, old(backend.spawned)), why, flow, old(remote)) && backend.exit == None
      ensures !flow.Proceed? && backend.spawned == old(backend.spawned) ==> EndedBy(None, why, flow, old(remote))
    {
      var ok, reason := StartChild();
      why := reason;
      if !ok {
        flow := Retry(Reconnecting, ExitInfo(-1, reason, 0, false));
        return;
      }
      ok, reason := backend.WaitReady();
      why := reason;
      flow := Proceed;
      if !ok {
        flow := BootstrapFailed(reason);
      }
    }

    /** One call of Backend.Start. */
    method StartChild() returns (ok: bool, why: string)
      requires Steady() && !backend.running
      modifies this`trace, this`sum, backend, world
      ensures MovesOn() && Steady() && |trace| > |old(trace)| && trace[|old(trace)|].Launched?
      ensures if ok then backend.spawned == old(backend.spawned) + 1 && backend.cmd == Some(old(backend.spawned)) && backend.running
              else backend.spawned == old(backend.spawned) && !backend.running
    {
      Note(Launched(Count(store.history)));
      ok, why := backend.Start();
      if ok {
        Note(ChildStarted(backend.spawned - 1));
      }
    }

    /** Memory and history are those of a start that failed with this exit, or for the reason if there was none. */
    twostate predicate EndedBy(new x: Option<ExitInfo>, new why: string, new flow: Flow, remote': Remote)
      reads this, store
    {
      var exit := if x.Some? then x.value else ExitInfo(-1, why, 0, false);
      FailedStart(if x.Some? then ClassifyExit(exit) else Reconnecting, exit, flow, remote')
    }

    twostate predicate FailedStart(cause: State, new exit: ExitInfo, new flow: Flow, remote': Remote)
      reads this, store
    {
      var n := Tallied(old(failures), cause, exit);
      && Memory() == Runtime(if !NeedsAttention(cause) && n >= threshold then CrashLoop else cause, remote',
                             DescribeStartFailure(exit), n)
      && store.history == if flow == Return(RunFailed) then old(store.history) else old(store.history) + Milestones(cause, exit)
    }

    /** The master never got ready: stop it and account for whatever exit there is. */
    method BootstrapFailed(why: string) returns (flow: Flow)
      requires Steady() && backend.cmd.Some? && (backend.running || backend.exit.Some?)
      modifies this, store, backend, world
      ensures MovesOn() && Intact() && (flow.Break? ==> world.cancelled) && !backend.running && !flow.Proceed?
      ensures !flow.Return? ==> Steady()
      ensures flow.Again? ==> IsCause(state)
      ensures backend.spawned == old(backend.spawned)
      ensures !world.cancelled ==> EndedBy(ExitOf(backend.log, old(backend.cmd).value), why, flow, old(remote)) && backend.exit == None
    {
      var t := world.Next();
      if world.cancelled {
        backend.Stop();
        return Break;
      }
      var info := LastWords(why);
      flow := Retry(ClassifyExit(info), info);
    }

    /** The exit that is there before the child is stopped, else the one after, else the reason given. */
    method LastWords(why: string) returns (info: ExitInfo)
      requires Steady() && backend.cmd.Some? && (backend.running || backend.exit.Some?)
      modifies backend, world
      ensures MovesOn() && Steady() && !backend.running && backend.spawned == old(backend.spawned) && backend.exit == None
      // That is: how the child ended that the backend owned, if it did, and else the reason.
      ensures var x := ExitOf(backend.log, old(backend.cmd).value);
        info == if x.Some? then x.value else ExitInfo(-1, why, 0, false)
    {
      ghost var c := backend.cmd.value;
      var exit := backend.ConsumeLastExit();
      ghost var asked := backend.log;
      backend.Stop();
      ghost var stopped, fields := backend.log, backend.Now();
      var stoppedExit := backend.ConsumeLastExit();
      if exit.Some? {
        ExitStaysTold(asked, backend.log, backend.Now(), c);
      } else {
        UnownedExitsTold(stopped, fields, backend.log, c);
      }
      info := if exit.Some? then exit.value
              else if stoppedExit.Some? then stoppedExit.value
              else ExitInfo(-1, why, 0, false);
    }

    /** Record a failure while no child runs; go on unless the breaker opens or the context ends. */
    method Retry(cause: State, exit: ExitInfo) returns (flow: Flow)
      requires Steady() && IsCause(cause) && !backend.running
      modifies this, store, world
      ensures MovesOn() && Intact()
      ensures !flow.Proceed? && Failed(cause, exit) && (flow.Break? ==> world.cancelled)
      ensures !flow.Return? ==> Steady()
      ensures store.history == if flow == Return(RunFailed) then old(store.history) else old(store.history) + Milestones(cause, exit)
    {
      var retry, err := RecordStartFailureAndWait(cause, exit);
      flow := if err.Some? then Return(err.value) else if retry then Again else Break;
    }
  
    /** The forward is on, or it is added now; a port conflict keeps the master, anything else restarts it. */
    method EnsureForward() returns (flow: Flow)
      requires Steady() && sum.seen.child.Some?
      modifies this, store, backend, world
      ensures MovesOn() && Intact() && (flow.Break? ==> world.cancelled)
      ensures if flow.Return? then !backend.running else Steady()
      ensures flow.Proceed? ==> sum.seen == old(sum.seen).(forward := sum.seen.child)
      ensures flow.Proceed? ==> backend.forwarded && backend.control.Some? && Memory() == old(Memory())
      ensures var v := old(backend.Soon()).view;
        flow.Proceed? <==> (v.running && v.forwarded) || (old(backend.control).Some? && Upcoming(Following(old(world.script))).ok)
      ensures old(backend.Soon()).view.running && old(backend.Soon()).view.forwarded ==>
        world.script == Following(old(world.script)) && backend.Now() == old(backend.Soon()) && backend.control == old(backend.control)
      ensures !flow.Proceed? && !world.cancelled ==>
        state.CrashLoop? || state.Reconnecting? || (state.PortConflict? && Upcoming(Following(old(world.script))).conflict)
    {
      var on := backend.Forwarded();
      if !on {
        var r := backend.Forward();
        if !r.Added? {
          flow := ForwardFailed(r);
          return;
        }
      }
      Note(ForwardHeld(backend.control.value));
      return Proceed;
    }

    method ForwardFailed(r: ForwardResult) returns (flow: Flow)
      requires Steady() && !r.Added?
      modifies this, store, backend, world
      ensures MovesOn() && Intact() && (flow.Break? ==> world.cancelled) && !flow.Proceed?
      ensures if flow.Return? then !backend.running else Steady()
      // A conflict keeps a master that stands; whatever else went wrong, the child and its exit are given up.
      ensures !world.cancelled ==>
        if r.Conflict? && MasterStands(old(backend.Now()), old(backend.control), Following(old(world.script)))
        then Memory() == Runtime(PortConflict, NotProbed, r.why, old(failures)) && (!flow.Return? ==> backend.cmd == old(backend.cmd))
        else Failed(Reconnecting, ExitInfo(-1, r.why, 0, false)) && backend.cmd == None && backend.exit == None
    {
      var t := world.Next();
      if world.cancelled {
        return Break;
      }
      if r.Conflict? {
        var up := MasterHolds();
        if up {
          flow := StoreAndWait(PortConflict, NotProbed, r.why);
          return;
        }
      }
      flow := Restart(r.why);
    }

    /** Give up the child and its exit, and account for a failed start. */
    method Restart(why: string) returns (flow: Flow)
      requires Steady()
      modifies this, store, backend, world
      ensures backend.cmd == None && backend.exit == None
      ensures MovesOn() && Intact() && (flow.Break? ==> world.cancelled) && !flow.Proceed? && Failed(Reconnecting, ExitInfo(-1, why, 0, false))
      ensures if flow.Return? then !backend.running else Steady()
    {
      backend.Stop();
      var _ := backend.ConsumeLastExit();
      flow := Retry(Reconnecting, ExitInfo(-1, why, 0, false));
    }

    /** The child runs and its socket answers. */
    method MasterHolds() returns (up: bool)
      requires Steady()
      modifies backend, world
      ensures MovesOn() && Steady()
      ensures up == MasterStands(old(backend.Now()), old(backend.control), old(world.script))
      ensures backend.cmd == old(backend.cmd)
    {
      up := backend.Running();
      if up {
        up := backend.Check();
      }
    }

    /** Store a state and pause; a failed save ends the run. */
    method StoreAndWait(next: State, remote': Remote, why: string) returns (flow: Flow)
      requires Steady() && !next.CrashLoop? && !next.Stopped? && !next.Healthy?
      modifies this, store, backend, world
      ensures MovesOn() && Intact() && (flow.Break? ==> world.cancelled) && !flow.Proceed?
      ensures if flow.Return? then !backend.running else Steady()
      ensures Memory() == Runtime(next, remote', why, old(failures))
      ensures !flow.Return? ==> backend.Now() == old(backend.Now())
    {
      var ok := Transition(next, remote', why);
      if !ok {
        backend.Stop();
        return Return(RunFailed);
      }
      var on := Sleep();
      return if on then Again else Break;
    }

    /** What is stored is what the probes told; without a clear answer the child is given up or the state is unknown. */
    predicate Stores(before: Runtime, f: Finding, flow: Flow)
      reads this, backend
    {
      if f.Clear? then Memory() == Runtime(f.state, f.remote, lastErr, before.failures)
      else state.RemoteUnknown? || (flow.Again? && !backend.running && Memory() == before)
    }

    /** A probe did not come through: without its master the child is given up, else the remote state is unknown. */
    method Doubt(answer: Remote, why: string) returns (flow: Flow)
      requires Steady()
      modifies this, store, backend, world
      ensures MovesOn() && Intact() && (flow.Break? ==> world.cancelled) && !flow.Proceed? && Stores(old(Memory()), Unclear, flow)
      ensures if flow.Return? then !backend.running else Steady()
      ensures if old(backend.control).Some? && Upcoming(old(world.script)).ok then Memory() == Runtime(RemoteUnknown, answer, why, old(failures))
              else flow.Again? && backend.cmd == None && Memory() == old(Memory())
    {
      var up := backend.Check();
      if !up {
        backend.Stop();
        return Again;
      }
      flow := StoreAndWait(RemoteUnknown, answer, why);
    }

    /** Ask the remote side; only an OK answer leads on to the identity. */
    method Probe() returns (flow: Flow)
      requires Steady() && sum.seen.local && Forwarding()
      modifies this, store, backend, world
      ensures MovesOn() && Intact() && (flow.Break? ==> world.cancelled) && !flow.Proceed?
      ensures if flow.Return? then !backend.running else Steady()
      ensures !world.cancelled ==> Stores(old(Memory()), ProbeFinding(old(backend.control), old(world.script), spec.expectedInstanceID), flow)
    {
      var answer, failed, why := backend.ProbeRemote();
      var t := world.Next();
      if world.cancelled {
        return Break;
      }
      if failed {
        flow := Doubt(answer, why);
      } else if !answer.Ok? {
        flow := StoreAndWait(StateForRemote(answer), answer, t.text);
      } else {
        Note(RemoteAnswered);
        flow := ProbeInstance(answer);
      }
    }

    /** Who answers through the tunnel? */
    method ProbeInstance(answer: Remote) returns (flow: Flow)
      requires Steady() && sum.seen.local && Forwarding() && sum.seen.remote
      modifies this, store, backend, world
      ensures MovesOn() && Intact() && (flow.Break? ==> world.cancelled) && !flow.Proceed?
      ensures if flow.Return? then !backend.running else Steady()
      ensures !world.cancelled ==>
        Stores(old(Memory()), IdentityFinding(old(backend.control), old(world.script), answer, spec.expectedInstanceID), flow)
    {
      var identity, failed, why := backend.ProbeIdentity();
      var t := world.Next();
      if world.cancelled {
        return Break;
      }
      if failed {
        flow := Doubt(answer, why);
      } else {
        flow := Identified(identity, answer);
      }
    }

    /** Every answer of the endpoint has its state. */
    method Identified(identity: Identity, answer: Remote) returns (flow: Flow)
      requires Steady() && sum.seen.local && Forwarding() && sum.seen.remote
      modifies this, store, backend, world
      ensures MovesOn() && Intact() && (flow.Break? ==> world.cancelled) && !flow.Proceed?
      ensures if flow.Return? then !backend.running else Steady()
      ensures Memory() == Runtime(StateForIdentity(identity, spec.expectedInstanceID), answer, lastErr, old(failures))
    {
      match identity {
        case HelperMissing => flow := StoreAndWait(IdentityHelperMissing, answer, "remote tunnel identity helper is missing");
        case EndpointUnavailable =>
          flow := StoreAndWait(IdentityEndpointUnavailable, answer, "remote daemon tunnel identity endpoint unavailable");
        case TokenInvalid => flow := StoreAndWait(RemoteTokenInvalid, answer, "remote token rejected by local daemon");
        case NoAnswer => flow := StoreAndWait(RemoteUnknown, answer, "remote tunnel identity probe did not complete");
        case Answered(id) =>
          if id != spec.expectedInstanceID {
            flow := Mismatch(answer);
          } else {
            Note(IdentityAnswered(id));
            flow := Healthily(answer);
          }
      }
    }

    /** Another instance answers through the tunnel: store that and end the run. */
    method Mismatch(answer: Remote) returns (flow: Flow)
      requires Steady()
      modifies this, store, backend, world
      ensures MovesOn() && Intact() && (flow.Break? ==> world.cancelled) && flow.Return? && !backend.running
      ensures Memory() == Runtime(IdentityMismatch, answer, lastErr, old(failures))
    {
      var ok := Transition(IdentityMismatch, answer, "remote tunnel reached a different cc-clip instance");
      backend.Stop();
      return Return(RunFailed);
    }

    /** Every check passed in this iteration. */
    method Healthily(answer: Remote) returns (flow: Flow)
      requires Steady() && Full(sum.seen, spec.expectedInstanceID)
      modifies this, store, backend, world
      ensures MovesOn() && Intact() && (flow.Break? ==> world.cancelled) && !flow.Proceed?
      ensures if flow.Return? then !backend.running else Steady()
      ensures Memory() == Runtime(Healthy, answer, "", old(failures)) && Timed(Upcoming(old(world.script)).now)
    {
      var ok := ObserveHealthy(answer);
      if !ok {
        backend.Stop();
        return Return(RunFailed);
      }
      var on := Sleep();
      return if on then Again else Break;
    }

    /** A running child of this iteration. */
    method BeginIteration() returns (flow: Flow)
      requires Steady()
      modifies this, store, backend, world
      ensures MovesOn() && Intact() && (flow.Break? ==> world.cancelled)
      ensures if flow.Return? then !backend.running else Steady()
      ensures flow.Proceed? ==> sum.seen.child.Some?
      ensures old(backend.Soon()).view.running ==> flow.Proceed? && Memory() == old(Memory())
      ensures old(backend.Soon()).view.running ==>
        world.script == Following(old(world.script)) && backend.Now() == old(backend.Soon()) && backend.control == old(backend.control)
    {
      Note(Iteration);
      var up := backend.Running();
      if up {
        return Proceed;
      }
      ghost var why;
      flow, why := EnsureChild();
    }

    /** The state is what the local side and then the probes call for. */
    predicate Examined(before: Runtime, control: Option<nat>, script: seq<Turn>, flow: Flow)
      reads this, backend
    {
      var v := LocalVerdict(script);
      if !v.ready then Memory() == Runtime(v.why, NotProbed, v.reason, before.failures)
      else Stores(before, ProbeFinding(control, ThreeOn(script), spec.expectedInstanceID), flow)
    }

    /** With the forward on: the local side once more, and then the probes. */
    method Examine() returns (flow: Flow)
      requires Steady() && Forwarding()
      modifies this, store, backend, world
      ensures MovesOn() && Intact() && (flow.Break? ==> world.cancelled) && !flow.Proceed?
      ensures if flow.Return? then !backend.running else Steady()
      ensures !world.cancelled ==> Examined(old(Memory()), old(backend.control), old(world.script), flow)
    {
      flow := LocalOrWait(true);
      if flow.Proceed? {
        flow := Probe();
      }
    }

    /** One round of the loop. */
    method Iterate() returns (flow: Flow)
      requires Steady()
      modifies this, store, backend, world
      ensures MovesOn() && Intact() && (flow.Break? ==> world.cancelled) && !flow.Proceed?
      ensures if flow.Return? then !backend.running else Steady()
      // With a child that stays up and forwarded, the state is what the local side and the probes call for.
      ensures Held(old(backend.Now()), old(world.script)) && !world.cancelled ==>
        Examined(old(Memory()), old(backend.control), Following(Following(old(world.script))), flow)
    {
      flow := BeginIteration();
      if !flow.Proceed? {
        return;
      }
      flow := EnsureForward();
      if !flow.Proceed? {
        return;
      }
      flow := Examine();
    }
  
    // ---------- a whole run ----------

    /** The record of this tunnel, or a first one; anything unreadable or foreign refuses the run. */
    method LoadOrInitialize() returns (rec: Option<Record>)
      requires Intact()
      modifies store, world
      ensures MovesOn() && Intact() && store.history == old(store.history)
      ensures !old(store.disk).Absent? ==> store.disk == old(store.disk)
      ensures rec.Some? ==> store.disk == Stored(rec.value) && Validate(rec.value) && rec.value.spec == spec
      ensures !old(store.disk).Absent? ==> (rec.Some? <==> store.Legible() && store.disk.record.spec == spec)
      ensures old(store.disk).Absent? && rec.Some? ==> rec.value == FirstRecord(spec)
    {
      var r := store.Load();
      if r.Loaded? {
        return if r.record.spec == spec then Some(r.record) else None;
      }
      if r.LoadError? {
        return None;
      }
      var t := world.Next();
      var first := FirstRecord(spec);
      assert store.history + [] == store.history;
      var ok := store.Save(first, t.ok, []);
      return if ok then Some(first) else None;
    }

    /** Take over what the record says; an open breaker refuses, a clean stop starts the count anew. */
    method Begin() returns (err: Option<RunError>)
      requires Intact() && !backend.running && lastKey == "" && healthySince == None && trace == []
      modifies this, store, world
      ensures MovesOn() && Intact()
      ensures err.None? ==> Steady() && Agrees()
      ensures old(Count(store.history)) >= threshold ==> err.Some? && store.disk == old(store.disk) && store.history == old(store.history)
      ensures old(store.Unreadable()) ==> err.Some? && store.disk == old(store.disk) && store.history == old(store.history)
      ensures err.None? ==> state.Starting? && retryFailures == failures
      ensures err == Some(CrashLoopOpen) ==> old(Count(store.history)) >= threshold
    {
      RecordingMeans(trace, sum, spec.expectedInstanceID, window, threshold);
      var rec := LoadOrInitialize();
      if rec.None? {
        return Some(RunFailed);
      }
      var open := TakeOver(rec.value.runtime);
      if open {
        return Some(CrashLoopOpen);
      }
      assert store.history + [] == store.history;
      var ok := Persist([]);
      return if ok then None else Some(RunFailed);
    }

    method TakeOver(rt: Runtime) returns (open: bool)
      requires Intact() && store.Legible() && store.disk.record.runtime == rt
      requires healthySince == None && trace == []
      modifies this`failures, this`retryFailures, this`remote, this`lastErr, this`state, this`trace, this`sum
      ensures Intact() && old(trace) <= trace
      ensures open <==> Count(store.history) >= threshold
      ensures retryFailures == failures && remote == rt.remote && lastErr == rt.lastError
      ensures !open ==> failures == Count(store.history) && state.Starting?
      ensures !open ==> sum == Grown(old(sum), StoredState(Starting))
    {
      failures, retryFailures, remote, lastErr := rt.failures, rt.failures, rt.remote, rt.lastError;
      if rt.state.CrashLoop? {
        state := CrashLoop;
        Note(StoredState(CrashLoop));
        return true;
      }
      if rt.state.Stopped? {
        failures, retryFailures := 0, 0;
      }
      state := Starting;
      Note(StoredState(Starting));
      return false;
    }

    /** The context ended: stop the child and save a clean stop. */
    method Shutdown() returns (ok: bool)
      requires Steady()
      modifies this, store, backend, world
      ensures MovesOn() && Intact() && !backend.running && state.Stopped?
      ensures ok ==> Agrees() && Count(store.history) == 0
    {
      backend.Stop();
      state := Stopped;
      Note(StoredState(Stopped));
      CountPushed(store.history, CleanStop);
      ok := Persist([CleanStop]);
    }

    /** Run until the context ends or something refuses to go on. */
    method Run() returns (err: Option<RunError>)
      requires Intact() && !backend.running && lastKey == "" && healthySince == None && trace == []
      modifies this, store, backend, world
      // The guarantees of the trace, the store and the backend hold on every return path.
      ensures Intact() && !backend.running
      // With an open breaker, or a record that cannot be read, no child is started and the file stays.
      ensures old(Count(store.history)) >= threshold || old(store.Unreadable()) ==>
        err.Some? && store.disk == old(store.disk) && store.history == old(store.history) && backend.spawned == old(backend.spawned)
      // A clean stop, which makes good for all failures, takes the end of the context.
      ensures err.None? ==> Agrees() && state.Stopped? && Count(store.history) == 0 && world.cancelled
    {
      err := Begin();
      if err.Some? {
        return;
      }
      err := Loop();
    }

    method Loop() returns (err: Option<RunError>)
      requires Steady()
      modifies this, store, backend, world
      ensures MovesOn() && Intact() && !backend.running
      ensures err.None? ==> Agrees() && state.Stopped? && Count(store.history) == 0 && world.cancelled
    {
      var t := world.Next();
      while !world.cancelled
        invariant MovesOn() && Steady()
        decreases |world.script|, !world.cancelled
      {
        var flow := Iterate();
        if flow.Return? {
          return Some(flow.err);
        }
        if flow.Break? {
          break;
        }
        t := world.Next();
      }
      var ok := Shutdown();
      return if ok then None else Some(RunFailed);
    }
  }

  /**
   Whether it is the field of a run or the record the run has saved that says Healthy: the run stored that
   state in an iteration that had seen all four checks pass.
   */
  lemma HealthyIsEarned(s: Supervisor)
    requires s.Intact()
    requires (s.sum.state.Some? && s.state.Healthy?) || (s.lastKey != "" && s.store.disk.record.runtime.state.Healthy?)
    ensures exists i :: NotedAt(s.trace, i, Healthy) && Proven(s.trace[..i], s.spec.expectedInstanceID)
  {
    RecordingMeans(s.trace, s.sum, s.spec.expectedInstanceID, s.window, s.threshold);
    StateIsNoted(s.trace);
    var i :| NotedAt(s.trace, i, Healthy);
    HealthyIsProven(s.trace, i, s.spec.expectedInstanceID, s.window, s.threshold);
  }

  /** The children of a run are the ones its backend has started, each once and in the order of their numbers. */
  lemma StartsAreTheBackends(s: Supervisor)
    requires s.Intact()
    ensures var started := Started(s.trace);
      && s.backend.spawned == s.born + |started|
      && (started != [] ==> started[|started| - 1] == s.backend.spawned - 1)
      && forall i, j :: 0 <= i < j < |started| ==> started[i] < started[j]
  {
    RecordingMeans(s.trace, s.sum, s.spec.expectedInstanceID, s.window, s.threshold);
    StartsGrow(s.trace, s.spec.expectedInstanceID, s.window, s.threshold);
  }

  // ---------- many runs on one store ----------

  // `Damaged` leaves a file that cannot be read as a record, or one that is not valid.
  datatype Operation = RunOnce(script: seq<Turn>) | ResetStore(io: bool) | Damaged(file: Option<Record>)

  /** What one run did: its trace, its starts, and whether it found and left the breaker open or could read nothing. */
  datatype Report = Report(trace: seq<Note>, wasOpen: bool, isOpen: bool, unreadable: bool, starts: nat)

  ghost predicate Reported(r: Report, expected: string, window: int, threshold: int) {
    && Sound(r.trace, expected, window, threshold) && Summed(r.trace).spawns == r.starts
    && (r.wasOpen || r.unreadable ==> r.starts == 0)
    && (r.wasOpen ==> r.isOpen)
  }

  /** From after operation `i` up to operation `j` nobody resets. */
  ghost predicate NoReset(operations: seq<Operation>, i: int, j: int) {
    0 <= i < j < |operations| && forall k :: i < k <= j ==> !operations[k].ResetStore?
  }

  ghost predicate OpenAfter(reports: seq<Option<Report>>, i: int) {
    0 <= i < |reports| && reports[i].Some? && reports[i].value.isOpen
  }

  /** A run that left the breaker open, or the spoiling of the file. */
  ghost predicate Blocks(operations: seq<Operation>, reports: seq<Option<Report>>, i: int) {
    OpenAfter(reports, i) || (0 <= i < |operations| && operations[i].Damaged?)
  }

  /**
   Whatever sequence of runs, resets and accidents befalls a store, every run keeps the guarantees; and
   once a run has left the breaker open, or the file was spoilt, no later one starts a child until a reset.
   */
  method Operate(spec: Spec, gate: int, window: int, threshold: int, operations: seq<Operation>)
    returns (store: Store, ghost reports: seq<Option<Report>>)
    requires threshold > 0
    ensures store.Counts(threshold) && |reports| == |operations|
    ensures forall i :: 0 <= i < |reports| ==>
      (reports[i].Some? <==> operations[i].RunOnce?)
      && (reports[i].Some? ==> Reported(reports[i].value, spec.expectedInstanceID, window, threshold))
    ensures forall i, j :: Blocks(operations, reports, i) && NoReset(operations, i, j) && reports[j].Some? ==> reports[j].value.starts == 0
  {
    store := new Store();
    reports := [];
    var n := 0;
    while n < |operations|
      invariant 0 <= n <= |operations| && |reports| == n && fresh(store) && store.Counts(threshold)
      invariant forall i :: 0 <= i < n ==>
        (reports[i].Some? <==> operations[i].RunOnce?)
        && (reports[i].Some? ==> Reported(reports[i].value, spec.expectedInstanceID, window, threshold))
      invariant forall i :: i < n && Blocks(operations, reports, i) && (i == n - 1 || NoReset(operations, i, n - 1)) ==>
        Count(store.history) >= threshold || store.Unreadable()
      invariant forall i, j :: Blocks(operations, reports, i) && NoReset(operations, i, j) && j < n && reports[j].Some? ==>
        reports[j].value.starts == 0
    {
      ghost var before := reports;
      match operations[n] {
        case ResetStore(io) =>
          var _ := store.Reset(spec, io, threshold);
          reports := reports + [None];
        case Damaged(file) =>
          store.Damage(file);
          reports := reports + [None];
        case RunOnce(script) =>
          ghost var report := OneRun(store, spec, gate, window, threshold, script);
          reports := reports + [Some(report)];
      }
      forall i | Blocks(operations, reports, i) && NoReset(operations, i, n)
        ensures Blocks(operations, before, i) && (i == n - 1 || NoReset(operations, i, n - 1))
      {
      }
      assert forall i :: Blocks(operations, reports, i) && i < n ==> Blocks(operations, before, i);
      n := n + 1;
    }
  }

  /** A new process: a new backend and a new supervisor on the same store. */
  method OneRun(store: Store, spec: Spec, gate: int, window: int, threshold: int, script: seq<Turn>)
    returns (ghost report: Report)
    requires store.Counts(threshold)
    modifies store
    ensures store.Counts(threshold) && Reported(report, spec.expectedInstanceID, window, threshold)
    ensures report.wasOpen <==> old(Count(store.history)) >= threshold
    ensures report.isOpen <==> Count(store.history) >= threshold
    ensures report.unreadable <==> old(store.Unreadable())
    ensures report.wasOpen || report.unreadable ==> store.disk == old(store.disk) && store.history == old(store.history)
  {
    var world := new World(script);
    var backend := new Backend(world);
    var supervisor := new Supervisor(spec, store, backend, gate, window, threshold);
    ghost var open, unreadable := Count(store.history) >= threshold, store.Unreadable();
    var _ := supervisor.Run();
    RecordingMeans(supervisor.trace, supervisor.sum, spec.expectedInstanceID, window, threshold);
    report := Report(supervisor.trace, open, Count(store.history) >= threshold, unreadable, backend.spawned);
  }
}
