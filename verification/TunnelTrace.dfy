/**
 What a supervisor run records as it goes: what it saw, what it started, what it stored. The
 guarantees over whole runs are statements about this trace.
 */
module TunnelTrace {
  import opened Wrappers
  import opened TunnelStore

  datatype Note =
    | Iteration                                  // the loop starts over
    | LocalMatched                               // the local daemon answered with the expected instance
    | ForwardHeld(child: nat)                    // the forward of this child was on
    | RemoteAnswered                             // the remote probe was OK
    | IdentityAnswered(instanceID: string)       // the identity probe was OK and named this instance
    | Launched(saved: nat)                       // Backend.Start is called with this many saved early failures
    | ChildStarted(child: nat)                        // and it started this child
    | StoredState(state: State)                  // the state became this
    | Observed(now: int)                         // a healthy observation
    | RetryCleared(since: int, now: int)         // the retry counter was cleared

  /** What the current loop iteration has seen, and the child started last. */
  datatype Evidence = Evidence(local: bool, forward: Option<nat>, remote: bool, identity: Option<string>, child: Option<nat>)

  /** What matters of a trace for the notes to come. */
  datatype Summary = Summary(
    seen: Evidence,
    healthySince: Option<int>,  // since when healthy observations have gone on without another state in between
    state: Option<State>,       // the state stored last
    spawns: nat,
    tripped: bool,               // the breaker opened
    last: Option<Note>)

  const NOTHING := Evidence(false, None, false, None, None)

  ghost function Noting(e: Evidence, n: Note): Evidence {
    match n
    case Iteration => NOTHING.(child := e.child)
    case LocalMatched => e.(local := true)
    case ForwardHeld(c) => e.(forward := Some(c))
    case RemoteAnswered => e.(remote := true)
    case IdentityAnswered(id) => e.(identity := Some(id))
    case ChildStarted(c) => e.(child := Some(c))
    case _ => e
  }

  ghost function Since(h: Option<int>, n: Note): Option<int> {
    match n
    case Observed(now) => if h.Some? then h else Some(now)
    case StoredState(s) => if s.Healthy? then h else None
    case _ => h
  }

  ghost function Grown(s: Summary, n: Note): Summary {
    Summary(Noting(s.seen, n), Since(s.healthySince, n), if n.StoredState? then Some(n.state) else s.state,
            if n.ChildStarted? then s.spawns + 1 else s.spawns, s.tripped || n == StoredState(CrashLoop), Some(n))
  }

  ghost function Summed(trace: seq<Note>): Summary {
    if trace == [] then Summary(NOTHING, None, None, 0, false, None)
    else Grown(Summed(trace[..|trace| - 1]), trace[|trace| - 1])
  }

  ghost function Seen(trace: seq<Note>): Evidence {
    Summed(trace).seen
  }

  /** All four checks passed, the forward being that of the child started last. */
  ghost predicate Full(e: Evidence, expected: string) {
    e.child.Some? && e == Evidence(true, e.child, true, Some(expected), e.child)
  }

  /** The guarantees, as a condition on each new note. */
  ghost predicate Allowed(s: Summary, n: Note, expected: string, window: int, threshold: int) {
    match n
    case StoredState(st) => st.Healthy? ==> Full(s.seen, expected)
    case Observed(_) => Full(s.seen, expected)
    case RetryCleared(since, now) => s.last == Some(Observed(now)) && s.healthySince == Some(since) && now - since >= window
    case ForwardHeld(c) => s.seen.child == Some(c)
    case Launched(saved) => saved < threshold && !s.tripped
    case ChildStarted(c) => s.last.Some? && s.last.value.Launched? && (s.seen.child.Some? ==> s.seen.child.value < c)
    case _ => true
  }

  ghost predicate AllowedAt(trace: seq<Note>, i: int, expected: string, window: int, threshold: int) {
    0 <= i < |trace| && Allowed(Summed(trace[..i]), trace[i], expected, window, threshold)
  }

  ghost predicate Sound(trace: seq<Note>, expected: string, window: int, threshold: int) {
    forall i {:trigger AllowedAt(trace, i, expected, window, threshold)} :: 0 <= i < |trace| ==>
      AllowedAt(trace, i, expected, window, threshold)
  }

  ghost predicate NotedAt(trace: seq<Note>, k: int, s: State) {
    0 <= k < |trace| && trace[k] == StoredState(s)
  }

  /** The run had this state at some time. */
  ghost predicate Noted(trace: seq<Note>, s: State) {
    exists k {:trigger NotedAt(trace, k, s)} :: NotedAt(trace, k, s)
  }

  ghost predicate SumIs(x: Summary, trace: seq<Note>) {
    x == Summed(trace)
  }

  /** The trace is sound and sums up to `s`; stated so that only the lemmas here look inside. */
  ghost predicate Recording(trace: seq<Note>, s: Summary, expected: string, window: int, threshold: int) {
    Sound(trace, expected, window, threshold) && forall x {:trigger SumIs(x, trace)} :: SumIs(x, trace) ==> x == s
  }

  lemma RecordingMeans(trace: seq<Note>, s: Summary, expected: string, window: int, threshold: int)
    requires Recording(trace, s, expected, window, threshold)
    ensures Sound(trace, expected, window, threshold) && s == Summed(trace)
  {
    assert SumIs(Summed(trace), trace);
  }

  lemma RecordsNothing(expected: string, window: int, threshold: int)
    ensures Recording([], Summary(NOTHING, None, None, 0, false, None), expected, window, threshold)
  {
  }

  lemma Recorded(trace: seq<Note>, s: Summary, n: Note, expected: string, window: int, threshold: int)
    requires Recording(trace, s, expected, window, threshold) && Allowed(s, n, expected, window, threshold)
    ensures Recording(trace + [n], Grown(s, n), expected, window, threshold)
  {
    RecordingMeans(trace, s, expected, window, threshold);
    assert (trace + [n])[..|trace|] == trace;
    forall i | 0 <= i < |trace + [n]| ensures AllowedAt(trace + [n], i, expected, window, threshold) {
      if i < |trace| {
        assert AllowedAt(trace, i, expected, window, threshold);
        assert (trace + [n])[..i] == trace[..i];
      }
    }
  }

  lemma NotedGrows(trace: seq<Note>, n: Note, s: State)
    requires Noted(trace, s) || n == StoredState(s)
    ensures Noted(trace + [n], s)
  {
    if Noted(trace, s) {
      var k :| NotedAt(trace, k, s);
      assert NotedAt(trace + [n], k, s);
    } else {
      assert NotedAt(trace + [n], |trace|, s);
    }
  }

  lemma {:induction false} StateIsNoted(trace: seq<Note>)
    ensures Summed(trace).state.Some? ==> Noted(trace, Summed(trace).state.value)
  {
    if trace != [] {
      var init, n := trace[..|trace| - 1], trace[|trace| - 1];
      StateIsNoted(init);
      assert init + [n] == trace;
      if Summed(trace).state.Some? {
        NotedGrows(init, n, Summed(trace).state.value);
      }
    }
  }

  // ---------- what the conditions mean ----------

  /** Position `k` belongs to the loop iteration that is going on at the end of `trace`. */
  ghost predicate ThisIteration(trace: seq<Note>, k: int) {
    0 <= k < |trace| && forall j {:trigger trace[j]} :: k <= j < |trace| ==> !trace[j].Iteration?
  }

  /** Position `k` starts a child, and no later one starts another. */
  ghost predicate LatestChild(trace: seq<Note>, k: int, child: nat) {
    0 <= k < |trace| && trace[k] == ChildStarted(child) && forall j {:trigger trace[j]} :: k < j < |trace| ==> !trace[j].ChildStarted?
  }

  lemma {:induction false} SeenMeans(trace: seq<Note>)
    ensures Seen(trace).local ==> exists k :: ThisIteration(trace, k) && trace[k] == LocalMatched
    ensures Seen(trace).forward.Some? ==>
      exists k :: ThisIteration(trace, k) && trace[k] == ForwardHeld(Seen(trace).forward.value)
    ensures Seen(trace).remote ==> exists k :: ThisIteration(trace, k) && trace[k] == RemoteAnswered
    ensures Seen(trace).identity.Some? ==>
      exists k :: ThisIteration(trace, k) && trace[k] == IdentityAnswered(Seen(trace).identity.value)
  {
    if trace != [] && !trace[|trace| - 1].Iteration? {
      var init := trace[..|trace| - 1];
      SeenMeans(init);
      forall k | ThisIteration(init, k) ensures ThisIteration(trace, k) && trace[k] == init[k] {
      }
      assert ThisIteration(trace, |init|);
    }
  }

  lemma {:induction false} ChildMeans(trace: seq<Note>)
    ensures Seen(trace).child.Some? ==> exists k :: LatestChild(trace, k, Seen(trace).child.value)
  {
    if trace != [] {
      var init, n := trace[..|trace| - 1], trace[|trace| - 1];
      ChildMeans(init);
      if n.ChildStarted? {
        assert LatestChild(trace, |init|, n.child);
      } else if Seen(trace).child.Some? {
        var k :| LatestChild(init, k, Seen(init).child.value);
        assert LatestChild(trace, k, Seen(trace).child.value);
      }
    }
  }

  /** This iteration saw the local side match, the forward of the latest child on, the remote probe OK and the instance named. */
  ghost predicate Proven(trace: seq<Note>, expected: string) {
    && (exists k :: ThisIteration(trace, k) && trace[k] == LocalMatched)
    && (exists k, s :: ThisIteration(trace, k) && trace[k].ForwardHeld? && LatestChild(trace, s, trace[k].child))
    && (exists k :: ThisIteration(trace, k) && trace[k] == RemoteAnswered)
    && (exists k :: ThisIteration(trace, k) && trace[k] == IdentityAnswered(expected))
  }

  lemma FullIsProven(trace: seq<Note>, expected: string)
    requires Full(Seen(trace), expected)
    ensures Proven(trace, expected)
  {
    SeenMeans(trace);
    ChildMeans(trace);
    var s :| LatestChild(trace, s, Seen(trace).child.value);
    var k :| ThisIteration(trace, k) && trace[k] == ForwardHeld(Seen(trace).forward.value);
    assert LatestChild(trace, s, trace[k].child);
  }

  /** Whenever the supervisor stores Healthy or observes it, the same iteration saw all four checks pass. */
  lemma HealthyIsProven(trace: seq<Note>, i: nat, expected: string, window: int, threshold: int)
    requires Sound(trace, expected, window, threshold) && i < |trace|
    requires trace[i] == StoredState(Healthy) || trace[i].Observed?
    ensures Proven(trace[..i], expected)
  {
    assert AllowedAt(trace, i, expected, window, threshold);
    FullIsProven(trace[..i], expected);
  }

  /** From the observation at `k` on, no state but Healthy was stored. */
  ghost predicate HealthyFrom(trace: seq<Note>, k: int, since: int) {
    0 <= k < |trace| && trace[k] == Observed(since)
    && forall j {:trigger trace[j]} :: k < j < |trace| ==> !(trace[j].StoredState? && !trace[j].state.Healthy?)
  }

  lemma {:induction false} HealthySinceMeans(trace: seq<Note>)
    ensures Summed(trace).healthySince.Some? ==> exists k :: HealthyFrom(trace, k, Summed(trace).healthySince.value)
  {
    if trace != [] {
      var init := trace[..|trace| - 1];
      HealthySinceMeans(init);
      if Summed(trace).healthySince.Some? {
        if Summed(init).healthySince.Some? {
          var k :| HealthyFrom(init, k, Summed(init).healthySince.value);
          assert HealthyFrom(trace, k, Summed(trace).healthySince.value);
        } else {
          assert HealthyFrom(trace, |init|, Summed(trace).healthySince.value);
        }
      }
    }
  }

  /**
   The retry counter is cleared only at a healthy observation that is a stable window later than another,
   both with all four checks passed, and with no other state between them.
   */
  lemma ClearedAfterStableWindow(trace: seq<Note>, i: nat, expected: string, window: int, threshold: int)
    requires Sound(trace, expected, window, threshold) && i < |trace| && trace[i].RetryCleared?
    ensures i > 0 && trace[i - 1] == Observed(trace[i].now) && Proven(trace[..i - 1], expected)
    ensures trace[i].now - trace[i].since >= window
    ensures exists k :: HealthyFrom(trace[..i], k, trace[i].since) && Proven(trace[..k], expected)
  {
    assert AllowedAt(trace, i, expected, window, threshold);
    var before := trace[..i];
    HealthySinceMeans(before);
    assert before != [] && Summed(before).last == Some(before[|before| - 1]);
    HealthyIsProven(trace, i - 1, expected, window, threshold);
    var k :| HealthyFrom(before, k, trace[i].since);
    HealthyIsProven(trace, k, expected, window, threshold);
  }

  lemma {:induction false} TrippedMeans(trace: seq<Note>, i: nat)
    requires i < |trace| && trace[i] == StoredState(CrashLoop)
    ensures Summed(trace).tripped
  {
    if i < |trace| - 1 {
      TrippedMeans(trace[..|trace| - 1], i);
    }
  }

  /** Every start is a call made with fewer saved failures than the threshold, and no call follows the opening of the breaker. */
  lemma NoStartOnceOpen(trace: seq<Note>, i: nat, expected: string, window: int, threshold: int)
    requires Sound(trace, expected, window, threshold) && i < |trace| && trace[i].ChildStarted?
    ensures i > 0 && trace[i - 1].Launched? && trace[i - 1].saved < threshold
    ensures forall j :: 0 <= j < i ==> trace[j] != StoredState(CrashLoop)
  {
    assert AllowedAt(trace, i, expected, window, threshold);
    assert Summed(trace[..i]).last == Some(trace[i - 1]);
    assert AllowedAt(trace, i - 1, expected, window, threshold);
    forall j | 0 <= j < i ensures trace[j] != StoredState(CrashLoop) {
      if trace[j] == StoredState(CrashLoop) && j < i - 1 {
        TrippedMeans(trace[..i - 1], j);
      }
    }
  }

  /** The children started in a trace. */
  ghost function Started(trace: seq<Note>): seq<nat> {
    if trace == [] then []
    else Started(trace[..|trace| - 1]) + if trace[|trace| - 1].ChildStarted? then [trace[|trace| - 1].child] else []
  }

  /** A sound trace starts every child once, in growing order, and counts them. */
  lemma {:induction false} StartsGrow(trace: seq<Note>, expected: string, window: int, threshold: int)
    requires Sound(trace, expected, window, threshold)
    ensures var started := Started(trace);
      && |started| == Summed(trace).spawns
      && (Seen(trace).child == if started == [] then None else Some(started[|started| - 1]))
      && forall i, j :: 0 <= i < j < |started| ==> started[i] < started[j]
  {
    if trace != [] {
      var init := trace[..|trace| - 1];
      forall i | 0 <= i < |init| ensures AllowedAt(init, i, expected, window, threshold) {
        assert AllowedAt(trace, i, expected, window, threshold) && init[..i] == trace[..i];
      }
      StartsGrow(init, expected, window, threshold);
      assert AllowedAt(trace, |init|, expected, window, threshold);
    }
  }
}
