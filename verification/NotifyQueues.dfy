/**
 The two bounded queues between the senders of notifications and the one loop that delivers them. A
 critical envelope waits for room up to a timeout; any other one is dropped when its queue is full. The
 loop prefers critical envelopes, but between finding none and waiting for either it can be overtaken.
 */
module NotifyQueues {
  import opened Wrappers

  datatype Envelope = Envelope(id: nat, critical: bool)

  datatype Event = Suppressed(env: Envelope) | Dropped(env: Envelope) | Entered(env: Envelope) | Took(env: Envelope)

  const CRITICAL_CAP: nat := 4
  const NOTIFY_CAP: nat := 8

  // ---------- what a log says ----------

  function EnteredOf(log: seq<Event>, critical: bool): seq<Envelope> {
    if log == [] then []
    else
      var last := log[|log| - 1];
      EnteredOf(log[..|log| - 1], critical) + if last.Entered? && last.env.critical == critical then [last.env] else []
  }

  function TookOf(log: seq<Event>, critical: bool): seq<Envelope> {
    if log == [] then []
    else
      var last := log[|log| - 1];
      TookOf(log[..|log| - 1], critical) + if last.Took? && last.env.critical == critical then [last.env] else []
  }

  /** What was taken from either queue, in the order it is delivered. */
  function Deliveries(log: seq<Event>): seq<Envelope> {
    if log == [] then []
    else
      var last := log[|log| - 1];
      Deliveries(log[..|log| - 1]) + if last.Took? then [last.env] else []
  }

  /** Envelopes that came to nothing, suppressed or dropped. */
  function LostOf(log: seq<Event>): seq<Envelope> {
    if log == [] then []
    else
      var last := log[|log| - 1];
      LostOf(log[..|log| - 1]) + if last.Suppressed? || last.Dropped? then [last.env] else []
  }

  /** How many critical envelopes are queued. */
  function Level(log: seq<Event>): int {
    |EnteredOf(log, true)| - |TookOf(log, true)|
  }

  /** How many other envelopes were taken since critical ones have been queued without a break. */
  function Over(log: seq<Event>): nat {
    if log == [] then 0
    else
      var init, last := log[..|log| - 1], log[|log| - 1];
      if !last.Took? then Over(init)
      else if last.env.critical then (if Level(init) <= 1 then 0 else Over(init))
      else if Level(init) > 0 then Over(init) + 1
      else 0
  }

  /** At this point of the log each queue was taken from in the order it was entered. */
  ghost predicate InOrder(log: seq<Event>) {
    TookOf(log, true) <= EnteredOf(log, true) && TookOf(log, false) <= EnteredOf(log, false)
  }

  ghost predicate GoodAt(log: seq<Event>, n: nat)
    requires n <= |log|
  {
    InOrder(log[..n]) && Over(log[..n]) <= 1
  }

  ghost predicate Good(log: seq<Event>) {
    forall n {:trigger GoodAt(log, n)} :: 0 <= n <= |log| ==> GoodAt(log, n)
  }

  lemma Snoc(log: seq<Event>, e: Event)
    ensures (log + [e])[..|log|] == log
  {
  }

  lemma GoodGrows(log: seq<Event>, e: Event)
    requires Good(log) && InOrder(log + [e]) && Over(log + [e]) <= 1
    ensures Good(log + [e])
  {
    var grown := log + [e];
    forall n | 0 <= n <= |grown| ensures GoodAt(grown, n) {
      if n <= |log| {
        assert GoodAt(log, n);
        assert grown[..n] == log[..n];
      } else {
        assert grown[..n] == grown;
      }
    }
  }

  /** What one more event adds to each account. */
  lemma Accounts(log: seq<Event>, e: Event, critical: bool)
    ensures EnteredOf(log + [e], critical) == EnteredOf(log, critical) + if e.Entered? && e.env.critical == critical then [e.env] else []
    ensures TookOf(log + [e], critical) == TookOf(log, critical) + if e.Took? && e.env.critical == critical then [e.env] else []
    ensures LostOf(log + [e]) == LostOf(log) + if e.Suppressed? || e.Dropped? then [e.env] else []
    ensures Deliveries(log + [e]) == Deliveries(log) + if e.Took? then [e.env] else []
  {
    Snoc(log, e);
  }

  lemma OverGrows(log: seq<Event>, e: Event)
    ensures Over(log + [e]) ==
      if !e.Took? then Over(log)
      else if e.env.critical then (if Level(log) <= 1 then 0 else Over(log))
      else if Level(log) > 0 then Over(log) + 1
      else 0
  {
    Snoc(log, e);
  }

  // ---------- the priority of critical envelopes ----------

  lemma NextInOrder(took: seq<Envelope>, next: Envelope, entered: seq<Envelope>)
    requires took + [next] <= entered
    ensures entered[|took|] == next
  {
    assert (took + [next])[|took|] == next;
  }

  /** As long as the critical envelope entered at `i` is not taken, fewer are taken than had entered before it. */
  lemma {:induction false} NotYetTaken(log: seq<Event>, i: nat, n: nat)
    requires Good(log) && i < n <= |log| && log[i].Entered? && log[i].env.critical
    requires forall m :: i < m < n ==> log[m] != Took(log[i].env)
    ensures |TookOf(log[..n], true)| <= |EnteredOf(log[..i], true)| < |EnteredOf(log[..n], true)|
    ensures EnteredOf(log[..n], true)[|EnteredOf(log[..i], true)|] == log[i].env
    decreases n
  {
    var init, last := log[..n - 1], log[n - 1];
    assert log[..n] == init + [last];
    Accounts(init, last, true);
    if n == i + 1 {
      assert GoodAt(log, i);
    } else {
      NotYetTaken(log, i, n - 1);
      assert GoodAt(log, n);
      var took, entered := TookOf(log[..n], true), EnteredOf(log[..n], true);
      assert took <= entered && last != Took(log[i].env);
      if took == TookOf(init, true) + [last.env] {
        NextInOrder(TookOf(init, true), last.env, entered);
      }
    }
  }

  /** While it is queued nothing resets the count of the others taken. */
  lemma {:induction false} CountStands(log: seq<Event>, i: nat, m: nat, n: nat)
    requires Good(log) && i < m <= n <= |log| && log[i].Entered? && log[i].env.critical
    requires forall x :: i < x < n ==> log[x] != Took(log[i].env)
    ensures Over(log[..m]) <= Over(log[..n])
    decreases n
  {
    if m < n {
      CountStands(log, i, m, n - 1);
      NotYetTaken(log, i, n - 1);
      NotYetTaken(log, i, n);
      var init, last := log[..n - 1], log[n - 1];
      assert log[..n] == init + [last];
      OverGrows(init, last);
      Accounts(init, last, true);
    }
  }

  /** From the time a critical envelope is queued until it is taken itself, at most one other is taken. */
  lemma AtMostOneOvertakes(log: seq<Event>, i: nat, j: nat, k: nat)
    requires Good(log) && i < j < k < |log| && log[i].Entered? && log[i].env.critical
    requires log[j].Took? && !log[j].env.critical && log[k].Took? && !log[k].env.critical
    ensures exists m :: i < m < k && log[m] == Took(log[i].env)
  {
    assert GoodAt(log, k + 1);
    if forall m :: i < m < k ==> log[m] != Took(log[i].env) {
      NotYetTaken(log, i, j);
      NotYetTaken(log, i, k);
      assert log[..j + 1] == log[..j] + [log[j]];
      assert log[..k + 1] == log[..k] + [log[k]];
      OverGrows(log[..j], log[j]);
      OverGrows(log[..k], log[k]);
      CountStands(log, i, j + 1, k);
    }
  }

  // ---------- the queues ----------

  /** The log accounts for a queue: what entered it was taken, in order, or is still there. */
  ghost predicate Accounted(log: seq<Event>, ch: seq<Envelope>, critical: bool) {
    EnteredOf(log, critical) == TookOf(log, critical) + ch && forall e :: e in ch ==> e.critical == critical
  }

  ghost predicate ConservedAt(arrived: seq<Envelope>, log: seq<Event>, waiting: seq<Envelope>, critical: seq<Envelope>,
                              other: seq<Envelope>, e: Envelope)
  {
    multiset(arrived)[e] == multiset(LostOf(log))[e] + multiset(waiting)[e] + multiset(critical)[e] + multiset(other)[e]
                            + multiset(TookOf(log, true))[e] + multiset(TookOf(log, false))[e]
  }

  /** Every envelope that arrived is exactly one of lost, waiting, queued and taken. */
  ghost predicate Conserved(arrived: seq<Envelope>, log: seq<Event>, waiting: seq<Envelope>, critical: seq<Envelope>, other: seq<Envelope>) {
    forall e {:trigger ConservedAt(arrived, log, waiting, critical, other, e)} ::
      ConservedAt(arrived, log, waiting, critical, other, e)
  }

  ghost predicate Sound(log: seq<Event>, criticalCh: seq<Envelope>, notifyCh: seq<Envelope>, committed: bool) {
    && Good(log) && Accounted(log, criticalCh, true) && Accounted(log, notifyCh, false)
    && (committed || criticalCh == [] ==> Over(log) == 0)
  }

  lemma EntersAccounted(log: seq<Event>, ch: seq<Envelope>, critical: bool, env: Envelope)
    requires Accounted(log, ch, critical)
    ensures Accounted(log + [Entered(env)], if env.critical == critical then ch + [env] else ch, critical)
  {
    Accounts(log, Entered(env), critical);
  }

  lemma EntersSound(log: seq<Event>, criticalCh: seq<Envelope>, notifyCh: seq<Envelope>, committed: bool, env: Envelope)
    requires Sound(log, criticalCh, notifyCh, committed)
    ensures Sound(log + [Entered(env)], if env.critical then criticalCh + [env] else criticalCh,
                  if env.critical then notifyCh else notifyCh + [env], committed)
  {
    EntersAccounted(log, criticalCh, true, env);
    EntersAccounted(log, notifyCh, false, env);
    OverGrows(log, Entered(env));
    assert GoodAt(log, |log|) && log[..|log|] == log;
    GoodGrows(log, Entered(env));
  }

  lemma LosesSound(log: seq<Event>, criticalCh: seq<Envelope>, notifyCh: seq<Envelope>, committed: bool, e: Event)
    requires Sound(log, criticalCh, notifyCh, committed) && (e.Suppressed? || e.Dropped?)
    ensures Sound(log + [e], criticalCh, notifyCh, committed)
  {
    Accounts(log, e, true);
    Accounts(log, e, false);
    OverGrows(log, e);
    assert GoodAt(log, |log|) && log[..|log|] == log;
    GoodGrows(log, e);
  }

  lemma TakesCriticalSound(log: seq<Event>, criticalCh: seq<Envelope>, notifyCh: seq<Envelope>, committed: bool)
    requires Sound(log, criticalCh, notifyCh, committed) && criticalCh != []
    ensures Sound(log + [Took(criticalCh[0])], criticalCh[1..], notifyCh, false)
  {
    var e := Took(criticalCh[0]);
    Accounts(log, e, true);
    Accounts(log, e, false);
    OverGrows(log, e);
    assert [criticalCh[0]] + criticalCh[1..] == criticalCh;
    assert GoodAt(log, |log|) && log[..|log|] == log;
    GoodGrows(log, e);
  }

  lemma TakesOtherSound(log: seq<Event>, criticalCh: seq<Envelope>, notifyCh: seq<Envelope>)
    requires Sound(log, criticalCh, notifyCh, true) && notifyCh != []
    ensures Sound(log + [Took(notifyCh[0])], criticalCh, notifyCh[1..], false)
  {
    var e := Took(notifyCh[0]);
    Accounts(log, e, true);
    Accounts(log, e, false);
    OverGrows(log, e);
    assert [notifyCh[0]] + notifyCh[1..] == notifyCh;
    assert GoodAt(log, |log|) && log[..|log|] == log;
    GoodGrows(log, e);
  }

  // ---------- conservation, step by step ----------

  type Envelopes = seq<Envelope>

  lemma LosesConserves(arrived: Envelopes, log: seq<Event>, w: Envelopes, c: Envelopes, o: Envelopes, e: Event)
    requires Conserved(arrived, log, w, c, o) && (e.Suppressed? || e.Dropped?)
    ensures Conserved(arrived + [e.env], log + [e], w, c, o)
  {
    Accounts(log, e, true);
    Accounts(log, e, false);
    forall x ensures ConservedAt(arrived + [e.env], log + [e], w, c, o, x) {
      assert ConservedAt(arrived, log, w, c, o, x);
    }
  }

  lemma WaitsConserves(arrived: Envelopes, log: seq<Event>, w: Envelopes, c: Envelopes, o: Envelopes, env: Envelope)
    requires Conserved(arrived, log, w, c, o)
    ensures Conserved(arrived + [env], log, w + [env], c, o)
  {
    forall x ensures ConservedAt(arrived + [env], log, w + [env], c, o, x) {
      assert ConservedAt(arrived, log, w, c, o, x);
    }
  }

  /** A sender waiting, if only for a moment, puts its envelope into the queue. */
  lemma EntersConserves(arrived: Envelopes, log: seq<Event>, w: Envelopes, w': Envelopes, c: Envelopes, o: Envelopes, env: Envelope)
    requires Conserved(arrived, log, w, c, o) && (w == w' + [env] || w == [env] + w')
    ensures Conserved(arrived, log + [Entered(env)], w', if env.critical then c + [env] else c, if env.critical then o else o + [env])
  {
    Accounts(log, Entered(env), true);
    Accounts(log, Entered(env), false);
    var c', o' := if env.critical then c + [env] else c, if env.critical then o else o + [env];
    forall x ensures ConservedAt(arrived, log + [Entered(env)], w', c', o', x) {
      assert ConservedAt(arrived, log, w, c, o, x);
    }
  }

  lemma ExpiresConserves(arrived: Envelopes, log: seq<Event>, pre: Envelopes, env: Envelope, post: Envelopes, c: Envelopes, o: Envelopes)
    requires Conserved(arrived, log, pre + [env] + post, c, o)
    ensures Conserved(arrived, log + [Dropped(env)], pre + post, c, o)
  {
    Accounts(log, Dropped(env), true);
    Accounts(log, Dropped(env), false);
    var w, w' := pre + [env] + post, pre + post;
    forall x ensures ConservedAt(arrived, log + [Dropped(env)], w', c, o, x) {
      assert ConservedAt(arrived, log, w, c, o, x);
    }
  }

  lemma TakesCriticalConserves(arrived: Envelopes, log: seq<Event>, w: Envelopes, c: Envelopes, o: Envelopes)
    requires Conserved(arrived, log, w, c, o) && c != [] && c[0].critical
    ensures Conserved(arrived, log + [Took(c[0])], w, c[1..], o)
  {
    Accounts(log, Took(c[0]), true);
    Accounts(log, Took(c[0]), false);
    assert c == [c[0]] + c[1..];
    forall x ensures ConservedAt(arrived, log + [Took(c[0])], w, c[1..], o, x) {
      assert ConservedAt(arrived, log, w, c, o, x);
    }
  }

  lemma TakesOtherConserves(arrived: Envelopes, log: seq<Event>, w: Envelopes, c: Envelopes, o: Envelopes)
    requires Conserved(arrived, log, w, c, o) && o != [] && !o[0].critical
    ensures Conserved(arrived, log + [Took(o[0])], w, c, o[1..])
  {
    Accounts(log, Took(o[0]), true);
    Accounts(log, Took(o[0]), false);
    assert o == [o[0]] + o[1..];
    forall x ensures ConservedAt(arrived, log + [Took(o[0])], w, c, o[1..], x) {
      assert ConservedAt(arrived, log, w, c, o, x);
    }
  }

  // ---------- the queues as values ----------

  datatype Move = Sends(env: Envelope, suppressed: bool) | Expires(i: nat)

  // `critical` is the choice of a select both of whose queues are ready.
  datatype Turn = Turn(meanwhile: seq<Move>, cancelled: bool, critical: bool)

  datatype Queues = Queues(critical: seq<Envelope>, other: seq<Envelope>, waiting: seq<Envelope>, committed: bool)

  datatype Selection = Selection(taken: Option<Envelope>, queues: Queues)

  datatype Outcome = Outcome(delivered: seq<Envelope>, queues: Queues)

  function Sent(q: Queues, env: Envelope): Queues {
    if env.critical then
      if |q.critical| < CRITICAL_CAP then q.(critical := q.critical + [env]) else q.(waiting := q.waiting + [env])
    else if |q.other| < NOTIFY_CAP then q.(other := q.other + [env])
    else q
  }

  function Moved(q: Queues, move: Move): Queues {
    match move
    case Sends(env, suppressed) => if suppressed then q else Sent(q, env)
    case Expires(i) => if i < |q.waiting| then q.(waiting := q.waiting[..i] + q.waiting[i + 1..]) else q
  }

  function AllMoved(q: Queues, moves: seq<Move>): Queues
    decreases |moves|
  {
    if moves == [] then q else AllMoved(Moved(q, moves[0]), moves[1..])
  }

  /** A receive gives the first waiting sender the room. */
  function Received(q: Queues): Queues
    requires q.critical != []
  {
    if q.waiting == [] then q.(critical := q.critical[1..], committed := false)
    else q.(critical := q.critical[1..] + [q.waiting[0]], waiting := q.waiting[1..], committed := false)
  }

  function OtherTaken(q: Queues): Queues
    requires q.other != []
  {
    q.(other := q.other[1..], committed := false)
  }

  /** One select: the outer one until it finds no critical envelope, then the inner one. */
  function Selected(q: Queues, critical: bool): Selection {
    if q.critical != [] && (!q.committed || critical || q.other == []) then Selection(Some(q.critical[0]), Received(q))
    else if !q.committed then Selection(None, q.(committed := true))
    else if q.other != [] then Selection(Some(q.other[0]), OtherTaken(q))
    else Selection(None, q)
  }

  function Listed(taken: Option<Envelope>): seq<Envelope> {
    if taken.Some? then [taken.value] else []
  }

  /** What the loop delivers, and the queues when it stops. */
  function Loop(q: Queues, turns: seq<Turn>): Outcome
    decreases |turns|
  {
    if turns == [] then Outcome([], q)
    else
      var q' := AllMoved(q, turns[0].meanwhile);
      if turns[0].cancelled then Outcome([], q')
      else
        var s := Selected(q', turns[0].critical);
        var rest := Loop(s.queues, turns[1..]);
        Outcome(Listed(s.taken) + rest.delivered, rest.queues)
  }

  // ---------- nobody starves ----------

  predicate Quiet(turns: seq<Turn>) {
    forall i :: 0 <= i < |turns| ==> turns[i].meanwhile == [] && !turns[i].cancelled
  }

  predicate Fits(q: Queues) {
    q.waiting != [] ==> |q.critical| == CRITICAL_CAP
  }

  /** Turns that suffice: one for a critical envelope, two for another. */
  function Needed(q: Queues): nat {
    |q.critical| + |q.waiting| + 2 * |q.other|
  }

  /** What there is to deliver, the critical first. */
  function Pending(q: Queues): seq<Envelope> {
    q.critical + q.waiting + q.other
  }

  ghost predicate Drained(r: Outcome, delivered: seq<Envelope>) {
    r.delivered == delivered && Pending(r.queues) == []
  }

  lemma ReceivedPending(q: Queues)
    requires q.critical != [] && Fits(q)
    ensures Pending(q) == [q.critical[0]] + Pending(Received(q))
    ensures Fits(Received(q)) && Needed(Received(q)) == Needed(q) - 1
  {
  }

  lemma LoopTurn(q: Queues, turns: seq<Turn>)
    requires turns != [] && Quiet(turns)
    ensures Quiet(turns[1..])
    ensures var s := Selected(q, turns[0].critical);
      var rest := Loop(s.queues, turns[1..]);
      Loop(q, turns) == Outcome(Listed(s.taken) + rest.delivered, rest.queues)
  {
  }

  lemma {:induction false} IdleLoop(q: Queues, turns: seq<Turn>)
    requires Quiet(turns) && Pending(q) == []
    ensures Drained(Loop(q, turns), [])
    decreases |turns|
  {
    if turns != [] {
      LoopTurn(q, turns);
      IdleLoop(q.(committed := true), turns[1..]);
    }
  }

  /** A loop that starts over delivers all critical envelopes, those of waiting senders too, before any other. */
  lemma {:induction false} StrictPriority(q: Queues, turns: seq<Turn>)
    requires Quiet(turns) && Fits(q) && |turns| >= Needed(q) && !q.committed
    ensures Drained(Loop(q, turns), Pending(q))
    decreases |turns|
  {
    if Pending(q) == [] {
      IdleLoop(q, turns);
    } else {
      LoopTurn(q, turns);
      if q.critical != [] {
        ReceivedPending(q);
        StrictPriority(Received(q), turns[1..]);
      } else {
        OtherTurn(q.(committed := true), turns[1..]);
      }
    }
  }

  /** With no critical envelope about, a loop that waits for either kind takes another. */
  lemma {:induction false} OtherTurn(q: Queues, turns: seq<Turn>)
    requires Quiet(turns) && q.critical == [] && q.waiting == [] && q.other != [] && |turns| >= Needed(q) - 1 && q.committed
    ensures Drained(Loop(q, turns), Pending(q))
    decreases |turns|
  {
    LoopTurn(q, turns);
    StrictPriority(OtherTaken(q), turns[1..]);
    assert Pending(q) == [q.other[0]] + Pending(OtherTaken(q));
  }

  lemma CriticalTurn(q: Queues, turns: seq<Turn>)
    requires Quiet(turns) && Fits(q) && |turns| >= Needed(q) && q.critical != [] && (turns[0].critical || q.other == [])
    ensures Drained(Loop(q, turns), Pending(q))
  {
    LoopTurn(q, turns);
    ReceivedPending(q);
    StrictPriority(Received(q), turns[1..]);
  }

  lemma OtherFirst(q: Queues, turns: seq<Turn>)
    requires Quiet(turns) && Fits(q) && |turns| >= Needed(q) && q.committed && q.other != [] && (q.critical == [] || !turns[0].critical)
    ensures Drained(Loop(q, turns), [q.other[0]] + Pending(OtherTaken(q)))
  {
    LoopTurn(q, turns);
    StrictPriority(OtherTaken(q), turns[1..]);
  }

  /** A loop that was waiting for either kind may take one other envelope first, and no more. */
  lemma Drains(q: Queues, turns: seq<Turn>)
    requires Quiet(turns) && Fits(q) && |turns| >= Needed(q)
    ensures Drained(Loop(q, turns), Pending(q))
      || (q.committed && q.other != [] && Drained(Loop(q, turns), [q.other[0]] + Pending(OtherTaken(q))))
  {
    if !q.committed {
      StrictPriority(q, turns);
    } else if Pending(q) == [] {
      IdleLoop(q, turns);
    } else if q.critical != [] && (turns[0].critical || q.other == []) {
      CriticalTurn(q, turns);
    } else {
      OtherFirst(q, turns);
    }
  }

  // ---------- the server ----------

  class Server {
    var criticalCh: seq<Envelope>
    var notifyCh: seq<Envelope>
    var waiting: seq<Envelope>  // critical senders, until there is room or their timer fires
    var committed: bool         // the loop has found no critical envelope and waits for either kind
    ghost var log: seq<Event>
    ghost var arrived: seq<Envelope>

    ghost predicate Valid()
      reads this
    {
      && |criticalCh| <= CRITICAL_CAP && |notifyCh| <= NOTIFY_CAP
      && Sound(log, criticalCh, notifyCh, committed)
      && (waiting != [] ==> |criticalCh| == CRITICAL_CAP) && (forall e :: e in waiting ==> e.critical)
      && Conserved(arrived, log, waiting, criticalCh, notifyCh)
    }

    constructor ()
      ensures Valid() && log == [] && arrived == []
    {
      criticalCh, notifyCh, waiting, committed, log, arrived := [], [], [], false, [], [];
      new;
      assert GoodAt([], 0);
      forall e ensures ConservedAt([], [], [], [], [], e) {
      }
    }

    function View(): Queues
      reads this
    {
      Queues(criticalCh, notifyCh, waiting, committed)
    }

    ghost method Lose(e: Event)
      requires Sound(log, criticalCh, notifyCh, committed) && (e.Suppressed? || e.Dropped?)
      modifies this`log
      ensures Sound(log, criticalCh, notifyCh, committed) && log == old(log) + [e]
    {
      LosesSound(log, criticalCh, notifyCh, committed, e);
      log := log + [e];
    }

    /** A channel send that has room. */
    method Enter(env: Envelope)
      requires Sound(log, criticalCh, notifyCh, committed)
      modifies this`criticalCh, this`notifyCh, this`log
      ensures Sound(log, criticalCh, notifyCh, committed) && log == old(log) + [Entered(env)]
      ensures criticalCh == if env.critical then old(criticalCh) + [env] else old(criticalCh)
      ensures notifyCh == if env.critical then old(notifyCh) else old(notifyCh) + [env]
    {
      EntersSound(log, criticalCh, notifyCh, committed, env);
      if env.critical {
        criticalCh := criticalCh + [env];
      } else {
        notifyCh := notifyCh + [env];
      }
      log := log + [Entered(env)];
    }

    /** Everything but that only so many fit and that senders wait only for a full queue. */
    ghost predicate Kept()
      reads this
    {
      && Sound(log, criticalCh, notifyCh, committed) && (forall e :: e in waiting ==> e.critical)
      && Conserved(arrived, log, waiting, criticalCh, notifyCh)
    }

    /** `suppressed` is the verdict of the deduper. */
    method EnqueueEnvelope(env: Envelope, suppressed: bool)
      requires Valid()
      modifies this
      ensures Valid() && arrived == old(arrived) + [env] && View() == Moved(old(View()), Sends(env, suppressed))
      ensures if suppressed then log == old(log) + [Suppressed(env)]
              else if env.critical then
                (if |old(criticalCh)| < 4 then log == old(log) + [Entered(env)]
                 else log == old(log))
              else log == old(log) + [if |old(notifyCh)| < 8 then Entered(env) else Dropped(env)]
    {
      if suppressed {
        LosesConserves(arrived, log, waiting, criticalCh, notifyCh, Suppressed(env));
        Lose(Suppressed(env));
      } else if env.critical && |criticalCh| == CRITICAL_CAP {
        WaitsConserves(arrived, log, waiting, criticalCh, notifyCh, env);
        waiting := waiting + [env];
      } else if env.critical || |notifyCh| < NOTIFY_CAP {
        WaitsConserves(arrived, log, waiting, criticalCh, notifyCh, env);
        EntersConserves(arrived + [env], log, waiting + [env], waiting, criticalCh, notifyCh, env);
        Enter(env);
      } else {
        LosesConserves(arrived, log, waiting, criticalCh, notifyCh, Dropped(env));
        Lose(Dropped(env));
      }
      arrived := arrived + [env];
    }

    /** The timer of a waiting sender fires. */
    method Expire(i: nat)
      requires Valid() && i < |waiting|
      modifies this`waiting, this`log
      ensures Valid() && log == old(log) + [Dropped(old(waiting)[i])]
      ensures waiting == old(waiting)[..i] + old(waiting)[i + 1..]
    {
      assert waiting == waiting[..i] + [waiting[i]] + waiting[i + 1..];
      ExpiresConserves(arrived, log, waiting[..i], waiting[i], waiting[i + 1..], criticalCh, notifyCh);
      Lose(Dropped(waiting[i]));
      waiting := waiting[..i] + waiting[i + 1..];
    }

    method Pop() returns (env: Envelope)
      requires Kept() && criticalCh != []
      modifies this`criticalCh, this`committed, this`log
      ensures Kept() && !committed && env == old(criticalCh)[0] && criticalCh == old(criticalCh)[1..]
      ensures log == old(log) + [Took(env)]
    {
      env := criticalCh[0];
      TakesCriticalSound(log, criticalCh, notifyCh, committed);
      TakesCriticalConserves(arrived, log, waiting, criticalCh, notifyCh);
      criticalCh, committed, log := criticalCh[1..], false, log + [Took(env)];
    }

    /** Takes the first critical envelope; the first sender waiting for room puts its own in. */
    method TakeCritical() returns (env: Envelope)
      requires Valid() && criticalCh != []
      modifies this`criticalCh, this`notifyCh, this`waiting, this`committed, this`log
      ensures Valid() && env == old(criticalCh)[0] && View() == Received(old(View()))
      ensures log == if old(waiting) == [] then old(log) + [Took(env)] else (old(log) + [Took(env)]) + [Entered(old(waiting)[0])]
    {
      env := Pop();
      if waiting != [] {
        LetIn();
      }
    }

    method LetIn()
      requires Kept() && waiting != [] && |notifyCh| <= NOTIFY_CAP && |criticalCh| < CRITICAL_CAP
      modifies this`criticalCh, this`notifyCh, this`waiting, this`log
      ensures Kept() && notifyCh == old(notifyCh) && criticalCh == old(criticalCh) + [old(waiting)[0]]
      ensures waiting == old(waiting)[1..] && log == old(log) + [Entered(old(waiting)[0])] && committed == old(committed)
    {
      var env := waiting[0];
      assert waiting == [env] + waiting[1..];
      EntersConserves(arrived, log, waiting, waiting[1..], criticalCh, notifyCh, env);
      Enter(env);
      waiting := waiting[1..];
    }

    method TakeOther() returns (env: Envelope)
      requires Valid() && committed && notifyCh != []
      modifies this`notifyCh, this`committed, this`log
      ensures Valid() && env == old(notifyCh)[0] && log == old(log) + [Took(env)]
      ensures View() == OtherTaken(old(View()))
    {
      env := notifyCh[0];
      TakesOtherSound(log, criticalCh, notifyCh);
      TakesOtherConserves(arrived, log, waiting, criticalCh, notifyCh);
      notifyCh, committed, log := notifyCh[1..], false, log + [Took(env)];
    }

    /** What senders and timers do meanwhile. */
    method Others(moves: seq<Move>)
      requires Valid()
      modifies this
      ensures Valid() && View() == AllMoved(old(View()), moves) && Deliveries(log) == Deliveries(old(log))
    {
      var i := 0;
      while i < |moves|
        invariant 0 <= i <= |moves| && Valid() && Deliveries(log) == Deliveries(old(log))
        invariant AllMoved(View(), moves[i..]) == AllMoved(old(View()), moves)
      {
        assert moves[i..][0] == moves[i] && moves[i..][1..] == moves[i + 1..];
        Move(moves[i]);
        i := i + 1;
      }
      assert moves[i..] == [];
    }

    method Move(move: Move)
      requires Valid()
      modifies this
      ensures Valid() && View() == Moved(old(View()), move) && Deliveries(log) == Deliveries(old(log))
    {
      if move.Sends? {
        EnqueueEnvelope(move.env, move.suppressed);
        Accounts(old(log), log[|log| - 1], true);
      } else if move.i < |waiting| {
        Accounts(log, Dropped(waiting[move.i]), true);
        Expire(move.i);
      }
    }

    method NextCritical() returns (env: Envelope)
      requires Valid() && criticalCh != []
      modifies this`criticalCh, this`notifyCh, this`waiting, this`committed, this`log
      ensures Valid() && Deliveries(log) == Deliveries(old(log)) + [env]
      ensures env == old(criticalCh)[0] && View() == Received(old(View()))
    {
      env := TakeCritical();
      Accounts(old(log), Took(env), true);
      if old(waiting) != [] {
        Accounts(old(log) + [Took(env)], Entered(old(waiting)[0]), true);
      }
    }

    /** The outer select, or the inner one once the outer one has found nothing. */
    method Select(critical: bool) returns (taken: Option<Envelope>)
      requires Valid()
      modifies this`criticalCh, this`notifyCh, this`waiting, this`committed, this`log
      ensures Valid() && Selection(taken, View()) == Selected(old(View()), critical)
      ensures Deliveries(log) == Deliveries(old(log)) + Listed(taken)
    {
      taken := None;
      if criticalCh != [] && (!committed || critical || notifyCh == []) {
        var env := NextCritical();
        taken := Some(env);
      } else if !committed {
        committed := true;
      } else if notifyCh != [] {
        var env := TakeOther();
        Accounts(old(log), Took(env), true);
        taken := Some(env);
      }
    }

    /** Delivers until cancelled: critical envelopes first, and either kind once there was no critical one. */
    method RunNotifier(turns: seq<Turn>) returns (delivered: seq<Envelope>)
      requires Valid()
      modifies this
      ensures Valid() && Deliveries(log) == Deliveries(old(log)) + delivered
      ensures Outcome(delivered, View()) == Loop(old(View()), turns)
    {
      delivered := [];
      var t := 0;
      while t < |turns|
        invariant 0 <= t <= |turns| && Valid() && Deliveries(log) == Deliveries(old(log)) + delivered
        invariant var rest := Loop(View(), turns[t..]);
          Outcome(delivered + rest.delivered, rest.queues) == Loop(old(View()), turns)
      {
        assert turns[t..][0] == turns[t] && turns[t..][1..] == turns[t + 1..];
        ghost var before := delivered;
        Others(turns[t].meanwhile);
        if turns[t].cancelled {
          return;
        }
        var taken := Select(turns[t].critical);
        delivered := delivered + Listed(taken);
        assert forall rest: seq<Envelope> :: before + (Listed(taken) + rest) == delivered + rest;
        t := t + 1;
      }
      assert turns[t..] == [];
    }
  }
}
