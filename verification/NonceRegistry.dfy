/** The registry of notification nonces as a value: who is registered, for which host, and in which order. */
module NonceRegistry {
  import opened Wrappers

  type Nonce = string
  type Host = string
  type Time = int  // nanoseconds

  const NONCE_TTL: Time := 7 * 24 * 3600 * 1_000_000_000
  const MAX_NONCES: nat := 1024

  datatype Grant = Grant(host: Host, issuedAt: Time, expiresAt: Time)

  datatype Registry = Registry(entries: map<Nonce, Grant>, order: seq<Nonce>)

  // ---------- orders ----------

  predicate NoRepeats(s: seq<Nonce>) {
    s == [] || (s[0] !in s[1..] && NoRepeats(s[1..]))
  }

  lemma {:induction false} NoRepeatsAppend(s: seq<Nonce>, x: Nonce)
    requires NoRepeats(s) && x !in s
    ensures NoRepeats(s + [x])
  {
    if s != [] {
      assert (s + [x])[1..] == s[1..] + [x];
      NoRepeatsAppend(s[1..], x);
    }
  }

  lemma {:induction false} NoRepeatsAt(s: seq<Nonce>, n: nat)
    requires NoRepeats(s) && n < |s|
    ensures s[n] !in s[..n]
  {
    if n > 0 {
      NoRepeatsAt(s[1..], n - 1);
      assert s[n] in s[1..];
      assert s[..n] == [s[0]] + s[1..][..n - 1];
    }
  }

  /** The nonces of `s` that are in `keys`, in order. */
  function Keep(s: seq<Nonce>, keys: set<Nonce>): seq<Nonce> {
    if s == [] then [] else (if s[0] in keys then [s[0]] else []) + Keep(s[1..], keys)
  }

  function RemoveFirst(s: seq<Nonce>, x: Nonce): seq<Nonce> {
    if s == [] then [] else if s[0] == x then s[1..] else [s[0]] + RemoveFirst(s[1..], x)
  }

  lemma {:induction false} KeepMembers(s: seq<Nonce>, keys: set<Nonce>)
    ensures forall x :: x in Keep(s, keys) <==> x in s && x in keys
    ensures |Keep(s, keys)| <= |s|
  {
    if s != [] {
      KeepMembers(s[1..], keys);
      assert forall x :: x in s <==> x == s[0] || x in s[1..];
    }
  }

  lemma {:induction false} KeepNoRepeats(s: seq<Nonce>, keys: set<Nonce>)
    requires NoRepeats(s)
    ensures NoRepeats(Keep(s, keys))
  {
    if s != [] {
      KeepNoRepeats(s[1..], keys);
      KeepMembers(s[1..], keys);
      var rest := Keep(s[1..], keys);
      assert ([s[0]] + rest)[1..] == rest && [] + rest == rest;
    }
  }

  lemma {:induction false} KeepAll(s: seq<Nonce>, keys: set<Nonce>)
    requires forall x :: x in s ==> x in keys
    ensures Keep(s, keys) == s
  {
    if s != [] {
      assert forall x :: x in s[1..] ==> x in s;
      KeepAll(s[1..], keys);
    }
  }

  lemma {:induction false} KeepAppend(s: seq<Nonce>, t: seq<Nonce>, keys: set<Nonce>)
    ensures Keep(s + t, keys) == Keep(s, keys) + Keep(t, keys)
  {
    if s == [] {
      assert s + t == t;
    } else {
      assert (s + t)[1..] == s[1..] + t;
      KeepAppend(s[1..], t, keys);
    }
  }

  /** Taking one nonce out of a kept order is keeping one nonce fewer. */
  lemma {:induction false} RemoveKept(s: seq<Nonce>, keys: set<Nonce>, x: Nonce)
    requires NoRepeats(s)
    ensures RemoveFirst(Keep(s, keys), x) == Keep(s, keys - {x})
  {
    if s != [] {
      var rest := Keep(s[1..], keys);
      RemoveKept(s[1..], keys, x);
      if s[0] == x {
        KeepMembers(s[1..], keys);
        assert x !in s[1..];
        RemoveMissing(rest, x);
        assert s[0] in keys ==> Keep(s, keys)[1..] == rest;
        assert Keep(s, keys - {x}) == Keep(s[1..], keys - {x});
      } else if s[0] in keys {
        assert Keep(s, keys) == [s[0]] + rest && ([s[0]] + rest)[1..] == rest;
      } else {
        assert Keep(s, keys) == rest && Keep(s, keys - {x}) == Keep(s[1..], keys - {x});
      }
    }
  }

  lemma {:induction false} RemoveMissing(s: seq<Nonce>, x: Nonce)
    requires x !in s
    ensures RemoveFirst(s, x) == s
  {
    if s != [] {
      RemoveMissing(s[1..], x);
    }
  }

  lemma {:induction false} RemoveFirstAt(s: seq<Nonce>, x: Nonce, i: nat)
    requires i <= |s| && (forall j :: 0 <= j < i ==> s[j] != x) && (i < |s| ==> s[i] == x)
    ensures RemoveFirst(s, x) == if i < |s| then s[..i] + s[i + 1..] else s
  {
    if i > 0 {
      RemoveFirstAt(s[1..], x, i - 1);
      if i < |s| {
        assert [s[0]] + s[1..][..i - 1] == s[..i] && s[1..][i..] == s[i + 1..];
      }
    }
  }

  /** A sequence without repeats is as long as the set of its members. */
  lemma {:induction false} LengthIsCount(s: seq<Nonce>, keys: set<Nonce>)
    requires NoRepeats(s) && forall x :: x in s <==> x in keys
    ensures |s| == |keys|
  {
    if s == [] {
      assert keys == {};
    } else {
      assert s[0] !in s[1..];
      assert forall x :: x in s <==> x == s[0] || x in s[1..];
      LengthIsCount(s[1..], keys - {s[0]});
    }
  }

  // ---------- the registry ----------

  ghost predicate ListedAt(r: Registry, k: nat) {
    && NoRepeats(r.order)
    && (forall x :: x in r.order <==> x in r.entries)
    && |r.order| <= MAX_NONCES
    && "" !in r.entries
  }

  /**
   The order enumerates the nonces without repeats, and there are not too many; `k` is there for the
   trigger alone, so that only the lemmas about registries look inside.
   */
  ghost predicate Listed(r: Registry) {
    forall k {:trigger ListedAt(r, k)} :: ListedAt(r, k)
  }

  ghost predicate OnePerHost(r: Registry) {
    forall x, y :: x in r.entries && y in r.entries && r.entries[x].host == r.entries[y].host != "" ==> x == y
  }

  ghost predicate Valid(r: Registry) {
    Listed(r) && OnePerHost(r)
  }

  /** The host of a nonce that is registered and not expired. */
  function Lookup(r: Registry, nonce: Nonce, now: Time): Option<Host> {
    if nonce in r.entries && now < r.entries[nonce].expiresAt then Some(r.entries[nonce].host) else None
  }

  /** The nonces the predicate does not drop. */
  function Surviving(r: Registry, dropped: Grant -> bool): Registry {
    var left := map x | x in r.entries && !dropped(r.entries[x]) :: r.entries[x];
    Registry(left, Keep(r.order, left.Keys))
  }

  function Revoked(r: Registry, host: Host): Registry {
    if host == "" then r else Surviving(r, (g: Grant) => g.host == host)
  }

  /** A new nonce goes to the back; one that is still there keeps its place. */
  function Enrolled(r: Registry, nonce: Nonce, g: Grant): Registry {
    Registry(r.entries[nonce := g], if nonce in r.entries then r.order else r.order + [nonce])
  }

  /** The oldest go until the registry fits. */
  function Evicted(r: Registry): Registry
    decreases |r.order|
  {
    if |r.entries| > MAX_NONCES && r.order != []
    then Evicted(Registry(r.entries - {r.order[0]}, r.order[1..]))
    else r
  }

  ghost predicate EvictsTo(r: Registry, goal: Registry) {
    forall e {:trigger IsEvicted(e, r)} :: IsEvicted(e, r) ==> e == goal
  }

  ghost predicate IsEvicted(e: Registry, r: Registry) {
    e == Evicted(r)
  }

  lemma EvictStep(r: Registry, goal: Registry)
    requires |r.entries| > MAX_NONCES && r.order != [] && EvictsTo(r, goal)
    ensures EvictsTo(Registry(r.entries - {r.order[0]}, r.order[1..]), goal)
  {
    assert IsEvicted(Evicted(r), r);
  }

  lemma EvictEnd(r: Registry, goal: Registry)
    requires EvictsTo(r, goal) && !(|r.entries| > MAX_NONCES && r.order != [])
    ensures r == goal
  {
    assert IsEvicted(Evicted(r), r);
  }

  function Registered(r: Registry, nonce: Nonce, host: Host, now: Time): Registry {
    Evicted(Enrolled(Revoked(r, host), nonce, Grant(host, now, now + NONCE_TTL)))
  }

  function Cleaned(r: Registry, now: Time): Registry {
    Surviving(r, (g: Grant) => now > g.expiresAt)
  }

  lemma SurvivingListed(r: Registry, dropped: Grant -> bool)
    requires Listed(r)
    ensures Listed(Surviving(r, dropped)) && (OnePerHost(r) ==> OnePerHost(Surviving(r, dropped)))
  {
    assert ListedAt(r, 0);
    var left := Surviving(r, dropped).entries.Keys;
    KeepMembers(r.order, left);
    KeepNoRepeats(r.order, left);
  }

  /** What enrolling leaves listed has at most one nonce too many, which is then the oldest. */
  lemma EvictedOne(r: Registry)
    requires NoRepeats(r.order) && (forall x :: x in r.order <==> x in r.entries) && |r.order| <= MAX_NONCES + 1
    ensures Evicted(r) == if |r.order| > MAX_NONCES then Registry(r.entries - {r.order[0]}, r.order[1..]) else r
  {
    LengthIsCount(r.order, r.entries.Keys);
    if |r.order| > MAX_NONCES {
      var e := Registry(r.entries - {r.order[0]}, r.order[1..]);
      assert forall x :: x in e.order <==> x in r.order && x != r.order[0];
      LengthIsCount(e.order, e.entries.Keys);
    }
  }

  lemma RevokedListed(r: Registry, host: Host)
    requires Listed(r)
    ensures var v := Revoked(r, host);
      && Listed(v) && (OnePerHost(r) ==> OnePerHost(v))
      && (forall x :: x in v.entries <==> x in r.entries && (host == "" || r.entries[x].host != host))
      && (forall x :: x in v.entries ==> v.entries[x] == r.entries[x])
      && v.order == Keep(r.order, v.entries.Keys)
  {
    assert ListedAt(r, 0);
    if host != "" {
      SurvivingListed(r, (g: Grant) => g.host == host);
    } else {
      KeepAll(r.order, r.entries.Keys);
    }
  }

  /** Listed, but for one nonce that may be too many. */
  ghost predicate NearlyListed(r: Registry) {
    NoRepeats(r.order) && (forall x :: x in r.order <==> x in r.entries) && |r.order| <= MAX_NONCES + 1 && "" !in r.entries
  }

  lemma EnrolledListed(v: Registry, nonce: Nonce, g: Grant)
    requires Listed(v) && nonce != ""
    ensures NearlyListed(Enrolled(v, nonce, g))
    ensures Enrolled(v, nonce, g).order == v.order + (if nonce in v.entries then [] else [nonce])
  {
    assert ListedAt(v, 0);
    assert v.order + [] == v.order;
    if nonce !in v.entries {
      NoRepeatsAppend(v.order, nonce);
    }
    assert forall x :: x in Enrolled(v, nonce, g).order <==> x in v.order || x == nonce;
  }

  lemma DropOldest(e: Registry)
    requires NearlyListed(e) && e.order != []
    ensures Listed(Registry(e.entries - {e.order[0]}, e.order[1..]))
  {
    assert forall x :: x in e.order[1..] <==> x in e.order && x != e.order[0];
  }

  /** Who is there after `nonce` is put in: the oldest may have to go. */
  lemma EnrolledFits(v: Registry, nonce: Nonce, g: Grant)
    requires Listed(v) && nonce != ""
    ensures var e := Evicted(Enrolled(v, nonce, g));
      var full := nonce !in v.entries && |v.order| == MAX_NONCES;
      && e.order == (if full then v.order[1..] else v.order) + (if nonce in v.entries then [] else [nonce])
      && Listed(e) && e.entries == (if full then v.entries[nonce := g] - {v.order[0]} else v.entries[nonce := g])
      && (full ==> v.order[0] in v.entries && v.order[0] != nonce)
  {
    assert ListedAt(v, 0);
    var e := Enrolled(v, nonce, g);
    EnrolledListed(v, nonce, g);
    EvictedOne(e);
    if |e.order| > MAX_NONCES {
      assert e.order[0] == v.order[0] && v.order[0] in v.order;
      assert e.order[1..] == v.order[1..] + [nonce];
      DropOldest(e);
    }
  }

  /** Nobody but `nonce` is registered for the host. */
  ghost predicate OnlyOne(r: Registry, host: Host, nonce: Nonce) {
    host != "" ==> forall x :: x in r.entries && r.entries[x].host == host ==> x == nonce
  }

  lemma JoinKeepsOnePerHost(v: Registry, t: Registry, nonce: Nonce, g: Grant)
    requires OnePerHost(v) && forall x :: x in v.entries ==> g.host == "" || v.entries[x].host != g.host
    requires forall x :: x in t.entries ==> if x == nonce then t.entries[x] == g else x in v.entries && t.entries[x] == v.entries[x]
    ensures OnePerHost(t)
  {
  }

  /**
   The registry stays listed, has one nonce for the host afterwards, and has one for every host if it had;
   the nonce joins at the back, or keeps its place, and the oldest may go.
   */
  lemma RegisteredMeans(r: Registry, nonce: Nonce, host: Host, now: Time)
    requires Listed(r) && nonce != ""
    ensures var v, t := Revoked(r, host), Registered(r, nonce, host, now);
      var full := nonce !in v.entries && |v.order| == 1024;
      && Listed(t) && OnlyOne(t, host, nonce) && (OnePerHost(r) ==> OnePerHost(t))
      && t.order == (if full then v.order[1..] else v.order) + (if nonce in v.entries then [] else [nonce])
      && nonce in t.entries && t.entries[nonce] == Grant(host, now, now + NONCE_TTL)
  {
    RevokedListed(r, host);
    var v, t, g := Revoked(r, host), Registered(r, nonce, host, now), Grant(host, now, now + NONCE_TTL);
    EnrolledFits(v, nonce, g);
    if OnePerHost(r) {
      JoinKeepsOnePerHost(v, t, nonce, g);
    }
  }

  /** Everybody else keeps their grant, unless it was for the host or they were the oldest of a full registry. */
  lemma OthersStay(r: Registry, nonce: Nonce, host: Host, now: Time, x: Nonce)
    requires Listed(r) && nonce != "" && x != nonce
    ensures var v, t := Revoked(r, host), Registered(r, nonce, host, now);
      && (x in t.entries ==> x in r.entries && t.entries[x] == r.entries[x] && (host == "" || r.entries[x].host != host))
      && (x in r.entries && (host == "" || r.entries[x].host != host) && x !in t.entries ==>
        nonce !in v.entries && |v.order| == 1024 && x == v.order[0])
  {
    RevokedListed(r, host);
    EnrolledFits(Revoked(r, host), nonce, Grant(host, now, now + NONCE_TTL));
  }

  /** Registering again for the same host moves a nonce to the back; for another host it keeps its place. */
  lemma ReRegistering(r: Registry, nonce: Nonce, host: Host, now: Time)
    requires Listed(r) && nonce in r.entries
    ensures var t := Registered(r, nonce, host, now);
      && (t.order == if host != "" && r.entries[nonce].host == host then Revoked(r, host).order + [nonce] else Revoked(r, host).order)
      && (OnePerHost(r) && host != "" && r.entries[nonce].host == host ==>
        Revoked(r, host).order == Keep(r.order, r.entries.Keys - {nonce}))
  {
    assert ListedAt(r, 0);
    RevokedListed(r, host);
    RegisteredMeans(r, nonce, host, now);
    var v := Revoked(r, host);
    assert ListedAt(r, 0) && ListedAt(v, 0);
    if host != "" && r.entries[nonce].host == host {
      if OnePerHost(r) {
        assert v.entries.Keys == r.entries.Keys - {nonce};
      }
      RevokedShrinks(r, nonce, host);
    } else {
      assert nonce in v.entries;
      assert v.order + [] == v.order;
    }
  }

  lemma RevokedShrinks(r: Registry, nonce: Nonce, host: Host)
    requires Listed(r) && nonce in r.entries && host != "" && r.entries[nonce].host == host
    ensures |Revoked(r, host).order| < |r.order|
  {
    assert ListedAt(r, 0);
    RevokedListed(r, host);
    var v := Revoked(r, host);
    assert ListedAt(v, 0);
    LengthIsCount(v.order, v.entries.Keys);
    LengthIsCount(r.order, r.entries.Keys);
    assert v.entries.Keys <= r.entries.Keys - {nonce};
    SubsetCounts(v.entries.Keys, r.entries.Keys - {nonce});
  }

  lemma {:induction false} SubsetCounts(a: set<Nonce>, b: set<Nonce>)
    requires a <= b
    ensures |a| <= |b|
  {
    if a != {} {
      var x :| x in a;
      SubsetCounts(a - {x}, b - {x});
    }
  }

  // ---------- time ----------

  /** A registered nonce is good for its host for seven days, in nanoseconds, and the host's others are not. */
  lemma RegisteredLooksUp(r: Registry, nonce: Nonce, host: Host, now: Time, later: Time, other: Nonce)
    requires Listed(r) && nonce != ""
    ensures var t := Registered(r, nonce, host, now);
      && Lookup(t, nonce, later) == (if later < now + 604_800_000_000_000 then Some(host) else None)
      && (host != "" && other != nonce && other in r.entries && r.entries[other].host == host ==> Lookup(t, other, later) == None)
  {
    RegisteredMeans(r, nonce, host, now);
    if other != nonce {
      OthersStay(r, nonce, host, now, other);
    }
  }

  /** Cleaning up never changes what a later lookup answers. */
  lemma CleanedLooksUp(r: Registry, now: Time, nonce: Nonce, later: Time)
    requires now <= later
    ensures Lookup(Cleaned(r, now), nonce, later) == Lookup(r, nonce, later)
  {
  }

  // ---------- on disk ----------

  datatype Record = Record(nonce: Nonce, grant: Grant)

  /** The record of a nonce; every nonce of a listed order has a grant. */
  function RecordOf(r: Registry, nonce: Nonce): Record {
    Record(nonce, if nonce in r.entries then r.entries[nonce] else Grant("", 0, 0))
  }

  /** The file lists the registry in its order. */
  function Filed(r: Registry): (file: seq<Record>)
    ensures |file| == |r.order| && forall i :: 0 <= i < |file| ==> file[i] == RecordOf(r, r.order[i])
  {
    seq(|r.order|, i requires 0 <= i < |r.order| => RecordOf(r, r.order[i]))
  }

  /** Reading record by record: empty, expired and repeated ones are skipped. */
  function Admitted(r: Registry, file: seq<Record>, now: Time): Registry
    decreases |file|
  {
    if file == [] then r
    else Admitted(Admit(r, file[0], now), file[1..], now)
  }

  function Admit(r: Registry, item: Record, now: Time): Registry {
    if item.nonce == "" || now >= item.grant.expiresAt || item.nonce in r.entries then r
    else Registry(r.entries[item.nonce := item.grant], r.order + [item.nonce])
  }

  function Loaded(file: seq<Record>, now: Time): Registry {
    Evicted(Admitted(Registry(map[], []), file, now))
  }

  ghost predicate ListedAtLength(r: Registry) {
    NoRepeats(r.order) && (forall x :: x in r.order <==> x in r.entries) && "" !in r.entries
  }

  lemma {:induction false} AdmittedListed(r: Registry, file: seq<Record>, now: Time)
    requires ListedAtLength(r)
    ensures ListedAtLength(Admitted(r, file, now))
    decreases |file|
  {
    if file != [] {
      var next := Admit(r, file[0], now);
      if file[0].nonce !in r.entries {
        NoRepeatsAppend(r.order, file[0].nonce);
      }
      assert forall x :: x in next.order <==> x in next.entries;
      AdmittedListed(next, file[1..], now);
    }
  }

  lemma {:induction false} EvictedListed(r: Registry)
    requires ListedAtLength(r)
    ensures Listed(Evicted(r))
    decreases |r.order|
  {
    LengthIsCount(r.order, r.entries.Keys);
    if |r.entries| > MAX_NONCES && r.order != [] {
      var next := Registry(r.entries - {r.order[0]}, r.order[1..]);
      assert forall x :: x in next.order <==> x in r.order && x != r.order[0];
      EvictedListed(next);
    }
  }

  /** Whatever the file holds, what is loaded from it is listed and fits. */
  lemma LoadedListed(file: seq<Record>, now: Time)
    ensures Listed(Loaded(file, now))
  {
    AdmittedListed(Registry(map[], []), file, now);
    EvictedListed(Admitted(Registry(map[], []), file, now));
  }

  function Unexpired(r: Registry, now: Time): Registry {
    Surviving(r, (g: Grant) => now >= g.expiresAt)
  }

  /** Having read `n` records of its own file, one has the unexpired among the first `n`. */
  ghost predicate ReadSoFar(r: Registry, part: Registry, n: nat, now: Time)
    requires n <= |r.order|
  {
    && part.order == Keep(r.order[..n], Unexpired(r, now).entries.Keys)
    && (forall x :: x in part.entries <==> x in r.order[..n] && x in Unexpired(r, now).entries)
    && (forall x :: x in part.entries ==> x in r.entries && part.entries[x] == r.entries[x])
  }

  lemma ReadOne(r: Registry, part: Registry, n: nat, now: Time)
    requires Listed(r) && n < |r.order| && ReadSoFar(r, part, n, now)
    ensures ReadSoFar(r, Admit(part, Filed(r)[n], now), n + 1, now)
  {
    assert ListedAt(r, 0);
    var x := r.order[n];
    assert r.order[..n + 1] == r.order[..n] + [x];
    assert x in r.order;
    NoRepeatsAt(r.order, n);
    var keys := Unexpired(r, now).entries.Keys;
    KeepAppend(r.order[..n], [x], keys);
    assert Keep([x], keys) == if x in keys then [x] else [];
    assert Keep(r.order[..n], keys) + [] == Keep(r.order[..n], keys);
  }

  lemma {:induction false} ReadRest(r: Registry, part: Registry, n: nat, now: Time)
    requires Listed(r) && n <= |r.order| && ReadSoFar(r, part, n, now)
    ensures Admitted(part, Filed(r)[n..], now) == Unexpired(r, now)
    decreases |r.order| - n
  {
    if n == |r.order| {
      assert r.order[..n] == r.order && ListedAt(r, 0);
      assert part.entries == Unexpired(r, now).entries;
    } else {
      ReadOne(r, part, n, now);
      assert Filed(r)[n..][1..] == Filed(r)[n + 1..];
      ReadRest(r, Admit(part, Filed(r)[n], now), n + 1, now);
    }
  }

  /** What was filed is loaded again, in order, but for the expired. */
  lemma LoadOfFiled(r: Registry, now: Time)
    requires Listed(r)
    ensures Loaded(Filed(r), now) == Unexpired(r, now)
  {
    assert Filed(r)[0..] == Filed(r);
    ReadRest(r, Registry(map[], []), 0, now);
    SurvivingListed(r, (g: Grant) => now >= g.expiresAt);
    var u := Unexpired(r, now);
    assert ListedAt(u, 0);
    LengthIsCount(u.order, u.entries.Keys);
  }

  // ---------- whole histories ----------

  /** The registry in memory and the file it was last written to. */
  datatype Shelf = Shelf(r: Registry, file: Option<seq<Record>>)

  datatype Event = Registers(nonce: Nonce, host: Host, now: Time, diskFails: bool) | Cleans(now: Time, diskFails: bool) | Restarts(now: Time)

  const EMPTY := Registry(map[], [])

  /**
   A registration that is refused or cannot be filed changes nothing; a clean-up that cannot be filed is
   one in memory only; a new process reads whatever file there is.
   */
  function Took(s: Shelf, e: Event): Shelf {
    match e
    case Registers(nonce, host, now, diskFails) =>
      if nonce == "" || diskFails then s
      else var t := Registered(s.r, nonce, host, now); Shelf(t, Some(Filed(t)))
    case Cleans(now, diskFails) =>
      var t := Cleaned(s.r, now); Shelf(t, if diskFails then s.file else Some(Filed(t)))
    case Restarts(now) =>
      Shelf(if s.file.None? then EMPTY else Loaded(s.file.value, now), s.file)
  }

  function History(s: Shelf, events: seq<Event>): Shelf
    decreases |events|
  {
    if events == [] then s else History(Took(s, events[0]), events[1..])
  }

  /** Whatever the file held at first: through any registrations, clean-ups and restarts the registry stays listed. */
  lemma {:induction false} HistoryListed(s: Shelf, events: seq<Event>)
    requires Listed(s.r)
    ensures Listed(History(s, events).r)
    decreases |events|
  {
    if events != [] {
      match events[0] {
        case Registers(nonce, host, now, diskFails) =>
          if nonce != "" {
            RegisteredMeans(s.r, nonce, host, now);
          }
        case Cleans(now, _) => SurvivingListed(s.r, (g: Grant) => now > g.expiresAt);
        case Restarts(now) =>
          if s.file.Some? {
            LoadedListed(s.file.value, now);
          }
      }
      HistoryListed(Took(s, events[0]), events[1..]);
    }
  }

  /** From `clock` on the two give the same answers. */
  ghost predicate SameAnswers(a: Registry, b: Registry, clock: Time) {
    forall x, later {:trigger Lookup(a, x, later)} {:trigger Lookup(b, x, later)} :: clock <= later ==> Lookup(a, x, later) == Lookup(b, x, later)
  }

  ghost predicate FileOf(file: seq<Record>, f: Registry, r: Registry, clock: Time) {
    Valid(f) && file == Filed(f) && SameAnswers(f, r, clock)
  }

  /** One nonce for every host, in memory and on file, and the file answers as memory does. */
  ghost predicate Backed(s: Shelf, clock: Time) {
    Valid(s.r) && if s.file.None? then s.r == EMPTY else exists f :: FileOf(s.file.value, f, s.r, clock)
  }

  ghost predicate Timely(events: seq<Event>, clock: Time)
    decreases |events|
  {
    events == [] || (clock <= events[0].now && Timely(events[1..], events[0].now))
  }

  function ClockAfter(events: seq<Event>, clock: Time): Time {
    if events == [] then clock else events[|events| - 1].now
  }

  /**
   Through any registrations, clean-ups and restarts, with writes that fail at any of them, the registry
   stays valid and the file answers as memory does.
   */
  lemma {:induction false} HistoryBacked(s: Shelf, events: seq<Event>, clock: Time)
    requires Backed(s, clock) && Timely(events, clock)
    ensures Backed(History(s, events), ClockAfter(events, clock))
    decreases |events|
  {
    if events != [] {
      TookBacked(s, events[0], clock);
      HistoryBacked(Took(s, events[0]), events[1..], events[0].now);
    }
  }

  /** A restart never changes what a later lookup answers, not even after writes have failed. */
  lemma RestartLooksUp(s: Shelf, clock: Time, now: Time, nonce: Nonce, later: Time)
    requires Backed(s, clock) && clock <= now <= later
    ensures Lookup(Took(s, Restarts(now)).r, nonce, later) == Lookup(s.r, nonce, later)
  {
    if s.file.Some? {
      var f :| FileOf(s.file.value, f, s.r, clock);
      LoadOfFiled(f, now);
      assert Lookup(Unexpired(f, now), nonce, later) == Lookup(f, nonce, later);
    }
  }

  lemma TookBacked(s: Shelf, e: Event, clock: Time)
    requires Backed(s, clock) && clock <= e.now
    ensures Backed(Took(s, e), e.now)
  {
    var t := Took(s, e);
    if s.file.Some? {
      var f :| FileOf(s.file.value, f, s.r, clock);
      assert FileOf(s.file.value, f, s.r, e.now);
    }
    match e
    case Registers(nonce, host, now, diskFails) =>
      if nonce != "" && !diskFails {
        RegisteredMeans(s.r, nonce, host, now);
        assert FileOf(t.file.value, t.r, t.r, now);
      }
    case Cleans(now, diskFails) => CleanBacked(s, now, diskFails);
    case Restarts(now) => RestartBacked(s, now, clock);
  }

  lemma CleanBacked(s: Shelf, now: Time, diskFails: bool)
    requires Backed(s, now)
    ensures Backed(Took(s, Cleans(now, diskFails)), now)
  {
    var t := Took(s, Cleans(now, diskFails));
    SurvivingListed(s.r, (g: Grant) => now > g.expiresAt);
    forall x, later | now <= later ensures Lookup(t.r, x, later) == Lookup(s.r, x, later) {
      CleanedLooksUp(s.r, now, x, later);
    }
    if !diskFails {
      assert FileOf(t.file.value, t.r, t.r, now);
    } else if s.file.Some? {
      var f :| FileOf(s.file.value, f, s.r, now);
      assert FileOf(t.file.value, f, t.r, now);
    }
  }

  lemma RestartBacked(s: Shelf, now: Time, clock: Time)
    requires Backed(s, clock) && clock <= now
    ensures Backed(Took(s, Restarts(now)), now)
  {
    var t := Took(s, Restarts(now));
    if s.file.Some? {
      var f :| FileOf(s.file.value, f, s.r, clock);
      LoadOfFiled(f, now);
      SurvivingListed(f, (g: Grant) => now >= g.expiresAt);
      forall x, later | now <= later ensures Lookup(f, x, later) == Lookup(t.r, x, later) {
      }
      assert FileOf(t.file.value, f, t.r, now);
    }
  }
}
