/**
 The nonce registry as the daemon keeps it: a map and an order slice that is cut, shifted and extended
 in its backing array, with a file that is replaced as a whole.
 */
module NonceTable {
  import opened Wrappers
  import opened NonceRegistry

  datatype Outcome = Done | EmptyNonce | ClipboardToken | NotPersisted

  class Table {
    var entries: map<Nonce, Grant>
    var buf: array<Nonce>  // the order is buf[lo..hi]
    var lo: nat
    var hi: nat
    var persists: bool
    var file: Option<seq<Record>>

    ghost predicate Shaped()
      reads this
    {
      lo <= hi <= buf.Length
    }

    ghost function Order(): seq<Nonce>
      requires Shaped()
      reads this, buf
    {
      buf[lo..hi]
    }

    ghost function Value(): Registry
      requires Shaped()
      reads this, buf
    {
      Registry(entries, Order())
    }

    constructor (persists: bool, file: Option<seq<Record>>)
      ensures Shaped() && Value() == Registry(map[], []) && fresh(buf) && this.persists == persists && this.file == file
    {
      entries, buf, lo, hi := map[], new Nonce[32](_ => ""), 0, 0;
      this.persists, this.file := persists, file;
    }

    /** Moves the order to a larger array. */
    method Grow()
      requires Shaped()
      modifies this`buf, this`lo, this`hi
      ensures Shaped() && Order() == old(Order()) && hi < buf.Length && fresh(buf)
    {
      var bigger := new Nonce[2 * (hi - lo) + 1](_ => "");
      var i := 0;
      while i < hi - lo
        invariant 0 <= i <= hi - lo && bigger[..i] == buf[lo..lo + i]
        modifies bigger
      {
        bigger[i] := buf[lo + i];
        i := i + 1;
      }
      hi, lo, buf := hi - lo, 0, bigger;
    }

    /** append: in place while there is room, in a new array after that. */
    method AppendToOrder(nonce: Nonce)
      requires Shaped()
      modifies this`buf, this`lo, this`hi, buf
      ensures Shaped() && Order() == old(Order()) + [nonce] && (buf == old(buf) || fresh(buf))
    {
      if hi == buf.Length {
        Grow();
      }
      ghost var was := Order();
      buf[hi] := nonce;
      hi := hi + 1;
      assert buf[lo..hi - 1] == was;
    }

    /** The elements behind the one at `i` are shifted down in place. */
    method ShiftDown(i: nat)
      requires Shaped() && lo <= i < hi
      modifies this`hi, buf
      ensures Shaped() && hi == old(hi) - 1 && Order() == old(buf[lo..i]) + old(buf[i + 1..hi])
    {
      ghost var moved := buf[i + 1..hi];
      var j := i;
      while j + 1 < hi
        invariant i <= j < hi
        invariant buf[lo..i] == old(buf[lo..i]) && buf[i..j] == moved[..j - i] && buf[j + 1..hi] == moved[j - i..]
        modifies buf
      {
        assert buf[j + 1] == buf[j + 1..hi][0] == moved[j - i];
        assert buf[j + 2..hi] == buf[j + 1..hi][1..];
        buf[j] := buf[j + 1];
        j := j + 1;
      }
      hi := hi - 1;
    }

    method RemoveFromOrder(nonce: Nonce)
      requires Shaped()
      modifies this`hi, buf
      ensures Shaped() && Order() == RemoveFirst(old(Order()), nonce)
    {
      ghost var was := Order();
      var i := lo;
      while i < hi && buf[i] != nonce
        invariant lo <= i <= hi && forall j :: 0 <= j < i - lo ==> was[j] != nonce
      {
        i := i + 1;
      }
      RemoveFirstAt(was, nonce, i - lo);
      if i < hi {
        ShiftDown(i);
      }
    }

    /** `pending` are still to be looked at; of the others, those to be dropped are gone. */
    ghost predicate Dropping(was: Registry, dropped: Grant -> bool, pending: set<Nonce>)
      reads this, buf
    {
      && Shaped() && pending <= entries.Keys <= was.entries.Keys
      && (forall x :: x in entries ==> entries[x] == was.entries[x])
      && (forall x :: x in was.entries ==> (x in entries <==> x in pending || !dropped(was.entries[x])))
      && Order() == Keep(was.order, entries.Keys)
    }

    method DropOne(ghost was: Registry, dropped: Grant -> bool, ghost pending: set<Nonce>, k: Nonce)
      requires Listed(was) && Dropping(was, dropped, pending) && k in pending
      modifies this`entries, this`hi, buf
      ensures Dropping(was, dropped, pending - {k})
    {
      if dropped(entries[k]) {
        assert ListedAt(was, 0);
        RemoveKept(was.order, entries.Keys, k);
        assert (entries - {k}).Keys == entries.Keys - {k};
        entries := entries - {k};
        RemoveFromOrder(k);
      }
    }

    /** Takes out the nonces of a host, or the expired ones, one by one as the map gives them. */
    method DropAll(dropped: Grant -> bool)
      requires Shaped() && Listed(Value())
      modifies this`entries, this`hi, buf
      ensures Shaped() && Value() == Surviving(old(Value()), dropped)
    {
      ghost var was := Value();
      DroppingStarts(was, dropped);
      var pending := entries.Keys;
      while pending != {}
        invariant Dropping(was, dropped, pending)
        decreases |pending|
      {
        var k :| k in pending;
        DropOne(was, dropped, pending, k);
        pending := pending - {k};
      }
      DroppingEnds(was, dropped);
    }

    lemma DroppingStarts(was: Registry, dropped: Grant -> bool)
      requires Shaped() && Listed(was) && was == Value()
      ensures Dropping(was, dropped, entries.Keys)
    {
      assert ListedAt(was, 0);
      KeepAll(was.order, entries.Keys);
    }

    lemma DroppingEnds(was: Registry, dropped: Grant -> bool)
      requires Dropping(was, dropped, {})
      ensures Value() == Surviving(was, dropped)
    {
      assert entries == Surviving(was, dropped).entries;
    }

    method EvictOldest()
      requires Shaped()
      modifies this`entries, this`lo
      ensures Shaped() && Value() == Evicted(old(Value()))
    {
      ghost var goal := Evicted(Value());
      while |entries| > MAX_NONCES && lo < hi
        invariant Shaped() && EvictsTo(Value(), goal)
        decreases hi - lo
      {
        assert buf[lo] == Order()[0] && Order()[1..] == buf[lo + 1..hi];
        EvictStep(Value(), goal);
        var oldest := buf[lo];
        lo := lo + 1;
        entries := entries - {oldest};
      }
      EvictEnd(Value(), goal);
    }

    /** One record for each nonce of the order; the nonces it does not list would follow, and there are none. */
    method Records() returns (records: seq<Record>)
      requires Shaped() && forall x :: x in Order() ==> x in entries
      ensures records == Filed(Value())
    {
      records := [];
      ghost var r := Value();
      var i := lo;
      while i < hi
        invariant lo <= i <= hi && |records| == i - lo
        invariant forall j :: 0 <= j < i - lo ==> records[j] == RecordOf(r, r.order[j])
      {
        assert buf[i] == r.order[i - lo] && buf[i] in r.order;
        records := records + [Record(buf[i], entries[buf[i]])];
        i := i + 1;
      }
    }

    /** Writes the file as a whole, or fails and leaves it. */
    method Persist(diskFails: bool) returns (ok: bool)
      requires Shaped() && Listed(Value())
      modifies this`file
      ensures ok == !diskFails && file == if ok then Some(Filed(Value())) else old(file)
    {
      assert ListedAt(Value(), 0);
      var records := Records();
      if diskFails {
        return false;
      }
      file := Some(records);
      return true;
    }

    method CopyOfOrder() returns (copy: array<Nonce>)
      requires Shaped()
      ensures fresh(copy) && copy[..] == Order()
    {
      copy := new Nonce[hi - lo](_ => "");
      var i := 0;
      while i < hi - lo
        invariant 0 <= i <= hi - lo && copy[..i] == buf[lo..lo + i]
        modifies copy
      {
        copy[i] := buf[lo + i];
        i := i + 1;
      }
    }

    /** Puts the nonce in and takes out whom it displaces. */
    method Enrol(nonce: Nonce, host: Host, now: Time)
      requires Shaped() && Listed(Value()) && nonce != ""
      modifies this`entries, this`buf, this`lo, this`hi, buf
      ensures Shaped() && Value() == Registered(old(Value()), nonce, host, now) && (buf == old(buf) || fresh(buf))
      ensures Listed(Value())
    {
      RegisteredMeans(Value(), nonce, host, now);
      if host != "" {
        DropAll((g: Grant) => g.host == host);
      }
      if nonce !in entries {
        AppendToOrder(nonce);
      }
      entries := entries[nonce := Grant(host, now, now + NONCE_TTL)];
      EvictOldest();
    }

    /** Files the registry, or puts back what it was. */
    method Commit(prevEntries: map<Nonce, Grant>, prevOrder: array<Nonce>, diskFails: bool) returns (ok: bool)
      requires Shaped() && Listed(Value())
      modifies this
      ensures Shaped() && ok == !(persists && diskFails) && persists == old(persists)
      ensures ok ==> Value() == old(Value()) && buf == old(buf)
      ensures ok ==> file == if persists then Some(Filed(Value())) else old(file)
      ensures !ok ==> Value() == Registry(prevEntries, prevOrder[..]) && file == old(file) && buf == prevOrder
    {
      ok := true;
      if persists {
        ok := Persist(diskFails);
        if !ok {
          entries, buf, lo, hi := prevEntries, prevOrder, 0, prevOrder.Length;
        }
      }
    }

    /** All of a registration, or none of it: a registry that cannot be filed is put back as it was. */
    method Register(nonce: Nonce, host: Host, now: Time, isToken: bool, diskFails: bool) returns (outcome: Outcome)
      requires Shaped() && Listed(Value())
      modifies this, buf
      ensures Shaped() && persists == old(persists) && (buf == old(buf) || fresh(buf))
      ensures outcome == (if nonce == "" then EmptyNonce else if isToken then ClipboardToken
                          else if persists && diskFails then NotPersisted else Done)
      ensures outcome.Done? ==> Value() == Registered(old(Value()), nonce, host, now)
      ensures Listed(Value())
      ensures outcome.Done? && persists ==> file == Some(Filed(Value()))
      ensures !outcome.Done? || !persists ==> file == old(file)
      ensures !outcome.Done? ==> Value() == old(Value())
    {
      if nonce == "" {
        return EmptyNonce;
      }
      if isToken {
        return ClipboardToken;
      }
      var ok := EnrolAndFile(nonce, host, now, diskFails);
      return if ok then Done else NotPersisted;
    }

    method EnrolAndFile(nonce: Nonce, host: Host, now: Time, diskFails: bool) returns (ok: bool)
      requires Shaped() && Listed(Value()) && nonce != ""
      modifies this, buf
      ensures Shaped() && persists == old(persists) && (buf == old(buf) || fresh(buf)) && Listed(Value())
      ensures ok == !(persists && diskFails)
      ensures Value() == if ok then Registered(old(Value()), nonce, host, now) else old(Value())
      ensures file == if ok && persists then Some(Filed(Value())) else old(file)
    {
      var prevEntries := entries;
      var prevOrder := CopyOfOrder();
      Enrol(nonce, host, now);
      ok := Commit(prevEntries, prevOrder, diskFails);
    }

    method DropExpired(now: Time)
      requires Shaped() && Listed(Value())
      modifies this`entries, this`hi, buf
      ensures Shaped() && Value() == Cleaned(old(Value()), now) && Listed(Value())
    {
      SurvivingListed(Value(), (g: Grant) => now > g.expiresAt);
      DropAll((g: Grant) => now > g.expiresAt);
    }

    /** A file that cannot be written does not keep the expired nonces in memory. */
    method CleanupExpired(now: Time, diskFails: bool)
      requires Shaped() && Listed(Value())
      modifies this, buf
      ensures Shaped() && Value() == Cleaned(old(Value()), now)
      ensures persists == old(persists)
      ensures file == if persists && !diskFails then Some(Filed(Value())) else old(file)
    {
      DropExpired(now);
      if persists {
        var ok := Persist(diskFails);
      }
    }

    /** A missing file leaves the registry as it is. */
    method Load(now: Time) returns (count: nat)
      requires Shaped()
      modifies this`entries, this`buf, this`lo, this`hi
      ensures Shaped() && (buf == old(buf) || fresh(buf))
      ensures file.None? ==> Value() == old(Value()) && count == 0
      ensures file.Some? ==> Value() == Loaded(file.value, now) && Listed(Value()) && count == |entries|
    {
      if file.None? {
        return 0;
      }
      ReadRecords(file.value, now);
      EvictOldest();
      LoadedListed(file.value, now);
      return |entries|;
    }

    method ReadRecords(records: seq<Record>, now: Time)
      modifies this`entries, this`buf, this`lo, this`hi
      ensures Shaped() && fresh(buf) && Value() == Admitted(Registry(map[], []), records, now)
    {
      entries, buf, lo, hi := map[], new Nonce[|records|](_ => ""), 0, 0;
      var i := 0;
      while i < |records|
        invariant 0 <= i <= |records| && Shaped() && fresh(buf)
        invariant Admitted(Value(), records[i..], now) == Admitted(Registry(map[], []), records, now)
      {
        var item := records[i];
        assert records[i..][1..] == records[i + 1..];
        if item.nonce != "" && now < item.grant.expiresAt && item.nonce !in entries {
          entries := entries[item.nonce := item.grant];
          AppendToOrder(item.nonce);
        }
        i := i + 1;
      }
    }

    method LookupValid(nonce: Nonce, now: Time) returns (host: Host, ok: bool)
      requires Shaped()
      ensures Lookup(Value(), nonce, now) == if ok then Some(host) else None
    {
      if nonce !in entries || !(now < entries[nonce].expiresAt) {
        return "", false;
      }
      return entries[nonce].host, true;
    }
  }
}
