/**
 The deduper of notifications: a map that is swept on every call, against the full history of calls.
 Times do not go backwards from one call to the next.
 */
module Deduper {
  import opened Wrappers

  type Time = int

  datatype ImageTransfer = ImageTransfer(sessionID: string, fingerprint: string)
  datatype ToolAttention = ToolAttention(sessionID: string, hookType: string, notifType: string, stopReason: string)
  datatype Message = Message(title: string, body: string, urgency: int, dedupCount: nat)

  datatype Envelope = Envelope(kind: string, source: string, host: string, image: Option<ImageTransfer>,
                               tool: Option<ToolAttention>, message: Option<Message>)

  datatype Key = Key(source: string, host: string, session: string, subtype: string, title: string, digest: string)

  predicate AlwaysCritical(env: Envelope) {
    env.message.Some? && env.message.value.urgency == 2
  }

  function SessionOf(env: Envelope): string {
    if env.tool.Some? then env.tool.value.sessionID else ""
  }

  function SubtypeOf(env: Envelope): string {
    if env.tool.Some? && env.tool.value.hookType == "notification" then "notification:" + env.tool.value.notifType
    else if env.tool.Some? && env.tool.value.hookType == "stop" then "stop:" + env.tool.value.stopReason
    else env.kind
  }

  /** What makes two notifications the same one; `digest` is the hash of the body. */
  function KeyOf(env: Envelope, digest: string -> string): Option<Key> {
    if AlwaysCritical(env) then None
    else if env.image.Some? then
      Some(Key(env.source, env.host, env.image.value.sessionID, "image_transfer", env.image.value.sessionID,
               digest(env.image.value.fingerprint)))
    else if env.message.Some? then
      Some(Key(env.source, env.host, SessionOf(env), SubtypeOf(env), env.message.value.title, digest(env.message.value.body)))
    else None
  }

  predicate Hooked(env: Envelope, hook: string) {
    env.tool.Some? && env.tool.value.hookType == hook
  }

  lemma PrefixTells(p: string, a: string, b: string)
    ensures p + a == p + b <==> a == b
  {
    if p + a == p + b {
      assert a == (p + a)[|p|..];
    }
  }

  /** The same event: notifications of one type, stops for one reason, or, without such a hook, one kind of envelope. */
  ghost predicate SameEvent(a: Envelope, b: Envelope) {
    if Hooked(a, "notification") then Hooked(b, "notification") && a.tool.value.notifType == b.tool.value.notifType
    else if Hooked(a, "stop") then Hooked(b, "stop") && a.tool.value.stopReason == b.tool.value.stopReason
    else !Hooked(b, "notification") && !Hooked(b, "stop") && a.kind == b.kind
  }

  /** The kinds of envelopes carry no colon, so the subtype tells events apart. */
  lemma SubtypeTells(a: Envelope, b: Envelope)
    requires ':' !in a.kind && ':' !in b.kind
    ensures SubtypeOf(a) == SubtypeOf(b) <==> SameEvent(a, b)
  {
    if a.tool.Some? && b.tool.Some? {
      PrefixTells("notification:", a.tool.value.notifType, b.tool.value.notifType);
      PrefixTells("stop:", a.tool.value.stopReason, b.tool.value.stopReason);
    }
    forall e: Envelope | e == a || e == b
      ensures Hooked(e, "notification") ==> SubtypeOf(e)[0] == 'n' && ':' in SubtypeOf(e)
      ensures Hooked(e, "stop") ==> SubtypeOf(e)[0] == 's' && ':' in SubtypeOf(e)
    {
      assert Hooked(e, "notification") ==> SubtypeOf(e)[12] == ':';
      assert Hooked(e, "stop") ==> SubtypeOf(e)[4] == ':';
    }
  }

  /** Only what is critical, and what is neither an image nor a message, is never held against another. */
  lemma NoKeyMeans(env: Envelope, digest: string -> string)
    ensures KeyOf(env, digest).None? <==>
      (env.message.Some? && env.message.value.urgency == 2) || (env.image.None? && env.message.None?)
  {
  }

  /** Images are the same for one sender, host and session with the same fingerprint. */
  lemma SameImage(a: Envelope, b: Envelope, digest: string -> string)
    requires a.image.Some? && b.image.Some? && KeyOf(a, digest).Some? && KeyOf(b, digest).Some?
    ensures KeyOf(a, digest) == KeyOf(b, digest) <==>
      && a.source == b.source && a.host == b.host && a.image.value.sessionID == b.image.value.sessionID
      && digest(a.image.value.fingerprint) == digest(b.image.value.fingerprint)
  {
  }

  /** Messages are the same for one sender, host, session and event with the same title and body: no field is left out. */
  lemma SameMessage(a: Envelope, b: Envelope, digest: string -> string)
    requires a.image.None? && b.image.None? && KeyOf(a, digest).Some? && KeyOf(b, digest).Some?
    requires ':' !in a.kind && ':' !in b.kind
    ensures KeyOf(a, digest) == KeyOf(b, digest) <==>
      && a.source == b.source && a.host == b.host && SameEvent(a, b)
      && (if a.tool.Some? then a.tool.value.sessionID else "") == (if b.tool.Some? then b.tool.value.sessionID else "")
      && a.message.value.title == b.message.value.title && digest(a.message.value.body) == digest(b.message.value.body)
  {
    SubtypeTells(a, b);
  }

  // ---------- the full history ----------

  datatype Call = Call(key: Key, at: Time)

  /** When the key was used, passed or suppressed. */
  function Times(h: seq<Call>, key: Key): seq<Time> {
    if h == [] then []
    else Times(h[..|h| - 1], key) + if h[|h| - 1].key == key then [h[|h| - 1].at] else []
  }

  /** A call at `now` passes when the last one before it was more than a window ago. */
  predicate Passes(times: seq<Time>, now: Time, window: Time) {
    times == [] || now - times[|times| - 1] > window
  }

  /** The length of the run of calls, each within a window of the one before, that ends with the last. */
  function BurstLength(times: seq<Time>, window: Time): nat {
    if times == [] then 0
    else if Passes(times[..|times| - 1], times[|times| - 1], window) then 1
    else 1 + BurstLength(times[..|times| - 1], window)
  }

  ghost predicate Monotone(h: seq<Call>) {
    forall i :: 0 < i < |h| ==> h[i - 1].at <= h[i].at
  }

  predicate NotBefore(h: seq<Call>, now: Time) {
    h == [] || h[|h| - 1].at <= now
  }

  /** The burst that ends with the last call began with the one call of it that passed. */
  lemma {:induction false} OnePassPerBurst(times: seq<Time>, window: Time)
    requires times != []
    ensures var n := BurstLength(times, window);
      && 1 <= n <= |times|
      && Passes(times[..|times| - n], times[|times| - n], window)
      && forall i :: |times| - n < i < |times| ==> !Passes(times[..i], times[i], window)
  {
    var last := |times| - 1;
    if !Passes(times[..last], times[last], window) {
      var init := times[..last];
      OnePassPerBurst(init, window);
      var n := BurstLength(init, window);
      assert init[..|init| - n] == times[..|times| - (n + 1)];
      forall i | |times| - (n + 1) < i < |times| ensures !Passes(times[..i], times[i], window) {
        if i < last {
          assert init[..i] == times[..i];
        }
      }
    }
  }

  // ---------- the map and the history ----------

  datatype Entry = Entry(seenAt: Time, count: nat)

  /** The map knows the last call and the burst of its keys; the keys it has dropped were last seen too long ago. */
  ghost predicate Knows(items: map<Key, Entry>, h: seq<Call>, window: Time, key: Key) {
    var times := Times(h, key);
    if key in items then
      times != [] && items[key] == Entry(times[|times| - 1], BurstLength(times, window))
    else times == [] || (h != [] && h[|h| - 1].at - times[|times| - 1] > window)
  }

  ghost predicate Reflects(items: map<Key, Entry>, h: seq<Call>, window: Time) {
    && Monotone(h)
    && forall key {:trigger key in items} {:trigger Times(h, key)} :: Knows(items, h, window, key)
  }

  ghost predicate Recent(items: map<Key, Entry>, now: Time, window: Time) {
    forall key :: key in items ==> now - items[key].seenAt <= window
  }

  lemma TimesAppend(h: seq<Call>, c: Call, key: Key)
    ensures Times(h + [c], key) == Times(h, key) + if c.key == key then [c.at] else []
  {
    assert (h + [c])[..|h|] == h;
  }

  /** No call comes after `now`. */
  ghost predicate AllBefore(times: seq<Time>, now: Time) {
    forall i :: 0 <= i < |times| ==> times[i] <= now
  }

  /** Times of a key are times of calls, so none is later than the last call. */
  lemma {:induction false} TimesBefore(h: seq<Call>, key: Key, now: Time)
    requires Monotone(h) && NotBefore(h, now)
    ensures AllBefore(Times(h, key), now)
  {
    if h != [] {
      var init, last := h[..|h| - 1], h[|h| - 1];
      assert init != [] ==> init[|init| - 1].at <= last.at;
      TimesBefore(init, key, now);
    }
  }

  class Deduper {
    const window: Time
    var items: map<Key, Entry>
    ghost var history: seq<Call>

    constructor (window: Time)
      ensures Reflects(items, history, this.window) && history == [] && this.window == window
    {
      this.window, items, history := window, map[], [];
      new;
      forall key ensures Knows(items, history, window, key) {
      }
    }

    /** Drops the entries that can suppress nothing any more. */
    method Sweep(now: Time)
      modifies this`items
      ensures items == map k | k in old(items) && now - old(items)[k].seenAt <= window :: old(items)[k]
    {
      var pending := items.Keys;
      while pending != {}
        invariant pending <= items.Keys <= old(items).Keys
        invariant forall k :: k in items ==> items[k] == old(items)[k]
        invariant forall k :: k in old(items) ==> (k in items <==> k in pending || now - old(items)[k].seenAt <= window)
        decreases |pending|
      {
        var k :| k in pending;
        pending := pending - {k};
        if now - items[k].seenAt > window {
          items := items - {k};
        }
      }
    }

    /** Suppression counts and refreshes: the window starts again with every repeat. */
    method AllowKey(key: Key, now: Time) returns (allowed: bool, count: nat)
      requires Reflects(items, history, window) && NotBefore(history, now) && window >= 0
      modifies this
      ensures Reflects(items, history, window) && history == old(history) + [Call(key, now)]
      ensures allowed == Passes(Times(old(history), key), now, window)
      ensures count == BurstLength(Times(history, key), window)
      ensures Recent(items, now, window)
    {
      assert Knows(items, history, window, key);
      Sweep(now);
      if key !in items || now - items[key].seenAt > window {
        allowed, count := true, 1;
      } else {
        allowed, count := false, items[key].count + 1;
      }
      items := items[key := Entry(now, count)];
      history := history + [Call(key, now)];
      Taken(old(items), items, old(history), window, Call(key, now), count);
    }

    method AllowAt(env: Envelope, now: Time, digest: string -> string) returns (allowed: bool, merged: Option<Envelope>)
      requires Reflects(items, history, window) && NotBefore(history, now) && window >= 0
      modifies this
      ensures Reflects(items, history, window)
      ensures env.message.Some? && env.message.value.urgency == 2 ==> allowed && history == old(history)
      ensures var key := KeyOf(env, digest);
        if key.None? then allowed && merged == None && items == old(items) && history == old(history)
        else
          && history == old(history) + [Call(key.value, now)] && Recent(items, now, window)
          && allowed == Passes(Times(old(history), key.value), now, window)
          && merged == (if allowed || env.message.None? then None
                        else Some(env.(message := Some(env.message.value.(
                                       dedupCount := BurstLength(Times(history, key.value), window))))))
    {
      var key := KeyOf(env, digest);
      if key.None? {
        return true, None;
      }
      var count;
      allowed, count := AllowKey(key.value, now);
      merged := None;
      if !allowed && env.message.Some? {
        merged := Some(env.(message := Some(env.message.value.(dedupCount := count))));
      }
    }
  }

  /** The map after the sweep and the new entry. */
  ghost predicate Updated(items: map<Key, Entry>, items': map<Key, Entry>, window: Time, c: Call, count: nat) {
    && (forall k :: k in items' <==> k == c.key || (k in items && c.at - items[k].seenAt <= window))
    && forall k :: k in items' ==> items'[k] == if k == c.key then Entry(c.at, count) else items[k]
  }

  lemma KnowsOther(items: map<Key, Entry>, items': map<Key, Entry>, h: seq<Call>, window: Time, c: Call, count: nat, key: Key)
    requires Reflects(items, h, window) && NotBefore(h, c.at) && window >= 0 && Updated(items, items', window, c, count)
    requires key != c.key
    ensures Knows(items', h + [c], window, key)
  {
    assert Knows(items, h, window, key);
    TimesAppend(h, c, key);
    assert Times(h, key) + [] == Times(h, key);
    if h != [] {
      TimesBefore(h, key, h[|h| - 1].at);
    }
  }

  lemma BurstGrows(h: seq<Call>, c: Call, window: Time)
    ensures var times := Times(h, c.key);
      BurstLength(Times(h + [c], c.key), window) ==
      if Passes(times, c.at, window) then 1 else BurstLength(times, window) + 1
  {
    TimesAppend(h, c, c.key);
    assert (Times(h, c.key) + [c.at])[..|Times(h, c.key)|] == Times(h, c.key);
  }

  /** After the sweep and the new entry the map still reflects the history. */
  lemma Taken(items: map<Key, Entry>, items': map<Key, Entry>, h: seq<Call>, window: Time, c: Call, count: nat)
    requires Reflects(items, h, window) && NotBefore(h, c.at) && window >= 0 && Updated(items, items', window, c, count)
    requires count == if Passes(Times(h, c.key), c.at, window) then 1 else BurstLength(Times(h, c.key), window) + 1
    ensures Reflects(items', h + [c], window)
    ensures count == BurstLength(Times(h + [c], c.key), window)
  {
    BurstGrows(h, c, window);
    TimesAppend(h, c, c.key);
    forall key ensures Knows(items', h + [c], window, key) {
      if key != c.key {
        KnowsOther(items, items', h, window, c, count, key);
      }
    }
    assert Monotone(h + [c]);
  }
}
