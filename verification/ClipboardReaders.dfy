/**
 Readers of the Windows clipboard beside its writers, one step at a time. The sequence number is read
 before the clipboard is opened, and the cache is shared. The system's part is that the number grows
 whenever the content changes and that only one party has the clipboard open.
 */
module ClipboardReaders {
  import opened Wrappers
  import opened ClipboardCache

  // ---------- what a clipboard content is worth ----------

  datatype Format = Png | DibV5 | Dib | Unicode | Ansi

  type Content = map<Format, Bytes>

  /** The limits, the DIB to PNG conversion and the decoding of UTF-16. */
  datatype Codec = Codec(maxImage: nat, maxDib: nat, maxText: nat, png: Bytes -> Option<Bytes>, utf16: Bytes -> Bytes)

  function Sized(b: Bytes, limit: nat): Option<Bytes> {
    if b == [] || |b| > limit then None else Some(b)
  }

  function PngOf(dib: Option<Bytes>, k: Codec): Option<Bytes> {
    if dib.None? then None else k.png(dib.value)
  }

  /** The first image format there is decides. */
  function ImageOf(c: Content, k: Codec): Option<Bytes> {
    if Png in c then Sized(c[Png], k.maxImage)
    else if DibV5 in c then PngOf(Sized(c[DibV5], k.maxDib), k)
    else if Dib in c then PngOf(Sized(c[Dib], k.maxDib), k)
    else None
  }

  function UntilZero(b: Bytes): Bytes {
    if b == [] || b[0] == 0 then [] else [b[0]] + UntilZero(b[1..])
  }

  function UnicodeText(b: Bytes, k: Codec): Option<Bytes> {
    if b == [] || |b| > k.maxText * 2 + 2 || |b| % 2 != 0 || |b| / 2 > k.maxText then None
    else Sized(k.utf16(b), k.maxText)
  }

  function AnsiText(b: Bytes, k: Codec): Option<Bytes> {
    if b == [] || |b| > k.maxText + 1 then None else Sized(UntilZero(b), k.maxText)
  }

  function TextOf(c: Content, k: Codec): Option<Bytes> {
    if Unicode in c then UnicodeText(c[Unicode], k)
    else if Ansi in c then AnsiText(c[Ansi], k)
    else None
  }

  /** The format stands first among those of `order` that the content has. */
  ghost predicate FirstOf(order: seq<Format>, f: Format, c: Content) {
    exists i :: 0 <= i < |order| && order[i] == f && f in c && forall j :: 0 <= j < i ==> order[j] !in c
  }

  /** What one format is worth: nothing when it is empty, too large or cannot be converted. */
  ghost predicate Worth(f: Format, b: Bytes, k: Codec, r: Option<Bytes>) {
    match f
    case Png => if 0 < |b| <= k.maxImage then r == Some(b) else r == None
    case Unicode =>
      if 0 < |b| <= 2 * k.maxText && |b| % 2 == 0 && 0 < |k.utf16(b)| <= k.maxText then r == Some(k.utf16(b)) else r == None
    case Ansi => if |b| <= k.maxText + 1 && 0 < TextLength(b) <= k.maxText then r == Some(b[..TextLength(b)]) else r == None
    case _ => if 0 < |b| <= k.maxDib then r == k.png(b) else r == None
  }

  /** The length of the text before the first zero byte. */
  function TextLength(b: Bytes): (n: nat)
    ensures n <= |b| && (n < |b| ==> b[n] == 0) && forall i :: 0 <= i < n ==> b[i] != 0
  {
    if b == [] || b[0] == 0 then 0 else 1 + TextLength(b[1..])
  }

  lemma {:induction false} UntilZeroIs(b: Bytes)
    ensures UntilZero(b) == b[..TextLength(b)]
  {
    if b != [] && b[0] != 0 {
      UntilZeroIs(b[1..]);
    }
  }

  /**
   The first format there is decides, in the order PNG, DIB version 5, DIB for an image and Unicode before
   ANSI for a text; and if it is worth nothing no other is tried.
   */
  lemma FirstFormatDecides(c: Content, k: Codec)
    ensures forall f :: FirstOf([Png, DibV5, Dib], f, c) ==> Worth(f, c[f], k, ImageOf(c, k))
    ensures forall f :: FirstOf([Unicode, Ansi], f, c) ==> Worth(f, c[f], k, TextOf(c, k))
    ensures (forall f :: f in [Png, DibV5, Dib] ==> f !in c) ==> ImageOf(c, k) == None
    ensures (forall f :: f in [Unicode, Ansi] ==> f !in c) ==> TextOf(c, k) == None
  {
    var images, texts := [Png, DibV5, Dib], [Unicode, Ansi];
    assert images[0] == Png && images[1] == DibV5 && images[2] == Dib && texts[0] == Unicode && texts[1] == Ansi;
    if Ansi in c {
      UntilZeroIs(c[Ansi]);
    }
  }

  function ValueOf(want: Kind, c: Content, k: Codec): Option<Bytes> {
    if want.Image? then ImageOf(c, k) else TextOf(c, k)
  }

  // ---------- the system ----------

  /** What the clipboard held from one change to the next, with its sequence number. */
  datatype Version = Version(seqno: nat, content: Content)

  datatype Owner = Nobody | Writer | Reader(id: nat)

  /** Where a call is; a result of None is an error. `at` is the version current when the call returned. */
  datatype Pc =
    | Called
    | Numbered(n: nat)
    | Missed(n: nat)
    | Opened(n: nat)
    | Holding(n: nat, held: Option<Bytes>)
    | Stored(held: Option<Bytes>)
    | Returned(result: Option<Bytes>, at: nat)

  /** A call of ImageBytes or Text, and the version current when it began. */
  datatype Call = Call(want: Kind, since: nat, pc: Pc)

  datatype System = System(history: seq<Version>, owner: Owner, cache: Entry, calls: map<nat, Call>)

  // `zero` is a sequence number nobody may read, `refused` and `failed` are calls the system turns down.
  datatype Action =
    | WriterOpens
    | WriterChanges(version: Version)
    | WriterCloses
    | Begins(id: nat, want: Kind)
    | Numbers(id: nat, zero: bool)
    | Looks(id: nat)
    | Opens(id: nat, refused: bool)
    | Reads(id: nat, failed: bool)
    | Stores(id: nat)
    | Closes(id: nat)

  function Current(s: System): Version
    requires s.history != []
  {
    s.history[|s.history| - 1]
  }

  function Goto(s: System, id: nat, pc: Pc): System
    requires id in s.calls
  {
    s.(calls := s.calls[id := s.calls[id].(pc := pc)])
  }

  function Return(s: System, id: nat, result: Option<Bytes>): System
    requires id in s.calls && s.history != []
  {
    Goto(s, id, Returned(result, |s.history| - 1))
  }

  function Limit(want: Kind, k: Codec): nat {
    if want.Image? then k.maxImage else k.maxText
  }

  /** The writers: the clipboard is theirs while they change it, and every change has a larger number. */
  function WriterStep(s: System, a: Action): Option<System>
    requires s.history != []
  {
    match a
    case WriterOpens => if s.owner.Nobody? then Some(s.(owner := Writer)) else None
    case WriterChanges(v) =>
      if s.owner.Writer? && v.seqno > Current(s).seqno then Some(s.(history := s.history + [v])) else None
    case WriterCloses => if s.owner.Writer? then Some(s.(owner := Nobody)) else None
    case _ => None
  }

  function ReaderStep(s: System, id: nat, a: Action, k: Codec): Option<System>
    requires s.history != [] && id in s.calls
  {
    var call := s.calls[id];
    match (a, call.pc)
    case (Numbers(_, zero), Called) => Some(Goto(s, id, Numbered(if zero then 0 else Current(s).seqno)))
    case (Looks(_), Numbered(n)) =>
      var hit := Hit(s.cache, n, call.want);
      Some(if hit.Some? then Return(s, id, hit) else Goto(s, id, Missed(n)))
    case (Opens(_, refused), Missed(n)) =>
      Some(if refused || !s.owner.Nobody? then Return(s, id, None) else Goto(s.(owner := Reader(id)), id, Opened(n)))
    case (Reads(_, failed), Opened(n)) =>
      Some(Goto(s, id, Holding(n, if failed then None else ValueOf(call.want, Current(s).content, k))))
    case (Stores(_), Holding(n, held)) =>
      var cache := if held.Some? then Remembering(s.cache, n, call.want, held.value, Limit(call.want, k)) else s.cache;
      Some(Goto(s.(cache := cache), id, Stored(held)))
    case (Closes(_), Stored(held)) => Some(Return(s.(owner := Nobody), id, held))
    case _ => None
  }

  /** What the action makes of the system, if it can be taken. */
  function Next(s: System, a: Action, k: Codec): Option<System>
    requires s.history != []
  {
    if a.WriterOpens? || a.WriterChanges? || a.WriterCloses? then WriterStep(s, a)
    else if a.Begins? then
      if a.id in s.calls || a.want.Empty? then None
      else Some(s.(calls := s.calls[a.id := Call(a.want, |s.history| - 1, Called)]))
    else if a.id in s.calls then ReaderStep(s, a.id, a, k)
    else None
  }

  function Initial(v: Version): System {
    System([v], Nobody, Entry(0, Empty, [], []), map[])
  }

  /** The system after all the actions that could be taken, in this order. */
  function After(s: System, actions: seq<Action>, k: Codec): (s': System)
    requires s.history != []
    ensures s'.history != []
    decreases |actions|
  {
    if actions == [] then s
    else
      var next := Next(s, actions[0], k);
      After(if next.Some? then next.value else s, actions[1..], k)
  }

  // ---------- what holds in every state ----------

  ghost predicate Growing(h: seq<Version>) {
    h != [] && forall i, j :: 0 <= i < j < |h| ==> h[i].seqno < h[j].seqno
  }

  ghost predicate SeenAt(h: seq<Version>, i: int, want: Kind, value: Bytes, k: Codec)
    requires 0 <= i < |h|
  {
    ValueOf(want, h[i].content, k) == Some(value)
  }

  /** The value is what some version from `lo` to before `hi`, numbered `n` or more, was worth. */
  ghost predicate Seen(h: seq<Version>, lo: int, hi: int, n: nat, want: Kind, value: Bytes, k: Codec) {
    exists i {:trigger SeenAt(h, i, want, value, k)} ::
      0 <= lo <= i < hi <= |h| && h[i].seqno >= n && SeenAt(h, i, want, value, k)
  }

  ghost predicate NumberSeen(h: seq<Version>, lo: int, n: nat) {
    n == 0 || exists i :: 0 <= lo <= i < |h| && h[i].seqno == n
  }

  ghost predicate CacheSound(h: seq<Version>, cache: Entry, k: Codec) {
    forall want: Kind {:trigger Hit(cache, cache.seqno, want)} :: Hit(cache, cache.seqno, want).Some? ==>
      Seen(h, 0, |h|, cache.seqno, want, Hit(cache, cache.seqno, want).value, k)
  }

  ghost predicate CallSound(h: seq<Version>, owner: Owner, id: nat, call: Call, k: Codec) {
    && call.since < |h| && !call.want.Empty?
    && match call.pc
       case Called => true
       case Numbered(n) => NumberSeen(h, call.since, n)
       case Missed(n) => NumberSeen(h, call.since, n)
       case Opened(n) => NumberSeen(h, call.since, n) && owner == Reader(id)
       case Holding(n, held) =>
         owner == Reader(id) && (held.Some? ==> Seen(h, call.since, |h|, n, call.want, held.value, k))
       case Stored(held) =>
         owner == Reader(id) && (held.Some? ==> Seen(h, call.since, |h|, 0, call.want, held.value, k))
       case Returned(result, at) =>
         call.since <= at < |h| && (result.Some? ==> Seen(h, call.since, at + 1, 0, call.want, result.value, k))
  }

  ghost predicate Sound(s: System, k: Codec) {
    && Growing(s.history)
    && CacheSound(s.history, s.cache, k)
    && forall id :: id in s.calls ==> CallSound(s.history, s.owner, id, s.calls[id], k)
  }

  lemma SeenGrows(h: seq<Version>, v: Version, lo: int, hi: int, n: nat, want: Kind, value: Bytes, k: Codec)
    requires Seen(h, lo, hi, n, want, value, k)
    ensures Seen(h + [v], lo, hi, n, want, value, k)
    ensures hi == |h| ==> Seen(h + [v], lo, |h| + 1, n, want, value, k)
  {
    var i :| lo <= i < hi && h[i].seqno >= n && SeenAt(h, i, want, value, k);
    assert (h + [v])[i] == h[i];
    assert SeenAt(h + [v], i, want, value, k);
  }

  lemma NumberSeenGrows(h: seq<Version>, v: Version, lo: int, n: nat)
    requires NumberSeen(h, lo, n)
    ensures NumberSeen(h + [v], lo, n)
  {
    if n != 0 {
      var i :| 0 <= lo <= i < |h| && h[i].seqno == n;
      assert (h + [v])[i] == h[i];
    }
  }

  lemma CallGrows(h: seq<Version>, v: Version, owner: Owner, id: nat, call: Call, k: Codec)
    requires CallSound(h, owner, id, call, k)
    ensures CallSound(h + [v], owner, id, call, k)
  {
    match call.pc
    case Called =>
    case Numbered(n) => NumberSeenGrows(h, v, call.since, n);
    case Missed(n) => NumberSeenGrows(h, v, call.since, n);
    case Opened(n) => NumberSeenGrows(h, v, call.since, n);
    case Holding(n, held) => if held.Some? { SeenGrows(h, v, call.since, |h|, n, call.want, held.value, k); }
    case Stored(held) => if held.Some? { SeenGrows(h, v, call.since, |h|, 0, call.want, held.value, k); }
    case Returned(result, at) => if result.Some? { SeenGrows(h, v, call.since, at + 1, 0, call.want, result.value, k); }
  }

  lemma ChangeSound(s: System, v: Version, k: Codec)
    requires Sound(s, k) && v.seqno > Current(s).seqno
    ensures Sound(s.(history := s.history + [v]), k)
  {
    var h := s.history;
    assert Growing(h + [v]);
    forall want: Kind | Hit(s.cache, s.cache.seqno, want).Some?
      ensures Seen(h + [v], 0, |h + [v]|, s.cache.seqno, want, Hit(s.cache, s.cache.seqno, want).value, k)
    {
      SeenGrows(h, v, 0, |h|, s.cache.seqno, want, Hit(s.cache, s.cache.seqno, want).value, k);
    }
    forall id | id in s.calls ensures CallSound(h + [v], s.owner, id, s.calls[id], k) {
      CallGrows(h, v, s.owner, id, s.calls[id], k);
    }
  }

  /** A remembered value, if the number was current during the call, was current during the call or is newer. */
  lemma HitIsCurrent(s: System, call: Call, n: nat, k: Codec)
    requires Sound(s, k) && call.since < |s.history| && NumberSeen(s.history, call.since, n) && !call.want.Empty?
    requires Hit(s.cache, n, call.want).Some?
    ensures Seen(s.history, call.since, |s.history|, 0, call.want, Hit(s.cache, n, call.want).value, k)
  {
    var h, value := s.history, Hit(s.cache, n, call.want).value;
    assert n == s.cache.seqno;
    var i :| 0 <= i < |h| && h[i].seqno >= n && SeenAt(h, i, call.want, value, k);
    var j :| call.since <= j < |h| && h[j].seqno == n;
    assert j <= i;
  }

  lemma StoreSound(h: seq<Version>, cache: Entry, n: nat, lo: nat, want: Kind, value: Bytes, limit: nat, k: Codec)
    requires CacheSound(h, cache, k) && !want.Empty? && Seen(h, lo, |h|, n, want, value, k)
    ensures CacheSound(h, Remembering(cache, n, want, value, limit), k)
  {
    var cache' := Remembering(cache, n, want, value, limit);
    var i :| lo <= i < |h| && h[i].seqno >= n && SeenAt(h, i, want, value, k);
    forall want': Kind | Hit(cache', cache'.seqno, want').Some?
      ensures Seen(h, 0, |h|, cache'.seqno, want', Hit(cache', cache'.seqno, want').value, k)
    {
      if cache' == cache {
        assert Hit(cache, cache.seqno, want').Some?;
      } else {
        assert want' == want && Hit(cache', cache'.seqno, want').value == value;
      }
    }
  }

  /** A call that moves on does not disturb the others, whoever comes to own the clipboard. */
  lemma GotoSound(s: System, t: System, id: nat, pc: Pc, k: Codec)
    requires Sound(s, k) && id in s.calls && t.history == s.history && CacheSound(t.history, t.cache, k)
    requires t.calls == s.calls[id := s.calls[id].(pc := pc)]
    requires t.owner == s.owner || s.owner == Nobody || s.owner == Reader(id)
    requires CallSound(t.history, t.owner, id, t.calls[id], k)
    ensures Sound(t, k)
  {
    forall other | other in t.calls ensures CallSound(t.history, t.owner, other, t.calls[other], k) {
      if other != id {
        assert CallSound(s.history, s.owner, other, s.calls[other], k);
      }
    }
  }

  lemma WriterSound(s: System, a: Action, k: Codec)
    requires Sound(s, k) && WriterStep(s, a).Some?
    ensures Sound(WriterStep(s, a).value, k)
  {
    match a
    case WriterOpens =>
      forall id | id in s.calls ensures CallSound(s.history, Writer, id, s.calls[id], k) {
        assert CallSound(s.history, s.owner, id, s.calls[id], k);
      }
    case WriterChanges(v) => ChangeSound(s, v, k);
    case WriterCloses =>
      forall id | id in s.calls ensures CallSound(s.history, Nobody, id, s.calls[id], k) {
        assert CallSound(s.history, s.owner, id, s.calls[id], k);
      }
  }

  lemma LookSound(s: System, id: nat, n: nat, k: Codec)
    requires Sound(s, k) && id in s.calls && s.calls[id].pc == Numbered(n)
    ensures Sound(ReaderStep(s, id, Looks(id), k).value, k)
  {
    var call, last := s.calls[id], |s.history| - 1;
    assert CallSound(s.history, s.owner, id, call, k);
    var hit := Hit(s.cache, n, call.want);
    var t := ReaderStep(s, id, Looks(id), k).value;
    if hit.Some? {
      HitIsCurrent(s, call, n, k);
      assert last + 1 == |s.history|;
    }
    GotoSound(s, t, id, if hit.Some? then Returned(hit, last) else Missed(n), k);
  }

  lemma StoresSound(s: System, id: nat, n: nat, held: Option<Bytes>, k: Codec)
    requires Sound(s, k) && id in s.calls && s.calls[id].pc == Holding(n, held)
    ensures Sound(ReaderStep(s, id, Stores(id), k).value, k)
  {
    var call, h := s.calls[id], s.history;
    assert CallSound(h, s.owner, id, call, k);
    var t := ReaderStep(s, id, Stores(id), k).value;
    if held.Some? {
      StoreSound(h, s.cache, n, call.since, call.want, held.value, Limit(call.want, k), k);
      var i :| call.since <= i < |h| && h[i].seqno >= n && SeenAt(h, i, call.want, held.value, k);
      assert Seen(h, call.since, |h|, 0, call.want, held.value, k);
    }
    GotoSound(s, t, id, Stored(held), k);
  }

  lemma ReaderSound(s: System, id: nat, a: Action, k: Codec)
    requires Sound(s, k) && id in s.calls && ReaderStep(s, id, a, k).Some?
    ensures Sound(ReaderStep(s, id, a, k).value, k)
  {
    var call, h, t := s.calls[id], s.history, ReaderStep(s, id, a, k).value;
    assert CallSound(h, s.owner, id, call, k);
    match call.pc
    case Called =>
      assert a.zero || h[|h| - 1].seqno == t.calls[id].pc.n;
      GotoSound(s, t, id, t.calls[id].pc, k);
    case Numbered(n) => LookSound(s, id, n, k);
    case Missed(n) => GotoSound(s, t, id, t.calls[id].pc, k);
    case Opened(n) =>
      var held := t.calls[id].pc.held;
      if held.Some? {
        OpenSeesCurrent(h, call, n, held.value, k);
      }
      GotoSound(s, t, id, Holding(n, held), k);
    case Holding(n, held) => StoresSound(s, id, n, held, k);
    case Stored(held) =>
      assert |h| - 1 + 1 == |h|;
      GotoSound(s, t, id, Returned(held, |h| - 1), k);
    case Returned(_, _) =>
  }

  /** What is read while the clipboard is open is the current version, which is numbered `n` or more. */
  lemma OpenSeesCurrent(h: seq<Version>, call: Call, n: nat, value: Bytes, k: Codec)
    requires Growing(h) && call.since < |h| && NumberSeen(h, call.since, n)
    requires ValueOf(call.want, h[|h| - 1].content, k) == Some(value)
    ensures Seen(h, call.since, |h|, n, call.want, value, k)
  {
    assert SeenAt(h, |h| - 1, call.want, value, k);
  }

  /** Every step of every party keeps the system sound. */
  lemma StepSound(s: System, a: Action, k: Codec)
    requires Sound(s, k) && Next(s, a, k).Some?
    ensures Sound(Next(s, a, k).value, k)
  {
    if a.WriterOpens? || a.WriterChanges? || a.WriterCloses? {
      WriterSound(s, a, k);
    } else if a.Begins? {
      var t := Next(s, a, k).value;
      forall id | id in t.calls ensures CallSound(t.history, t.owner, id, t.calls[id], k) {
        if id != a.id {
          assert CallSound(s.history, s.owner, id, s.calls[id], k);
        }
      }
    } else {
      ReaderSound(s, a.id, a, k);
    }
  }

  lemma {:induction false} RunSound(s: System, actions: seq<Action>, k: Codec)
    requires Sound(s, k)
    ensures Sound(After(s, actions, k), k)
    decreases |actions|
  {
    if actions != [] {
      var next := Next(s, actions[0], k);
      if next.Some? {
        StepSound(s, actions[0], k);
      }
      RunSound(if next.Some? then next.value else s, actions[1..], k);
    }
  }

  /**
   In every run of any writers and readers, each call of ImageBytes or Text that succeeds, from the cache
   or not, returns what the clipboard was worth at some time between its begin and its return.
   */
  lemma ReadersAreLinearizable(v: Version, actions: seq<Action>, k: Codec, id: nat)
    requires var s := After(Initial(v), actions, k); id in s.calls && s.calls[id].pc.Returned? && s.calls[id].pc.result.Some?
    ensures var s := After(Initial(v), actions, k);
      var call := s.calls[id];
      exists i :: call.since <= i <= call.pc.at < |s.history|
        && ValueOf(call.want, s.history[i].content, k) == call.pc.result
  {
    RunSound(Initial(v), actions, k);
    var s := After(Initial(v), actions, k);
    assert CallSound(s.history, s.owner, id, s.calls[id], k);
    var call := s.calls[id];
    var i :| call.since <= i < call.pc.at + 1 && SeenAt(s.history, i, call.want, call.pc.result.value, k);
  }

  // ---------- the type of the content ----------

  predicate HasImage(c: Content) {
    Png in c || DibV5 in c || Dib in c
  }

  /** What Type answers with the clipboard open. */
  function TypeOf(c: Content): Kind {
    if HasImage(c) then Image else if Unicode in c || Ansi in c then Text else Empty
  }

  /** What Type answers from the cache. */
  function CachedType(e: Entry, n: nat): Option<Kind> {
    if Hit(e, n, Image).Some? then Some(Image) else if Hit(e, n, Text).Some? then Some(Text) else None
  }

  /** In every state of every run: a type answered from the cache is the content's unless that holds both kinds and text was remembered. */
  lemma CachedTypeAgrees(v: Version, actions: seq<Action>, k: Codec)
    requires var s := After(Initial(v), actions, k); CachedType(s.cache, Current(s).seqno).Some?
    ensures var s := After(Initial(v), actions, k);
      var cached := CachedType(s.cache, Current(s).seqno).value;
      cached == TypeOf(Current(s).content) <==> cached.Image? || !HasImage(Current(s).content)
  {
    RunSound(Initial(v), actions, k);
    var s := After(Initial(v), actions, k);
    HitIsNow(s, CachedType(s.cache, Current(s).seqno).value, k);
  }

  /** The steps of one call of Text that goes to the clipboard. */
  const TEXT_CALL: seq<Action> :=
    [Begins(0, Text)] + ([Numbers(0, false), Looks(0), Opens(0, false)] + [Reads(0, false), Stores(0), Closes(0)])

  lemma TextIsCached(v: Version, text: Bytes, k: Codec)
    requires v.seqno > 0 && TextOf(v.content, k) == Some(text) && 0 < |text| <= k.maxText
    ensures var s := After(Initial(v), TEXT_CALL, k); Current(s) == v && CachedType(s.cache, v.seqno) == Some(Text)
  {
    var rest := [Reads(0, false), Stores(0), Closes(0)];
    var s1 := Taken(Initial(v), Begins(0, Text), [Numbers(0, false), Looks(0), Opens(0, false)] + rest, k);
    var s4 := Opening(s1, v.seqno, rest, k);
    var s7 := Reading(s4, v.seqno, text, k);
  }

  /** Text read from a clipboard that holds both kinds makes Type answer differently from then on. */
  lemma CachedTypeDiffers(n: nat, image: Bytes, letter: Byte, k: Codec)
    requires n > 0 && letter != 0 && k.maxText > 0
    ensures var c := map[Png := image, Ansi := [letter]];
      var s := After(Initial(Version(n, c)), TEXT_CALL, k);
      Current(s).content == c && CachedType(s.cache, n) == Some(Text) && TypeOf(c) == Image
  {
    assert UntilZero([letter]) == [letter];
    TextIsCached(Version(n, map[Png := image, Ansi := [letter]]), [letter], k);
  }

  lemma Opening(s: System, n: nat, rest: seq<Action>, k: Codec) returns (t: System)
    requires s.history != [] && Current(s).seqno == n && s.owner.Nobody? && s.cache == Entry(0, Empty, [], [])
    requires s.calls == map[0 := Call(Text, 0, Called)]
    ensures t == s.(owner := Reader(0), calls := map[0 := Call(Text, 0, Opened(n))])
    ensures After(s, [Numbers(0, false), Looks(0), Opens(0, false)] + rest, k) == After(t, rest, k)
  {
    var s2 := Taken(s, Numbers(0, false), [Looks(0), Opens(0, false)] + rest, k);
    var s3 := Taken(s2, Looks(0), [Opens(0, false)] + rest, k);
    t := Taken(s3, Opens(0, false), rest, k);
    assert [Numbers(0, false), Looks(0), Opens(0, false)] + rest == [Numbers(0, false)] + ([Looks(0), Opens(0, false)] + rest);
    assert [Looks(0), Opens(0, false)] + rest == [Looks(0)] + ([Opens(0, false)] + rest);
  }

  lemma Reading(s: System, n: nat, text: Bytes, k: Codec) returns (t: System)
    requires s.history != [] && Current(s).seqno == n && TextOf(Current(s).content, k) == Some(text)
    requires s.calls == map[0 := Call(Text, 0, Opened(n))]
    ensures After(s, [Reads(0, false), Stores(0), Closes(0)], k) == t && t.history == s.history
    ensures t.cache == Remembering(s.cache, n, Text, text, k.maxText)
  {
    var s2 := Taken(s, Reads(0, false), [Stores(0), Closes(0)], k);
    var s3 := Taken(s2, Stores(0), [Closes(0)], k);
    t := Taken(s3, Closes(0), [], k);
    assert [Reads(0, false), Stores(0), Closes(0)] == [Reads(0, false)] + [Stores(0), Closes(0)];
    assert [Stores(0), Closes(0)] == [Stores(0)] + [Closes(0)];
    assert [Closes(0)] == [Closes(0)] + [];
  }

  lemma Taken(s: System, a: Action, rest: seq<Action>, k: Codec) returns (t: System)
    requires s.history != [] && Next(s, a, k).Some?
    ensures t == Next(s, a, k).value && t.history != [] && After(s, [a] + rest, k) == After(t, rest, k)
  {
    t := Next(s, a, k).value;
    assert ([a] + rest)[1..] == rest;
  }

  // ---------- one call among the others ----------

  predicate IsOf(a: Action, id: nat) {
    !a.WriterOpens? && !a.WriterChanges? && !a.WriterCloses? && a.id == id
  }

  lemma OthersLeave(s: System, a: Action, k: Codec, id: nat)
    requires s.history != [] && Next(s, a, k).Some? && !IsOf(a, id)
    ensures var t := Next(s, a, k).value;
      && (id in t.calls <==> id in s.calls) && (id in s.calls ==> t.calls[id] == s.calls[id]) && s.history <= t.history
  {
  }

  /** What the others do before a step of this call. */
  function OthersDid(s: System, batch: seq<Action>, id: nat, k: Codec): (t: System)
    requires s.history != []
    ensures t.history != []
    decreases |batch|
  {
    if batch == [] then s
    else OthersDid(if IsOf(batch[0], id) then s else Attempt(s, batch[0], k), batch[1..], id, k)
  }

  function Attempt(s: System, a: Action, k: Codec): (t: System)
    requires s.history != []
    ensures t.history != []
  {
    if Next(s, a, k).Some? then Next(s, a, k).value else s
  }

  function Before(schedule: seq<seq<Action>>): seq<Action> {
    if schedule == [] then [] else schedule[0]
  }

  function Later(schedule: seq<seq<Action>>): seq<seq<Action>> {
    if schedule == [] then [] else schedule[1..]
  }

  predicate HasReturned(s: System, id: nat) {
    id in s.calls && s.calls[id].pc.Returned?
  }

  /** The steps of a call, each after a turn of everybody else, until the call has returned. */
  function Performed(s: System, schedule: seq<seq<Action>>, steps: seq<Action>, id: nat, k: Codec): System
    requires s.history != []
    decreases |steps|
  {
    if steps == [] || HasReturned(s, id) then s
    else
      Performed(Attempt(OthersDid(s, Before(schedule), id, k), steps[0], k), Later(schedule), steps[1..], id, k)
  }

  function GoingThere(id: nat, refused: bool, failed: bool): seq<Action> {
    [Opens(id, refused)] + ([Reads(id, failed)] + ([Stores(id)] + [Closes(id)]))
  }

  /** A whole call of ImageBytes or Text: the number, the cache, and the clipboard unless the cache answers. */
  function Whole(id: nat, zero: bool, refused: bool, failed: bool): seq<Action> {
    [Numbers(id, zero)] + ([Looks(id)] + GoingThere(id, refused, failed))
  }

  lemma PerformedStep(s: System, schedule: seq<seq<Action>>, a: Action, rest: seq<Action>, id: nat, k: Codec)
    requires s.history != [] && !HasReturned(s, id)
    ensures Performed(s, schedule, [a] + rest, id, k)
      == Performed(Attempt(OthersDid(s, Before(schedule), id, k), a, k), Later(schedule), rest, id, k)
  {
    assert ([a] + rest)[1..] == rest;
  }

  class WindowsClipboard {
    const k: Codec
    var sys: System
    var schedule: seq<seq<Action>>  // what everybody else does before each step of this call

    constructor (v: Version, schedule: seq<seq<Action>>, k: Codec)
      ensures Sound(sys, k) && sys == Initial(v) && this.k == k && this.schedule == schedule
    {
      this.k, this.sys, this.schedule := k, Initial(v), schedule;
    }

    method Others(id: nat)
      requires Sound(sys, k)
      modifies this
      ensures Sound(sys, k) && old(sys.history) <= sys.history
      ensures (id in sys.calls <==> id in old(sys.calls)) && (id in sys.calls ==> sys.calls[id] == old(sys.calls[id]))
      ensures sys == OthersDid(old(sys), Before(old(schedule)), id, k) && schedule == Later(old(schedule))
    {
      if schedule == [] {
        return;
      }
      var batch := schedule[0];
      schedule := schedule[1..];
      var i := 0;
      while i < |batch|
        invariant 0 <= i <= |batch| && Sound(sys, k) && old(sys.history) <= sys.history && schedule == Later(old(schedule))
        invariant (id in sys.calls <==> id in old(sys.calls)) && (id in sys.calls ==> sys.calls[id] == old(sys.calls[id]))
        invariant OthersDid(sys, batch[i..], id, k) == OthersDid(old(sys), batch, id, k)
      {
        assert batch[i..][0] == batch[i] && batch[i..][1..] == batch[i + 1..];
        Take(batch[i], id);
        i := i + 1;
      }
    }

    method Take(a: Action, id: nat)
      requires Sound(sys, k)
      modifies this`sys
      ensures Sound(sys, k) && old(sys.history) <= sys.history
      ensures (id in sys.calls <==> id in old(sys.calls)) && (id in sys.calls ==> sys.calls[id] == old(sys.calls[id]))
      ensures sys == if IsOf(a, id) then old(sys) else Attempt(old(sys), a, k)
    {
      if !IsOf(a, id) && Next(sys, a, k).Some? {
        StepSound(sys, a, k);
        OthersLeave(sys, a, k, id);
        sys := Next(sys, a, k).value;
      }
    }

    /** One step of this call after everybody else had their turn. */
    method Step(id: nat, a: Action)
      requires Sound(sys, k) && id in sys.calls && IsOf(a, id) && ReaderStep(sys, id, a, k).Some?
      modifies this
      ensures Sound(sys, k) && old(sys.history) <= sys.history && id in sys.calls
      ensures sys.calls[id].since == old(sys.calls[id].since) && sys.calls[id].want == old(sys.calls[id].want)
      ensures sys == Attempt(OthersDid(old(sys), Before(old(schedule)), id, k), a, k) && schedule == Later(old(schedule))
      ensures match old(sys.calls[id].pc)
        case Called => sys.calls[id].pc.Numbered?
        case Numbered(_) => sys.calls[id].pc.Missed? || sys.calls[id].pc.Returned?
        case Missed(_) => sys.calls[id].pc.Opened? || sys.calls[id].pc.Returned?
        case Opened(_) => sys.calls[id].pc.Holding?
        case Holding(_, _) => sys.calls[id].pc.Stored?
        case Stored(_) => sys.calls[id].pc.Returned?
        case Returned(_, _) => false
    {
      Others(id);
      StepSound(sys, a, k);
      sys := Next(sys, a, k).value;
    }

    /** The number, and then the cache. */
    method LookUp(id: nat, zero: bool, ghost rest: seq<Action>)
      requires Sound(sys, k) && id in sys.calls && sys.calls[id].pc.Called?
      modifies this
      ensures Sound(sys, k) && old(sys.history) <= sys.history && id in sys.calls
      ensures sys.calls[id].since == old(sys.calls[id].since) && sys.calls[id].want == old(sys.calls[id].want)
      ensures sys.calls[id].pc.Missed? || sys.calls[id].pc.Returned?
      ensures Performed(old(sys), old(schedule), [Numbers(id, zero)] + ([Looks(id)] + rest), id, k) == Performed(sys, schedule, rest, id, k)
    {
      PerformedStep(sys, schedule, Numbers(id, zero), [Looks(id)] + rest, id, k);
      Step(id, Numbers(id, zero));
      PerformedStep(sys, schedule, Looks(id), rest, id, k);
      Step(id, Looks(id));
    }

    /** What the clipboard holds while it is open, remembered under the number read before. */
    method FromClipboard(id: nat, refused: bool, failed: bool)
      requires Sound(sys, k) && id in sys.calls && sys.calls[id].pc.Missed?
      modifies this
      ensures Sound(sys, k) && old(sys.history) <= sys.history && id in sys.calls
      ensures sys.calls[id].since == old(sys.calls[id].since) && sys.calls[id].want == old(sys.calls[id].want)
      ensures sys.calls[id].pc.Returned? && sys == Performed(old(sys), old(schedule), GoingThere(id, refused, failed), id, k)
    {
      PerformedStep(sys, schedule, Opens(id, refused), [Reads(id, failed)] + ([Stores(id)] + [Closes(id)]), id, k);
      Step(id, Opens(id, refused));
      if sys.calls[id].pc.Opened? {
        WhileOpen(id, failed);
      }
    }

    method WhileOpen(id: nat, failed: bool)
      requires Sound(sys, k) && id in sys.calls && sys.calls[id].pc.Opened?
      modifies this
      ensures Sound(sys, k) && old(sys.history) <= sys.history && id in sys.calls
      ensures sys.calls[id].since == old(sys.calls[id].since) && sys.calls[id].want == old(sys.calls[id].want)
      ensures sys.calls[id].pc.Returned?
      ensures sys == Performed(old(sys), old(schedule), [Reads(id, failed)] + ([Stores(id)] + [Closes(id)]), id, k)
    {
      PerformedStep(sys, schedule, Reads(id, failed), [Stores(id)] + [Closes(id)], id, k);
      Step(id, Reads(id, failed));
      Keep(id);
    }

    /** What was read is remembered, and the clipboard is closed. */
    method Keep(id: nat)
      requires Sound(sys, k) && id in sys.calls && sys.calls[id].pc.Holding?
      modifies this
      ensures Sound(sys, k) && old(sys.history) <= sys.history && id in sys.calls
      ensures sys.calls[id].since == old(sys.calls[id].since) && sys.calls[id].want == old(sys.calls[id].want)
      ensures sys.calls[id].pc.Returned? && sys == Performed(old(sys), old(schedule), [Stores(id)] + [Closes(id)], id, k)
    {
      PerformedStep(sys, schedule, Stores(id), [Closes(id)], id, k);
      Step(id, Stores(id));
      PerformedStep(sys, schedule, Closes(id), [], id, k);
      assert [Closes(id)] + [] == [Closes(id)];
      Step(id, Closes(id));
    }

    /** ImageBytes and Text. */
    method Read(id: nat, want: Kind, zero: bool, refused: bool, failed: bool) returns (result: Option<Bytes>)
      requires Sound(sys, k) && id !in sys.calls && !want.Empty?
      modifies this
      ensures Sound(sys, k) && old(sys.history) <= sys.history
      ensures result.Some? ==>
        exists i :: |old(sys.history)| - 1 <= i < |sys.history| && ValueOf(want, sys.history[i].content, k) == result
      ensures sys == Performed(Attempt(old(sys), Begins(id, want), k), old(schedule), Whole(id, zero, refused, failed), id, k)
      ensures HasReturned(sys, id) && result == sys.calls[id].pc.result
    {
      StepSound(sys, Begins(id, want), k);
      sys := Next(sys, Begins(id, want), k).value;
      LookUp(id, zero, GoingThere(id, refused, failed));
      if sys.calls[id].pc.Missed? {
        FromClipboard(id, refused, failed);
      }
      result := sys.calls[id].pc.result;
      ReturnedIsSeen(sys, id, k);
    }
  }

  /** A number that is current is only in the cache with what the clipboard is worth now. */
  lemma HitIsNow(s: System, want: Kind, k: Codec)
    requires Sound(s, k) && !want.Empty? && Hit(s.cache, Current(s).seqno, want).Some?
    ensures Hit(s.cache, Current(s).seqno, want) == ValueOf(want, Current(s).content, k)
  {
    var h, value := s.history, Hit(s.cache, s.cache.seqno, want).value;
    var i :| 0 <= i < |h| && h[i].seqno >= s.cache.seqno && SeenAt(h, i, want, value, k);
    assert i == |h| - 1;
  }

  lemma UndisturbedStep(s: System, a: Action, rest: seq<Action>, id: nat, k: Codec) returns (t: System)
    requires s.history != [] && !HasReturned(s, id)
    ensures t == Attempt(s, a, k) && t.history != []
    ensures Performed(s, [], [a] + rest, id, k) == Performed(t, [], rest, id, k)
  {
    t := Attempt(s, a, k);
    PerformedStep(s, [], a, rest, id, k);
  }

  ghost predicate Ended(s: System, t: System, id: nat, want: Kind, n: nat, held: Option<Bytes>, k: Codec) {
    && HasReturned(t, id) && t.calls[id].pc.result == held && t.history == s.history && t.owner.Nobody?
    && t.cache == (if held.Some? then Remembering(s.cache, n, want, held.value, Limit(want, k)) else s.cache)
  }

  lemma UndisturbedHolding(s: System, n: nat, held: Option<Bytes>, id: nat, k: Codec)
    requires s.history != [] && id in s.calls && s.calls[id].pc == Holding(n, held)
    ensures Ended(s, Performed(s, [], [Stores(id)] + [Closes(id)], id, k), id, s.calls[id].want, n, held, k)
  {
    var s1 := UndisturbedStep(s, Stores(id), [Closes(id)], id, k);
    var s2 := UndisturbedStep(s1, Closes(id), [], id, k);
    assert [Closes(id)] + [] == [Closes(id)];
  }

  /** With nobody else about, what is read is the outcome, and it is remembered. */
  lemma UndisturbedOpen(s: System, n: nat, id: nat, refused: bool, failed: bool, k: Codec)
    requires s.history != [] && s.owner.Nobody? && id in s.calls && s.calls[id].pc == Missed(n)
    ensures var held := if refused || failed then None else ValueOf(s.calls[id].want, Current(s).content, k);
      Ended(s, Performed(s, [], GoingThere(id, refused, failed), id, k), id, s.calls[id].want, n, held, k)
  {
    var s1 := UndisturbedStep(s, Opens(id, refused), [Reads(id, failed)] + ([Stores(id)] + [Closes(id)]), id, k);
    if !refused {
      UndisturbedReading(s1, n, id, failed, k);
    }
  }

  lemma UndisturbedReading(s: System, n: nat, id: nat, failed: bool, k: Codec)
    requires s.history != [] && id in s.calls && s.calls[id].pc == Opened(n)
    ensures var held := if failed then None else ValueOf(s.calls[id].want, Current(s).content, k);
      Ended(s, Performed(s, [], [Reads(id, failed)] + ([Stores(id)] + [Closes(id)]), id, k), id, s.calls[id].want, n, held, k)
  {
    var s2 := UndisturbedStep(s, Reads(id, failed), [Stores(id)] + [Closes(id)], id, k);
    UndisturbedHolding(s2, n, s2.calls[id].pc.held, id, k);
  }

  lemma UndisturbedLookUp(s: System, id: nat, zero: bool, rest: seq<Action>, k: Codec) returns (t: System)
    requires s.history != [] && id in s.calls && s.calls[id].pc.Called?
    ensures t.history == s.history && t.owner == s.owner && t.cache == s.cache && id in t.calls && t.calls[id].want == s.calls[id].want
    ensures var n := if zero then 0 else Current(s).seqno;
      var hit := Hit(s.cache, n, s.calls[id].want);
      t.calls[id].pc == if hit.Some? then Returned(hit, |s.history| - 1) else Missed(n)
    ensures Performed(s, [], [Numbers(id, zero)] + ([Looks(id)] + rest), id, k) == Performed(t, [], rest, id, k)
  {
    var s1 := UndisturbedStep(s, Numbers(id, zero), [Looks(id)] + rest, id, k);
    t := UndisturbedStep(s1, Looks(id), rest, id, k);
  }

  /**
   Undisturbed, a call answers with what the clipboard is worth, cached or not, and fails only where the
   system turns it down and the cache has no answer.
   */
  lemma UndisturbedRead(s: System, id: nat, want: Kind, zero: bool, refused: bool, failed: bool, k: Codec)
    requires Sound(s, k) && s.owner.Nobody? && id !in s.calls && !want.Empty?
    ensures var t := Performed(Attempt(s, Begins(id, want), k), [], Whole(id, zero, refused, failed), id, k);
      var hit := if zero then None else Hit(s.cache, Current(s).seqno, want);
      HasReturned(t, id) && t.calls[id].pc.result ==
        if hit.None? && (refused || failed) then None else ValueOf(want, Current(s).content, k)
  {
    var s0 := Attempt(s, Begins(id, want), k);
    var s2 := UndisturbedLookUp(s0, id, zero, GoingThere(id, refused, failed), k);
    if s2.calls[id].pc.Returned? {
      HitIsNow(s, want, k);
    } else {
      UndisturbedOpen(s2, s2.calls[id].pc.n, id, refused, failed, k);
    }
  }

  lemma ReturnedIsSeen(s: System, id: nat, k: Codec)
    requires Sound(s, k) && id in s.calls && s.calls[id].pc.Returned?
    ensures s.calls[id].pc.result.Some? ==>
      exists i :: s.calls[id].since <= i < |s.history| && ValueOf(s.calls[id].want, s.history[i].content, k) == s.calls[id].pc.result
  {
    var call := s.calls[id];
    assert CallSound(s.history, s.owner, id, call, k);
    if call.pc.result.Some? {
      var i :| call.since <= i < call.pc.at + 1 && SeenAt(s.history, i, call.want, call.pc.result.value, k);
    }
  }
}
