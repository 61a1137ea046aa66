/**
 The persisted record of one managed tunnel: lifecycle states, validation, load, save and reset.
 A save either replaces the record or leaves the old one.
 */
module TunnelStore {
  import opened Wrappers

  datatype State =
    | Unknown | Starting | Healthy | Reconnecting | AuthRequired | HostKeyError | LocalDaemonDown
    | RemoteDown | RemoteStale | RemoteUnverified | RemoteUnknown | IdentityHelperMissing
    | IdentityEndpointUnavailable | IdentityMismatch | RemoteTokenInvalid | PortConflict | ConfigError
    | CrashLoop | Stopped

  // The remote probe's classification; `NotProbed` is the empty string of a record without one.
  datatype Remote = NotProbed | Ok | Down | Stale | Unverified | Inconclusive

  function Name(s: State): string {
    match s
    case Unknown => "unknown"
    case Starting => "starting"
    case Healthy => "healthy"
    case Reconnecting => "reconnecting"
    case AuthRequired => "auth-required"
    case HostKeyError => "host-key-error"
    case LocalDaemonDown => "local-daemon-down"
    case RemoteDown => "remote-down"
    case RemoteStale => "remote-stale"
    case RemoteUnverified => "remote-unverified"
    case RemoteUnknown => "remote-unknown"
    case IdentityHelperMissing => "identity-helper-missing"
    case IdentityEndpointUnavailable => "identity-endpoint-unavailable"
    case IdentityMismatch => "identity-mismatch"
    case RemoteTokenInvalid => "remote-token-invalid"
    case PortConflict => "port-conflict"
    case ConfigError => "config-error"
    case CrashLoop => "crash-loop"
    case Stopped => "stopped"
  }

  function RemoteName(r: Remote): string {
    match r
    case NotProbed => ""
    case Ok => "ok"
    case Down => "down"
    case Stale => "stale"
    case Unverified => "unverified"
    case Inconclusive => "unknown"
  }

  const ALL_STATES: seq<State> := [
    Unknown, Starting, Healthy, Reconnecting, LocalDaemonDown, AuthRequired, HostKeyError, RemoteDown, RemoteStale,
    RemoteUnverified, RemoteUnknown, IdentityHelperMissing, IdentityEndpointUnavailable, IdentityMismatch,
    RemoteTokenInvalid, PortConflict, ConfigError, CrashLoop, Stopped]

  /** Anything outside the known set, the empty string included, is an error. */
  function ParseState(s: string): Option<State> {
    ParseIn(s, ALL_STATES)
  }

  function ParseIn(s: string, known: seq<State>): Option<State> {
    if known == [] then None
    else if s == Name(known[0]) then Some(known[0])
    else ParseIn(s, known[1..])
  }

  // ---------- names ----------

  predicate Plain(s: string) {
    forall i :: 0 <= i < |s| ==> s[i] != '|'
  }

  /** Length and third letter tell the names apart. */
  function Code(s: State): (int, char) {
    match s
    case Unknown => (7, 'k')
    case Starting => (8, 'a')
    case Healthy => (7, 'a')
    case Reconnecting => (12, 'c')
    case AuthRequired => (13, 't')
    case HostKeyError => (14, 's')
    case LocalDaemonDown => (17, 'c')
    case RemoteDown => (11, 'm')
    case RemoteStale => (12, 'm')
    case RemoteUnverified => (17, 'm')
    case RemoteUnknown => (14, 'm')
    case IdentityHelperMissing => (23, 'e')
    case IdentityEndpointUnavailable => (29, 'e')
    case IdentityMismatch => (17, 'e')
    case RemoteTokenInvalid => (20, 'm')
    case PortConflict => (13, 'r')
    case ConfigError => (12, 'n')
    case CrashLoop => (10, 'a')
    case Stopped => (7, 'o')
  }

  lemma NameShape(s: State)
    ensures |Name(s)| == Code(s).0 && Name(s)[2] == Code(s).1
  {
  }

  lemma NamePlain(s: State)
    ensures Plain(Name(s))
  {
    if Code(s).0 <= 10 {
      ShortNamePlain(s);
    } else if Code(s).0 <= 13 {
      MiddleNamePlain(s);
    } else if Code(s).0 <= 17 {
      LongNamePlain(s);
    } else {
      LongestNamePlain(s);
    }
  }

  lemma ShortNamePlain(s: State)
    requires Code(s).0 <= 10
    ensures Plain(Name(s))
  {
  }

  lemma MiddleNamePlain(s: State)
    requires 10 < Code(s).0 <= 13
    ensures Plain(Name(s))
  {
  }

  lemma LongNamePlain(s: State)
    requires 13 < Code(s).0 <= 17
    ensures Plain(Name(s))
  {
  }

  lemma LongestNamePlain(s: State)
    requires 17 < Code(s).0
    ensures Plain(Name(s))
  {
  }

  lemma NameInjective(s: State, t: State)
    requires Name(s) == Name(t)
    ensures s == t
  {
    NameShape(s);
    NameShape(t);
  }

  lemma RemoteNameInjective(r: Remote, t: Remote)
    ensures Plain(RemoteName(r))
    ensures RemoteName(r) == RemoteName(t) ==> r == t
  {
    assert RemoteName(r) == [] || RemoteName(r)[0] in {'o', 'd', 's', 'u'};
  }

  lemma {:induction false} ParseFinds(s: State, known: seq<State>)
    requires s in known
    ensures ParseIn(Name(s), known) == Some(s)
  {
    if Name(s) == Name(known[0]) {
      NameInjective(s, known[0]);
    } else {
      ParseFinds(s, known[1..]);
    }
  }

  /** Reading back a saved state gives that state, and nothing else parses. */
  lemma {:induction false} ParseStateMeans(text: string)
    ensures ParseState(text).Some? <==> exists s: State :: text == Name(s)
    ensures forall s: State :: ParseState(text) == Some(s) <==> text == Name(s)
  {
    forall s: State ensures ParseState(text) == Some(s) <==> text == Name(s) {
      InAllStates(s);
      ParseFinds(s, ALL_STATES);
      ParseNames(text, ALL_STATES);
      if text == Name(s) {
        assert ParseState(text) == Some(s);
      }
    }
    ParseNames(text, ALL_STATES);
  }

  lemma InAllStates(s: State)
    ensures s in ALL_STATES
  {
    var k := match s
      case Unknown => 0 case Starting => 1 case Healthy => 2 case Reconnecting => 3 case LocalDaemonDown => 4
      case AuthRequired => 5 case HostKeyError => 6 case RemoteDown => 7 case RemoteStale => 8
      case RemoteUnverified => 9 case RemoteUnknown => 10 case IdentityHelperMissing => 11
      case IdentityEndpointUnavailable => 12 case IdentityMismatch => 13 case RemoteTokenInvalid => 14
      case PortConflict => 15 case ConfigError => 16 case CrashLoop => 17 case Stopped => 18;
    assert ALL_STATES[k] == s;
  }

  lemma {:induction false} ParseNames(text: string, known: seq<State>)
    ensures ParseIn(text, known).Some? ==> text == Name(ParseIn(text, known).value)
  {
    if known != [] && text != Name(known[0]) {
      ParseNames(text, known[1..]);
    }
  }

  // ---------- the record ----------

  const SCHEMA_VERSION := 1

  datatype Spec = Spec(host: string, port: int, expectedInstanceID: string)

  datatype Runtime = Runtime(state: State, remote: Remote, lastError: string, failures: int)

  datatype Record = Record(version: int, spec: Spec, runtime: Runtime)

  predicate Validate(rec: Record) {
    && rec.version == SCHEMA_VERSION
    && rec.spec.host != ""
    && 1 <= rec.spec.port <= 65535
    && rec.spec.expectedInstanceID != ""
  }

  /** The file's fields: states are the strings that were written. */
  datatype Raw = Raw(version: int, spec: Spec, state: string, remote: string, lastError: string, failures: int)

  function Encode(rec: Record): Raw {
    Raw(rec.version, rec.spec, Name(rec.runtime.state), RemoteName(rec.runtime.remote),
        rec.runtime.lastError, rec.runtime.failures)
  }

  function ParseRemote(s: string): Option<Remote> {
    if s == "" then Some(NotProbed)
    else if s == "ok" then Some(Ok)
    else if s == "down" then Some(Down)
    else if s == "stale" then Some(Stale)
    else if s == "unverified" then Some(Unverified)
    else if s == "unknown" then Some(Inconclusive)
    else None
  }

  /** Everything that cannot be validated is an error; nothing is coerced into a state. */
  function Decode(raw: Raw): Option<Record> {
    var state, remote := ParseState(raw.state), ParseRemote(raw.remote);
    if state.None? || remote.None? then None
    else
      var rec := Record(raw.version, raw.spec, Runtime(state.value, remote.value, raw.lastError, raw.failures));
      if Validate(rec) then Some(rec) else None
  }

  /** What was saved loads as the same record, and what loads is what was saved. */
  lemma DecodeMeans(raw: Raw, rec: Record)
    ensures Decode(raw) == Some(rec) <==> Validate(rec) && raw == Encode(rec)
  {
    ParseStateMeans(raw.state);
    RemoteNameInjective(rec.runtime.remote, rec.runtime.remote);
    if Decode(raw) == Some(rec) {
      assert raw.state == Name(rec.runtime.state);
    }
  }

  datatype Disk = Absent | Corrupt | Stored(record: Record)

  datatype LoadResult = Loaded(record: Record) | NotExist | LoadError

  // ---------- what happened on a store, for counting ----------

  /** A saved failure that came before the starting gate or outlived it, a saved clean stop, a reset. */
  datatype Milestone = EarlyFailure | LateFailure | CleanStop | WasReset

  /** Early failures since the last late failure, clean stop or reset. */
  ghost function Count(history: seq<Milestone>): nat {
    if history == [] || !history[|history| - 1].EarlyFailure? then 0
    else 1 + Count(history[..|history| - 1])
  }

  lemma CountPushed(history: seq<Milestone>, e: Milestone)
    ensures Count(history + [e]) == if e.EarlyFailure? then Count(history) + 1 else 0
  {
    assert (history + [e])[..|history|] == history;
  }

  /** The count is of exactly the early failures at the end: those after the last late failure, clean stop or reset. */
  lemma {:induction false} CountMeans(history: seq<Milestone>)
    ensures var start := |history| - Count(history);
      && 0 <= start
      && (forall i :: start <= i < |history| ==> history[i].EarlyFailure?)
      && (start > 0 ==> !history[start - 1].EarlyFailure?)
  {
    if history != [] && history[|history| - 1].EarlyFailure? {
      CountMeans(history[..|history| - 1]);
    }
  }

  /** The failure count a run that loads this record starts from. */
  function Effective(rec: Record): int {
    if rec.runtime.state.Stopped? then 0 else rec.runtime.failures
  }

  function FirstRecord(spec: Spec): Record {
    Record(SCHEMA_VERSION, spec, Runtime(Unknown, NotProbed, "", 0))
  }

  class Store {
    var disk: Disk
    ghost var history: seq<Milestone>

    predicate Legible()
      reads this
    {
      disk.Stored? && Validate(disk.record)
    }

    /** There is a file, but it holds no record, or no valid one. */
    predicate Unreadable()
      reads this
    {
      !disk.Absent? && !Legible()
    }

    /** A record that can be read counts the history, and is a crash loop once the count reached `threshold`. */
    ghost predicate Counts(threshold: int)
      reads this
    {
      && threshold > 0
      && (disk.Absent? ==> Count(history) == 0)
      && (Legible() ==>
        && Effective(disk.record) == Count(history)
        && (Count(history) >= threshold <==> disk.record.runtime.state.CrashLoop?))
    }

    constructor ()
      ensures disk == Absent && history == []
    {
      disk, history := Absent, [];
    }

    method Load() returns (r: LoadResult)
      ensures r.Loaded? <==> Legible()
      ensures r.Loaded? ==> r.record == disk.record
      ensures r.Loaded? ==> var rec := r.record;
        rec.version == 1 && rec.spec.host != "" && 1 <= rec.spec.port <= 65535 && rec.spec.expectedInstanceID != ""
      ensures r.NotExist? <==> disk.Absent?
    {
      match disk {
        case Absent => r := NotExist;
        case Corrupt => r := LoadError;
        case Stored(rec) => r := if Validate(rec) then Loaded(rec) else LoadError;
      }
    }

    /** Something else spoils the file: it holds `file`, if that is not valid, or nothing that can be read. */
    method Damage(file: Option<Record>)
      modifies this`disk
      ensures Unreadable()
    {
      disk := if file.Some? && !Validate(file.value) then Stored(file.value) else Corrupt;
    }

    /** `io` says whether the file system plays along; `events` is what a success records. */
    method Save(rec: Record, io: bool, ghost events: seq<Milestone>) returns (ok: bool)
      modifies this
      ensures ok == (io && Validate(rec))
      ensures if ok then disk == Stored(rec) && history == old(history) + events
              else disk == old(disk) && history == old(history)
    {
      ok := io && Validate(rec);
      if ok {
        disk := Stored(rec);
        history := history + events;
      }
    }

    /** A skipped save: the record already says so, only the history grows. */
    ghost method Confirm(events: seq<Milestone>)
      modifies this`history
      ensures history == old(history) + events
    {
      history := history + events;
    }

    /** The operator's way out of a corrupt record or an open circuit breaker, whatever the file holds. */
    method Reset(spec: Spec, io: bool, ghost threshold: int) returns (ok: bool)
      requires threshold > 0
      modifies this
      ensures ok <==> io && Validate(FirstRecord(spec))
      ensures ok ==> Counts(threshold) && Count(history) == 0
      ensures ok ==> disk == Stored(Record(1, spec, Runtime(Unknown, NotProbed, "", 0)))
      ensures !ok ==> disk == old(disk) && history == old(history)
    {
      ok := Save(FirstRecord(spec), io, [WasReset]);
      CountPushed(old(history), WasReset);
    }
  }
}
