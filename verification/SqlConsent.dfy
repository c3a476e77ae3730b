/**
 The relational registry: tables mandate_states, mandate_current and mandate_state_audit,
 each call one transaction that commits or rolls back. Storage may hold anything here,
 also what no call could have written; reads then refuse.
 */
module SqlConsent {
  import opened Wrappers
  import opened Consent
  import opened IntSets

  // Columns besides the primary key (mandate_id, version). The CHECK constraint on the
  // status column admits exactly the three statuses.
  datatype StateRow = StateRow(status: Status, updatedAt: Time, revokedAt: Option<Time>, supersededBy: Option<int>)

  datatype AuditKey = AuditKey(id: MandateId, sequence: int)

  // event_json is kept as the event it encodes; CanonicalJson proves that the text determines it.
  datatype AuditRow = AuditRow(kind: EventKind, sha: Digest, previousSha: Option<Digest>, event: Event)

  type AuditTable = map<AuditKey, AuditRow>

  datatype Tables = Tables(
    states: map<Key, StateRow>,
    current: map<MandateId, int>,
    audit: AuditTable)

  const EMPTY_TABLES := Tables(map[], map[], map[])

  datatype Lookup = Absent | Corrupt | Undecodable | Present(state: State)

  function AsLookup(current: Option<State>): Lookup {
    if current.Some? then Present(current.value) else Absent
  }

  function Encode(state: State): StateRow {
    StateRow(state.status, state.updatedAt, state.revokedAt, state.supersededBy)
  }

  function Decode(key: Key, row: StateRow): State {
    State(key.id, key.version, row.status, row.updatedAt, row.revokedAt, row.supersededBy)
  }

  function Versions(t: Tables, id: MandateId): set<int> {
    set k | k in t.states && k.id == id :: k.version
  }

  function ActiveVersions(t: Tables, id: MandateId): set<int> {
    set k | k in t.states && k.id == id && t.states[k].status.Active? :: k.version
  }

  // _assert_consistent_unlocked does not raise.
  predicate ConsistentStorage(t: Tables, id: MandateId) {
    id in t.current ==>
      && t.current[id] in Versions(t, id)
      && |ActiveVersions(t, id)| <= 1
      && ActiveVersions(t, id) <= {t.current[id]}
      && forall v :: v in Versions(t, id) ==> v <= t.current[id]
  }

  function ReadRow(t: Tables, key: Key): Lookup {
    if key !in t.states then Absent
    else if Decode(key, t.states[key]).WellFormed() then Present(Decode(key, t.states[key]))
    else Undecodable
  }

  function ReadCurrent(t: Tables, id: MandateId): Lookup {
    if id !in t.current then Absent
    else if !ConsistentStorage(t, id) then Corrupt
    else ReadRow(t, Key(id, t.current[id]))
  }

  // Corrupt storage is annotated like absent storage; a row that does not decode raises.
  function ObservedStatus(found: Lookup): Option<Status> {
    if found.Present? then Some(found.state.status) else None
  }

  function Sequences(audit: AuditTable, id: MandateId): set<int> {
    set k | k in audit && k.id == id :: k.sequence
  }

  // The body of the row that follows the last one: ORDER BY sequence DESC LIMIT 1.
  function BodyAfterLast(audit: AuditTable, entry: Entry): EventBody {
    var sequences := Sequences(audit, entry.id);
    if sequences == {} then EventBody(entry, 1, None)
    else
      var last := Greatest(sequences);
      EventBody(entry, last + 1, Some(audit[AuditKey(entry.id, last)].sha))
  }

  predicate HashTaken(audit: AuditTable, sha: Digest) {
    exists k :: k in audit && audit[k].sha == sha
  }

  function RowFor(body: EventBody, sha: Digest): AuditRow {
    AuditRow(body.entry.kind, sha, body.previousSha, Event(body, sha))
  }

  // None when the UNIQUE constraint on event_sha256 fires. The primary key is free by construction.
  function InsertRow(hash: EventHash, audit: AuditTable, entry: Entry): Option<AuditTable> {
    var body := BodyAfterLast(audit, entry);
    if HashTaken(audit, hash(body)) then None
    else Some(audit[AuditKey(entry.id, body.sequence) := RowFor(body, hash(body))])
  }

  function InsertEvent(hash: EventHash, t: Tables, entry: Entry): Option<Tables> {
    var audit := InsertRow(hash, t.audit, entry);
    if audit.None? then None else Some(t.(audit := audit.value))
  }

  function Store(t: Tables, state: State): Tables {
    t.(states := t.states[Key(state.id, state.version) := Encode(state)])
  }

  function SetCurrent(t: Tables, id: MandateId, version: int): Tables {
    t.(current := t.current[id := version])
  }

  function Commit(before: Tables, after: Option<Tables>, state: Option<State>): (Tables, Outcome) {
    if after.None? then (before, Refused(EventHashNotUnique)) else (after.value, Done(state))
  }

  function RowOf(found: Lookup): Option<State> {
    if found.Present? then Some(found.state) else None
  }

  function Unreadable(found: Lookup): Option<Refusal> {
    if found.Corrupt? then Some(StorageCorrupt)
    else if found.Undecodable? then Some(StorageUndecodable)
    else None
  }

  // Each call, given what its first read found.
  function RegisterFrom(hash: EventHash, t: Tables, found: Lookup, id: MandateId, version: int, at: Time)
    : (Tables, Outcome)
  {
    var current := RowOf(found);
    if id.NotUuid? then (t, Refused(MalformedMandateId))
    else if version < 1 then (t, Refused(InvalidVersion))
    else if Unreadable(found).Some? then (t, Refused(Unreadable(found).value))
    else if current.Some? && current.value.version == version && current.value.status.Active? then (t, Done(current))
    else if RegisterRule(current, version, at).Some? then (t, Refused(RegisterRule(current, version, at).value))
    else
      var state := ActiveState(id, version, at);
      var entry := RegistrationEntry(id, version, StatusOf(current), at, "TRUSTED_SERVER_REGISTRATION");
      Commit(t, InsertEvent(hash, SetCurrent(Store(t, state), id, version), entry), Some(state))
  }

  function RevokeFrom(hash: EventHash, t: Tables, found: Lookup, id: MandateId, version: int, at: Time)
    : (Tables, Outcome)
  {
    var current := RowOf(found);
    if Unreadable(found).Some? then (t, Refused(Unreadable(found).value))
    else if RevokeRule(current, version, at).Some? then (t, Refused(RevokeRule(current, version, at).value))
    else if current.value.status.Revoked? then (t, Done(current))
    else
      var state := current.value.(status := Revoked, updatedAt := at, revokedAt := Some(at));
      Commit(t, InsertEvent(hash, Store(t, state), RevocationEntry(id, version, at)), Some(state))
  }

  function SupersedeFrom(hash: EventHash, t: Tables, found: Lookup, id: MandateId, version: int, next: int,
                         at: Time)
    : (Tables, Outcome)
  {
    var current := RowOf(found);
    if next < 1 then (t, Refused(InvalidVersion))
    else if Unreadable(found).Some? then (t, Refused(Unreadable(found).value))
    else if SupersedeRule(current, version, next, at).Some? then
      (t, Refused(SupersedeRule(current, version, next, at).value))
    else
      var retired := current.value.(status := Superseded, updatedAt := at, supersededBy := Some(next));
      var state := ActiveState(id, next, at);
      var first := InsertEvent(hash, SetCurrent(Store(Store(t, retired), state), id, next),
          SupersessionEntry(id, version, next, at));
      if first.None? then (t, Refused(EventHashNotUnique))
      else
        var entry := RegistrationEntry(id, next, Some(Superseded), at, SuccessorReason(version));
        Commit(t, InsertEvent(hash, first.value, entry), Some(state))
  }

  function RefusalFrom(hash: EventHash, t: Tables, found: Lookup, id: MandateId, version: int, at: Time,
                       reason: string, evidence: Evidence): (Tables, Outcome) {
    if found.Undecodable? then (t, Refused(StorageUndecodable))
    else if id.NotUuid? then (t, Refused(MalformedMandateId))
    else if version < 1 then (t, Refused(InvalidVersion))
    else Commit(t, InsertEvent(hash, t, RefusalEntry(id, version, ObservedStatus(found), at, reason, evidence)), None)
  }

  function SqlApply(hash: EventHash, t: Tables, op: Op): (Tables, Outcome) {
    var found := ReadCurrent(t, op.id);
    match op
    case RegisterActive(id, version, at) => RegisterFrom(hash, t, found, id, version, at)
    case Revoke(id, version, at) => RevokeFrom(hash, t, found, id, version, at)
    case Supersede(id, version, next, at) => SupersedeFrom(hash, t, found, id, version, next, at)
    case RecordRefusal(id, version, at, reason, evidence) =>
      RefusalFrom(hash, t, found, id, version, at, reason, evidence)
  }

  function SqlRun(hash: EventHash, ops: seq<Op>): Tables {
    if ops == [] then EMPTY_TABLES
    else SqlApply(hash, SqlRun(hash, ops[..|ops| - 1]), ops[|ops| - 1]).0
  }

  function SqlOutcomes(hash: EventHash, ops: seq<Op>): seq<Outcome> {
    if ops == [] then []
    else SqlOutcomes(hash, ops[..|ops| - 1]) + [SqlApply(hash, SqlRun(hash, ops[..|ops| - 1]), ops[|ops| - 1]).1]
  }

  // ----- audit_events: SELECT ... ORDER BY sequence, then revalidation of the chain -----

  function EventsAt(t: Tables, id: MandateId, sequences: seq<int>): seq<Event>
    requires forall n :: n in sequences ==> AuditKey(id, n) in t.audit
  {
    seq(|sequences|, i requires 0 <= i < |sequences| => t.audit[AuditKey(id, sequences[i])].event)
  }

  function StoredEvents(t: Tables, id: MandateId): seq<Event> {
    var sequences := Ascending(Sequences(t.audit, id));
    assert forall n :: n in sequences ==> AuditKey(id, n) in t.audit by {
      forall n | n in sequences ensures AuditKey(id, n) in t.audit {
        AscendingMembers(Sequences(t.audit, id), n);
      }
    }
    EventsAt(t, id, sequences)
  }
}
