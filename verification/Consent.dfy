/**
 The consent-state registry: one row per mandate version, one current pointer per
 mandate, and one hash-chained audit log per mandate. This module gives the values
 and the transition rules over Python dictionaries; the relational form is in
 SqlConsent.
 */
module Consent {
  import opened Wrappers
  import Decimal

  // An instant. Aware datetimes compare by instant; their text form is not modelled.
  type Time = int

  // A mandate_id argument: its text, and whether Python's UUID() accepts it.
  datatype MandateId = Uuid(text: string) | NotUuid(text: string)

  datatype Digest = Digest(hex: string)

  datatype Status = Active | Revoked | Superseded

  datatype State = State(
    id: MandateId,
    version: int,
    status: Status,
    updatedAt: Time,
    revokedAt: Option<Time>,
    supersededBy: Option<int>)
  {
    // What MandateState's constructor accepts.
    predicate WellFormed() {
      && id.Uuid?
      && version >= 1
      && match status {
           case Active => revokedAt.None? && supersededBy.None?
           case Revoked => revokedAt == Some(updatedAt) && supersededBy.None?
           case Superseded => revokedAt.None? && supersededBy.Some? && supersededBy.value > version
         }
    }
  }

  function ActiveState(id: MandateId, version: int, at: Time): State {
    State(id, version, Active, at, None, None)
  }

  datatype EventKind = RegisteredActive | MandateRevoked | MandateSuperseded | ExecutionRefused

  datatype Evidence = Evidence(nonce: string, requestSha: Digest, resultSha: Digest)

  // What a caller of _append supplies.
  datatype Entry = Entry(
    id: MandateId,
    version: int,
    kind: EventKind,
    previousStatus: Option<Status>,
    currentStatus: Option<Status>,
    recordedAt: Time,
    reason: string,
    evidence: Option<Evidence>)

  datatype EventBody = EventBody(entry: Entry, sequence: int, previousSha: Option<Digest>)

  datatype Event = Event(body: EventBody, sha: Digest)

  type EventHash = EventBody -> Digest

  // SHA-256 over canonical JSON, taken as collision free on bodies the registry can write.
  ghost predicate CollisionFree(hash: EventHash) {
    forall a: EventBody, b: EventBody :: a.entry.id.Uuid? && b.entry.id.Uuid? && hash(a) == hash(b) ==> a == b
  }

  datatype Refusal =
    | MalformedMandateId
    | InvalidVersion
    | VersionAlreadyUsed
    | MustSupersedeActive
    | TimeMovedBackwards
    | StateMissing
    | VersionNotCurrent
    | NotActive
    | ReplacementNotNewer
    | StorageCorrupt
    | StorageUndecodable
    | EventHashNotUnique
    | Busy

  datatype Outcome = Done(state: Option<State>) | Refused(why: Refusal)

  datatype Op =
    | RegisterActive(id: MandateId, version: int, at: Time)
    | Revoke(id: MandateId, version: int, at: Time)
    | Supersede(id: MandateId, version: int, next: int, at: Time)
    | RecordRefusal(id: MandateId, version: int, at: Time, reason: string, evidence: Evidence)

  datatype Key = Key(id: MandateId, version: int)

  datatype Registry = Registry(
    states: map<Key, State>,
    current: map<MandateId, int>,
    audit: Logs)

  const EMPTY_REGISTRY := Registry(map[], map[], map[])

  // The row under the pointer. A pointer without a row does not occur (see ConsentHistory.Shaped).
  function Current(r: Registry, id: MandateId): Option<State> {
    if id in r.current && Key(id, r.current[id]) in r.states
    then Some(r.states[Key(id, r.current[id])])
    else None
  }

  function Version(r: Registry, id: MandateId, version: int): Option<State> {
    if Key(id, version) in r.states then Some(r.states[Key(id, version)]) else None
  }

  function StatusOf(state: Option<State>): Option<Status> {
    if state.Some? then Some(state.value.status) else None
  }

  type Logs = map<MandateId, seq<Event>>

  function LogOf(logs: Logs, id: MandateId): seq<Event> {
    if id in logs then logs[id] else []
  }

  function Log(r: Registry, id: MandateId): seq<Event> {
    LogOf(r.audit, id)
  }

  function NextEvent(hash: EventHash, log: seq<Event>, entry: Entry): Event {
    var body := EventBody(entry, |log| + 1, if log == [] then None else Some(log[|log| - 1].sha));
    Event(body, hash(body))
  }

  predicate ValidLink(hash: EventHash, log: seq<Event>, i: nat)
    requires i < |log|
  {
    && log[i].body.sequence == i + 1
    && log[i].body.previousSha == (if i == 0 then None else Some(log[i - 1].sha))
    && log[i].sha == hash(log[i].body)
  }

  // What audit_events checks before it returns a log.
  predicate ValidChain(hash: EventHash, log: seq<Event>) {
    forall i :: 0 <= i < |log| ==> ValidLink(hash, log, i)
  }

  function Append(hash: EventHash, log: seq<Event>, entry: Entry): seq<Event> {
    log + [NextEvent(hash, log, entry)]
  }

  function RegistrationEntry(id: MandateId, version: int, previous: Option<Status>, at: Time, reason: string): Entry {
    Entry(id, version, RegisteredActive, previous, Some(Active), at, reason, None)
  }

  function RevocationEntry(id: MandateId, version: int, at: Time): Entry {
    Entry(id, version, MandateRevoked, Some(Active), Some(Revoked), at, "DEMO_USER_REVOCATION", None)
  }

  function SupersessionEntry(id: MandateId, version: int, next: int, at: Time): Entry {
    Entry(id, version, MandateSuperseded, Some(Active), Some(Superseded), at,
          "SUPERSEDED_BY_VERSION_" + Decimal.OfInt(next), None)
  }

  function SuccessorReason(version: int): string {
    "NEW_VERSION_AFTER_" + Decimal.OfInt(version)
  }

  function RefusalEntry(id: MandateId, version: int, observed: Option<Status>, at: Time,
                        reason: string, evidence: Evidence): Entry {
    Entry(id, version, ExecutionRefused, observed, observed, at, reason, Some(evidence))
  }

  // The rules of one transition against the observed current row. Both registries share
  // their text; they differ in how the row is found and how the result is stored.
  function RegisterRule(current: Option<State>, version: int, at: Time): Option<Refusal> {
    if current.None? then None
    else if version <= current.value.version then Some(VersionAlreadyUsed)
    else if current.value.status.Active? then Some(MustSupersedeActive)
    else if at < current.value.updatedAt then Some(TimeMovedBackwards)
    else None
  }

  function RevokeRule(current: Option<State>, version: int, at: Time): Option<Refusal> {
    if current.None? then Some(StateMissing)
    else if current.value.version != version then Some(VersionNotCurrent)
    else if current.value.status.Superseded? then Some(NotActive)
    else if current.value.status.Active? && at < current.value.updatedAt then Some(TimeMovedBackwards)
    else None
  }

  function SupersedeRule(current: Option<State>, version: int, next: int, at: Time): Option<Refusal> {
    if current.None? || current.value.version != version then Some(VersionNotCurrent)
    else if !current.value.status.Active? then Some(NotActive)
    else if next <= version then Some(ReplacementNotNewer)
    else if at < current.value.updatedAt then Some(TimeMovedBackwards)
    else None
  }

  function ApplyRegister(hash: EventHash, r: Registry, id: MandateId, version: int, at: Time)
    : (Registry, Outcome)
  {
    var current := Current(r, id);
    if id.NotUuid? then (r, Refused(MalformedMandateId))
    else if version < 1 then (r, Refused(InvalidVersion))
    else if current.Some? && current.value.version == version && current.value.status.Active? then (r, Done(current))
    else if RegisterRule(current, version, at).Some? then (r, Refused(RegisterRule(current, version, at).value))
    else
      var state := ActiveState(id, version, at);
      var entry := RegistrationEntry(id, version, StatusOf(current), at, "TRUSTED_SERVER_REGISTRATION");
      (Registry(r.states[Key(id, version) := state],
                r.current[id := version],
                r.audit[id := Append(hash, Log(r, id), entry)]),
       Done(Some(state)))
  }

  function ApplyRevoke(hash: EventHash, r: Registry, id: MandateId, version: int, at: Time)
    : (Registry, Outcome)
  {
    var current := Current(r, id);
    if id.NotUuid? then (r, Refused(MalformedMandateId))
    else if RevokeRule(current, version, at).Some? then (r, Refused(RevokeRule(current, version, at).value))
    else if current.value.status.Revoked? then (r, Done(current))
    else
      var state := current.value.(status := Revoked, updatedAt := at, revokedAt := Some(at));
      (Registry(r.states[Key(id, version) := state],
                r.current,
                r.audit[id := Append(hash, Log(r, id), RevocationEntry(id, version, at))]),
       Done(Some(state)))
  }

  function ApplySupersede(hash: EventHash, r: Registry, id: MandateId, version: int, next: int,
                          at: Time)
    : (Registry, Outcome)
  {
    var current := Current(r, id);
    if next < 1 then (r, Refused(InvalidVersion))
    else if id.NotUuid? then (r, Refused(MalformedMandateId))
    else if SupersedeRule(current, version, next, at).Some? then
      (r, Refused(SupersedeRule(current, version, next, at).value))
    else
      var retired := current.value.(status := Superseded, updatedAt := at, supersededBy := Some(next));
      var state := ActiveState(id, next, at);
      var log := Append(hash, Log(r, id), SupersessionEntry(id, version, next, at));
      var entry := RegistrationEntry(id, next, Some(Superseded), at, SuccessorReason(version));
      (Registry(r.states[Key(id, version) := retired][Key(id, next) := state],
                r.current[id := next],
                r.audit[id := Append(hash, log, entry)]),
       Done(Some(state)))
  }

  function ApplyRefusal(hash: EventHash, r: Registry, id: MandateId, version: int, at: Time,
                        reason: string, evidence: Evidence): (Registry, Outcome) {
    if id.NotUuid? then (r, Refused(MalformedMandateId))
    else if version < 1 then (r, Refused(InvalidVersion))
    else
      var entry := RefusalEntry(id, version, StatusOf(Current(r, id)), at, reason, evidence);
      (r.(audit := r.audit[id := Append(hash, Log(r, id), entry)]), Done(None))
  }

  function Apply(hash: EventHash, r: Registry, op: Op): (Registry, Outcome) {
    match op
    case RegisterActive(id, version, at) => ApplyRegister(hash, r, id, version, at)
    case Revoke(id, version, at) => ApplyRevoke(hash, r, id, version, at)
    case Supersede(id, version, next, at) => ApplySupersede(hash, r, id, version, next, at)
    case RecordRefusal(id, version, at, reason, evidence) => ApplyRefusal(hash, r, id, version, at, reason, evidence)
  }

  /** The registry after a sequence of calls, oldest first. */
  function Run(hash: EventHash, ops: seq<Op>): Registry {
    if ops == [] then EMPTY_REGISTRY
    else Apply(hash, Run(hash, ops[..|ops| - 1]), ops[|ops| - 1]).0
  }

  /** What the calls returned. */
  function Outcomes(hash: EventHash, ops: seq<Op>): seq<Outcome> {
    if ops == [] then []
    else Outcomes(hash, ops[..|ops| - 1]) + [Apply(hash, Run(hash, ops[..|ops| - 1]), ops[|ops| - 1]).1]
  }
}
