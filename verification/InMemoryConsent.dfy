/** The in-memory registry: three dictionaries updated in place by each call. */
module InMemoryConsent {
  import opened Wrappers
  import opened Consent

  class InMemoryRegistry {
    const hash: EventHash
    var states: map<Key, State>
    var current: map<MandateId, int>
    var audit: map<MandateId, seq<Event>>

    ghost function Value(): Registry
      reads this
    {
      Registry(states, current, audit)
    }

    constructor (hash: EventHash)
      ensures Value() == EMPTY_REGISTRY && this.hash == hash
    {
      this.hash := hash;
      states, current, audit := map[], map[], map[];
    }

    method GetCurrent(id: MandateId) returns (answer: Outcome)
      ensures answer == if id.NotUuid? then Refused(MalformedMandateId) else Done(Current(Value(), id))
    {
      if id.NotUuid? {
        return Refused(MalformedMandateId);
      }
      if id in current && Key(id, current[id]) in states {
        return Done(Some(states[Key(id, current[id])]));
      }
      return Done(None);
    }

    method AppendEvent(entry: Entry)
      modifies this`audit
      ensures audit == old(audit)[entry.id := Append(hash, Log(old(Value()), entry.id), entry)]
    {
      var events := if entry.id in audit then audit[entry.id] else [];
      var previous := if events == [] then None else Some(events[|events| - 1].sha);
      var body := EventBody(entry, |events| + 1, previous);
      audit := audit[entry.id := events + [Event(body, hash(body))]];
    }

    method RegisterActive(id: MandateId, version: int, at: Time) returns (outcome: Outcome)
      modifies this
      ensures (Value(), outcome) == ApplyRegister(hash, old(Value()), id, version, at)
    {
      if id.NotUuid? {
        return Refused(MalformedMandateId);
      }
      if version < 1 {
        return Refused(InvalidVersion);
      }
      var answer := GetCurrent(id);
      var found := answer.state;
      if found.Some? {
        if found.value.version == version && found.value.status.Active? {
          return Done(found);
        }
        if version <= found.value.version {
          return Refused(VersionAlreadyUsed);
        }
        if found.value.status.Active? {
          return Refused(MustSupersedeActive);
        }
        if at < found.value.updatedAt {
          return Refused(TimeMovedBackwards);
        }
      }
      var state := State(id, version, Active, at, None, None);
      states := states[Key(id, version) := state];
      current := current[id := version];
      AppendEvent(RegistrationEntry(id, version, StatusOf(found), at, "TRUSTED_SERVER_REGISTRATION"));
      return Done(Some(state));
    }

    method Revoke(id: MandateId, version: int, at: Time) returns (outcome: Outcome)
      modifies this
      ensures (Value(), outcome) == ApplyRevoke(hash, old(Value()), id, version, at)
    {
      var answer := GetCurrent(id);
      if answer.Refused? {
        return answer;
      }
      var found := answer.state;
      if found.None? {
        return Refused(StateMissing);
      }
      if found.value.version != version {
        return Refused(VersionNotCurrent);
      }
      if found.value.status.Revoked? {
        return Done(found);
      }
      if !found.value.status.Active? {
        return Refused(NotActive);
      }
      if at < found.value.updatedAt {
        return Refused(TimeMovedBackwards);
      }
      var state := found.value.(status := Revoked, updatedAt := at, revokedAt := Some(at));
      states := states[Key(id, version) := state];
      AppendEvent(RevocationEntry(id, version, at));
      return Done(Some(state));
    }

    method Supersede(id: MandateId, version: int, next: int, at: Time) returns (outcome: Outcome)
      modifies this
      ensures (Value(), outcome) == ApplySupersede(hash, old(Value()), id, version, next, at)
    {
      if next < 1 {
        return Refused(InvalidVersion);
      }
      var answer := GetCurrent(id);
      if answer.Refused? {
        return answer;
      }
      var found := answer.state;
      if found.None? || found.value.version != version {
        return Refused(VersionNotCurrent);
      }
      if !found.value.status.Active? {
        return Refused(NotActive);
      }
      if next <= version {
        return Refused(ReplacementNotNewer);
      }
      if at < found.value.updatedAt {
        return Refused(TimeMovedBackwards);
      }
      var retired := found.value.(status := Superseded, updatedAt := at, supersededBy := Some(next));
      var state := State(id, next, Active, at, None, None);
      states := states[Key(id, version) := retired];
      states := states[Key(id, next) := state];
      current := current[id := next];
      AppendEvent(SupersessionEntry(id, version, next, at));
      AppendEvent(RegistrationEntry(id, next, Some(Superseded), at, SuccessorReason(version)));
      assert audit == old(audit)[id := audit[id]];
      return Done(Some(state));
    }

    method RecordExecutionRefusal(id: MandateId, version: int, at: Time, reason: string, evidence: Evidence)
      returns (outcome: Outcome)
      modifies this
      ensures (Value(), outcome) == ApplyRefusal(hash, old(Value()), id, version, at, reason, evidence)
    {
      var answer := GetCurrent(id);
      if answer.Refused? {
        return answer;
      }
      var observed := answer.state;
      if version < 1 {
        return Refused(InvalidVersion);
      }
      AppendEvent(RefusalEntry(id, version, StatusOf(observed), at, reason, evidence));
      return Done(None);
    }

    method AuditEvents(id: MandateId) returns (events: seq<Event>)
      ensures events == Log(Value(), id)
    {
      events := if id in audit then audit[id] else [];
    }
  }
}
