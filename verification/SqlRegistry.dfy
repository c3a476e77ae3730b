/** The registry object over the tables: every call is one transaction on one connection. */
module SqlRegistry {
  import opened Wrappers
  import opened Consent
  import opened SqlConsent
  import opened IntSets

  lemma VersionsAre(t: Tables, id: MandateId, versions: set<int>)
    requires forall v :: v in versions <==> Key(id, v) in t.states
    ensures Versions(t, id) == versions
  {
    forall v | v in versions ensures v in Versions(t, id) {
      assert Key(id, v).version == v;
    }
  }

  // A list of the ACTIVE versions without repetitions has as many entries as there are ACTIVE versions.
  lemma ActiveVersionsAre(t: Tables, id: MandateId, active: seq<int>)
    requires forall v :: v in active <==> Key(id, v) in t.states && t.states[Key(id, v)].status.Active?
    requires forall j, k :: 0 <= j < k < |active| ==> active[j] != active[k]
    ensures |ActiveVersions(t, id)| == |active|
    ensures forall v :: v in ActiveVersions(t, id) <==> v in active
  {
    forall v | v in active ensures v in ActiveVersions(t, id) {
      assert Key(id, v).version == v;
    }
    SetSize(active, ActiveVersions(t, id));
  }

  class SqlMandateRegistry {
    const hash: EventHash
    var states: map<Key, StateRow>
    var current: map<MandateId, int>
    var audit: map<AuditKey, AuditRow>

    // The committed tables while a transaction is open.
    var inTransaction: bool
    var saved: Tables

    ghost function Value(): Tables
      reads this
    {
      Tables(states, current, audit)
    }

    constructor (hash: EventHash)
      ensures Value() == EMPTY_TABLES && this.hash == hash && !inTransaction
    {
      this.hash := hash;
      states, current, audit := map[], map[], map[];
      inTransaction, saved := false, EMPTY_TABLES;
    }

    // BEGIN IMMEDIATE; lockFree says whether both locks were obtained within the wait budget.
    method Begin(lockFree: bool) returns (begun: bool)
      requires !inTransaction
      modifies this`inTransaction, this`saved
      ensures begun == lockFree == inTransaction
      ensures begun ==> saved == Value()
    {
      if lockFree {
        saved := Tables(states, current, audit);
        inTransaction := true;
      }
      return lockFree;
    }

    method CommitTransaction()
      requires inTransaction
      modifies this`inTransaction
      ensures !inTransaction
    {
      inTransaction := false;
    }

    method Rollback()
      requires inTransaction
      modifies this
      ensures !inTransaction && Value() == old(saved)
    {
      states, current, audit := saved.states, saved.current, saved.audit;
      inTransaction := false;
    }

    // How the guarded block ends: normally, or by an exception.
    method EndTransaction(commit: bool)
      requires inTransaction
      modifies this
      ensures !inTransaction && Value() == if commit then old(Value()) else old(saved)
    {
      if commit {
        CommitTransaction();
      } else {
        Rollback();
      }
    }

    // SELECT version, status ... WHERE mandate_id = ?, as a dictionary.
    method StatusByVersion(id: MandateId) returns (versions: map<int, Status>)
      ensures forall v :: v in versions <==> Key(id, v) in states
      ensures forall v :: v in versions ==> versions[v] == states[Key(id, v)].status
    {
      versions := map k | k in states && k.id == id :: k.version := states[k].status;
      assert forall v :: Key(id, v) in states ==> Key(id, v).version in versions;
    }

    // The ACTIVE versions, ascending, and those newer than the pointer.
    method ActiveAndNewer(versions: map<int, Status>, pointer: int) returns (active: seq<int>, newer: seq<int>)
      ensures forall v :: v in active <==> v in versions && versions[v].Active?
      ensures forall v :: v in newer <==> v in versions && v > pointer
      ensures forall j, k :: 0 <= j < k < |active| ==> active[j] != active[k]
    {
      var listed := Ascending(versions.Keys);
      AscendingListsOnce(versions.Keys);
      active, newer := [], [];
      for i := 0 to |listed|
        invariant forall v :: v in active <==> v in listed[..i] && v in versions && versions[v].Active?
        invariant forall v :: v in newer <==> v in listed[..i] && v > pointer
        invariant forall j, k :: 0 <= j < k < |active| ==> active[j] != active[k]
      {
        var v := listed[i];
        assert listed[..i + 1] == listed[..i] + [v] && v in versions && v !in listed[..i];
        if versions[v].Active? {
          active := active + [v];
        }
        if v > pointer {
          newer := newer + [v];
        }
      }
      assert listed[..|listed|] == listed;
    }

    // _assert_consistent_unlocked; the pointer it returns counts only when it does not raise.
    method AssertConsistent(id: MandateId) returns (pointer: Option<int>, consistent: bool)
      ensures consistent <==> ConsistentStorage(Value(), id)
      ensures consistent ==> pointer == if id in current then Some(current[id]) else None
    {
      if id !in current {
        return None, true;
      }
      var versions := StatusByVersion(id);
      VersionsAre(Value(), id, versions.Keys);
      if current[id] !in versions {
        return None, false;
      }
      var active, newer := ActiveAndNewer(versions, current[id]);
      ActiveVersionsAre(Value(), id, active);
      if |active| > 1 {
        return None, false;
      }
      if active != [] && active[0] != current[id] {
        assert active[0] in ActiveVersions(Value(), id);
        return None, false;
      }
      if newer != [] {
        var v := newer[0];
        assert v in newer && v in versions.Keys;
        return None, false;
      }
      assert forall v :: v in Versions(Value(), id) ==> v !in newer;
      return Some(current[id]), true;
    }

    method GetCurrent(id: MandateId) returns (found: Lookup)
      ensures found == ReadCurrent(Value(), id)
    {
      var pointer, consistent := AssertConsistent(id);
      if !consistent {
        return Corrupt;
      }
      if pointer.None? {
        return Absent;
      }
      found := GetVersion(id, pointer.value);
    }

    method GetVersion(id: MandateId, version: int) returns (found: Lookup)
      ensures found == ReadRow(Value(), Key(id, version))
    {
      if Key(id, version) !in states {
        return Absent;
      }
      var row := states[Key(id, version)];
      var state := State(id, version, row.status, row.updatedAt, row.revokedAt, row.supersededBy);
      return if state.WellFormed() then Present(state) else Undecodable;
    }

    method StoreState(state: State)
      modifies this`states
      ensures Value() == Store(old(Value()), state)
    {
      states := states[Key(state.id, state.version) := Encode(state)];
    }

    method SetCurrentVersion(id: MandateId, version: int)
      modifies this`current
      ensures Value() == SetCurrent(old(Value()), id, version)
    {
      current := current[id := version];
    }

    // False when the UNIQUE constraint on event_sha256 rejects the row.
    method AppendUnlocked(entry: Entry) returns (inserted: bool)
      modifies this`audit
      ensures inserted <==> InsertEvent(hash, old(Value()), entry).Some?
      ensures Value() == if inserted then InsertEvent(hash, old(Value()), entry).value else old(Value())
    {
      var sequences := Sequences(audit, entry.id);
      var sequence := 1;
      var previous := None;
      if sequences != {} {
        sequence := Greatest(sequences) + 1;
        previous := Some(audit[AuditKey(entry.id, sequence - 1)].sha);
      }
      var body := EventBody(entry, sequence, previous);
      var sha := hash(body);
      if HashTaken(audit, sha) {
        return false;
      }
      audit := audit[AuditKey(entry.id, sequence) := AuditRow(entry.kind, sha, previous, Event(body, sha))];
      return true;
    }

    // Both rows, the pointer and two events; after a failure the caller rolls back.
    method Replace(retired: State, state: State, first: Entry, second: Entry) returns (inserted: bool)
      modifies this`states, this`current, this`audit
      ensures var t := SetCurrent(Store(Store(old(Value()), retired), state), state.id, state.version);
              var mid := InsertEvent(hash, t, first);
              && (inserted <==> mid.Some? && InsertEvent(hash, mid.value, second).Some?)
              && (inserted ==> Value() == InsertEvent(hash, mid.value, second).value)
    {
      StoreState(retired);
      StoreState(state);
      SetCurrentVersion(state.id, state.version);
      inserted := AppendUnlocked(first);
      if inserted {
        inserted := AppendUnlocked(second);
      }
    }

    method RegisterActive(id: MandateId, version: int, at: Time, lockFree: bool) returns (outcome: Outcome)
      requires !inTransaction
      modifies this
      ensures !inTransaction
      ensures (id.Uuid? && version >= 1 && !lockFree) ==> Value() == old(Value()) && outcome == Refused(Busy)
      ensures (id.NotUuid? || version < 1 || lockFree) ==>
              (Value(), outcome) == SqlApply(hash, old(Value()), Op.RegisterActive(id, version, at))
    {
      if id.NotUuid? {
        return Refused(MalformedMandateId);
      }
      if version < 1 {
        return Refused(InvalidVersion);
      }
      var begun := Begin(lockFree);
      if !begun {
        return Refused(Busy);
      }
      var found := GetCurrent(id);
      if found.Corrupt? || found.Undecodable? {
        Rollback();
        return Refused(if found.Corrupt? then StorageCorrupt else StorageUndecodable);
      }
      if found.Present? {
        var row := found.state;
        if row.version == version && row.status.Active? {
          CommitTransaction();
          return Done(Some(row));
        }
        if version <= row.version {
          Rollback();
          return Refused(VersionAlreadyUsed);
        }
        if row.status.Active? {
          Rollback();
          return Refused(MustSupersedeActive);
        }
        if at < row.updatedAt {
          Rollback();
          return Refused(TimeMovedBackwards);
        }
      }
      var state := State(id, version, Active, at, None, None);
      StoreState(state);
      SetCurrentVersion(id, version);
      var inserted := AppendUnlocked(
        RegistrationEntry(id, version, StatusOf(RowOf(found)), at, "TRUSTED_SERVER_REGISTRATION"));
      if !inserted {
        Rollback();
        return Refused(EventHashNotUnique);
      }
      CommitTransaction();
      return Done(Some(state));
    }

    method Revoke(id: MandateId, version: int, at: Time, lockFree: bool) returns (outcome: Outcome)
      requires !inTransaction
      modifies this
      ensures !inTransaction
      ensures !lockFree ==> Value() == old(Value()) && outcome == Refused(Busy)
      ensures lockFree ==> (Value(), outcome) == SqlApply(hash, old(Value()), Op.Revoke(id, version, at))
    {
      var begun := Begin(lockFree);
      if !begun {
        return Refused(Busy);
      }
      var found := GetCurrent(id);
      if found.Corrupt? || found.Undecodable? {
        Rollback();
        return Refused(if found.Corrupt? then StorageCorrupt else StorageUndecodable);
      }
      if found.Absent? {
        Rollback();
        return Refused(StateMissing);
      }
      var row := found.state;
      if row.version != version {
        Rollback();
        return Refused(VersionNotCurrent);
      }
      if row.status.Revoked? {
        CommitTransaction();
        return Done(Some(row));
      }
      if !row.status.Active? {
        Rollback();
        return Refused(NotActive);
      }
      if at < row.updatedAt {
        Rollback();
        return Refused(TimeMovedBackwards);
      }
      var state := row.(status := Revoked, updatedAt := at, revokedAt := Some(at));
      StoreState(state);
      var inserted := AppendUnlocked(RevocationEntry(id, version, at));
      if !inserted {
        Rollback();
        return Refused(EventHashNotUnique);
      }
      CommitTransaction();
      return Done(Some(state));
    }

    method Supersede(id: MandateId, version: int, next: int, at: Time, lockFree: bool) returns (outcome: Outcome)
      requires !inTransaction
      modifies this
      ensures !inTransaction
      ensures next >= 1 && !lockFree ==> Value() == old(Value()) && outcome == Refused(Busy)
      ensures next < 1 || lockFree ==>
                (Value(), outcome) == SqlApply(hash, old(Value()), Op.Supersede(id, version, next, at))
    {
      if next < 1 {
        return Refused(InvalidVersion);
      }
      var begun := Begin(lockFree);
      if !begun {
        return Refused(Busy);
      }
      var found := GetCurrent(id);
      if found.Corrupt? || found.Undecodable? {
        Rollback();
        return Refused(if found.Corrupt? then StorageCorrupt else StorageUndecodable);
      }
      if found.Absent? || found.state.version != version {
        Rollback();
        return Refused(VersionNotCurrent);
      }
      var row := found.state;
      if !row.status.Active? {
        Rollback();
        return Refused(NotActive);
      }
      if next <= version {
        Rollback();
        return Refused(ReplacementNotNewer);
      }
      if at < row.updatedAt {
        Rollback();
        return Refused(TimeMovedBackwards);
      }
      var retired := row.(status := Superseded, updatedAt := at, supersededBy := Some(next));
      var state := State(id, next, Active, at, None, None);
      var inserted := Replace(
        retired, state, SupersessionEntry(id, version, next, at),
        RegistrationEntry(id, next, Some(Superseded), at, SuccessorReason(version)));
      if !inserted {
        Rollback();
        return Refused(EventHashNotUnique);
      }
      CommitTransaction();
      return Done(Some(state));
    }

    // Inside a guarded execution the event joins the open transaction; outside it has its own.
    method RecordExecutionRefusal(id: MandateId, version: int, at: Time, reason: string, evidence: Evidence,
                                  lockFree: bool)
      returns (outcome: Outcome)
      modifies this
      ensures inTransaction == old(inTransaction)
      ensures inTransaction ==> saved == old(saved)
      ensures !inTransaction && !lockFree ==> Value() == old(Value()) && outcome == Refused(Busy)
      ensures inTransaction || lockFree ==>
                (Value(), outcome) == SqlApply(hash, old(Value()), RecordRefusal(id, version, at, reason, evidence))
    {
      if inTransaction {
        outcome := AppendRefusal(id, version, at, reason, evidence);
        return;
      }
      var begun := Begin(lockFree);
      if !begun {
        return Refused(Busy);
      }
      outcome := AppendRefusal(id, version, at, reason, evidence);
      if outcome.Done? {
        CommitTransaction();
      } else {
        Rollback();
      }
    }

    method AppendRefusal(id: MandateId, version: int, at: Time, reason: string, evidence: Evidence)
      returns (outcome: Outcome)
      modifies this`audit
      ensures (Value(), outcome) == SqlApply(hash, old(Value()), RecordRefusal(id, version, at, reason, evidence))
    {
      var found := GetCurrent(id);
      if found.Undecodable? {
        return Refused(StorageUndecodable);
      }
      if id.NotUuid? {
        return Refused(MalformedMandateId);
      }
      if version < 1 {
        return Refused(InvalidVersion);
      }
      var inserted := AppendUnlocked(RefusalEntry(id, version, ObservedStatus(found), at, reason, evidence));
      return if inserted then Done(None) else Refused(EventHashNotUnique);
    }

    // None stands for the error raised when the stored chain fails validation.
    method AuditEvents(id: MandateId) returns (events: Option<seq<Event>>)
      ensures events.Some? <==> ValidChain(hash, StoredEvents(Value(), id))
      ensures events.Some? ==> events.value == StoredEvents(Value(), id)
    {
      var stored := StoredEvents(Tables(states, current, audit), id);
      var previous := None;
      for i := 0 to |stored|
        invariant previous == if i == 0 then None else Some(stored[i - 1].sha)
        invariant forall j :: 0 <= j < i ==> ValidLink(hash, stored, j)
      {
        var e := stored[i];
        if e.body.sequence != i + 1 || e.body.previousSha != previous || hash(e.body) != e.sha {
          assert !ValidLink(hash, stored, i);
          return None;
        }
        previous := Some(e.sha);
      }
      return Some(stored);
    }
  }
}
