/**
 What the three consent changes do, call by call: when each succeeds, what it then leaves behind, and which condition
 each refusal stands for. On the dictionaries this is said of every registry a run can reach, on the tables of any
 storage whatever.
 */
module ConsentOutcomes {
  import opened Wrappers
  import opened Consent
  import opened ConsentHistory
  import opened SqlConsent
  import opened IntSets
  import Decimal

  // On reachable storage the current row is the one under the pointer, and it is never SUPERSEDED.
  lemma CurrentIsPointed(r: Registry, id: MandateId)
    requires Shaped(r)
    ensures Current(r, id).Some? <==> id in r.current
    ensures id in r.current ==>
              var k := Key(id, r.current[id]);
              && k in r.states && Current(r, id) == Some(r.states[k])
              && id.Uuid? && r.states[k].id == id && r.states[k].version == r.current[id] >= 1
              && (r.states[k].status.Active? || r.states[k].status.Revoked?)
  {
    if id in r.current {
      var k := Key(id, r.current[id]);
      assert PointerIsGreatest(r.states, r.current) && RowsKeyed(r.states);
      assert k in r.states && r.states[k].WellFormed();
    }
  }

  // ----- What a successful change leaves -----

  // The log of one mandate grew by these entries, each event numbered, linked and hashed; other logs are as they were.
  ghost predicate Records(hash: EventHash, before: Logs, after: Logs, id: MandateId, entries: seq<Entry>) {
    var earlier, log := LogOf(before, id), LogOf(after, id);
    && (forall other :: other != id ==> LogOf(after, other) == LogOf(before, other))
    && |log| == |earlier| + |entries| && log[..|earlier|] == earlier
    && forall i :: 0 <= i < |entries| ==>
         log[|earlier| + i].body.entry == entries[i] && ValidLink(hash, log, |earlier| + i)
  }

  lemma AppendRecords(hash: EventHash, before: Logs, id: MandateId, entry: Entry)
    ensures Records(hash, before, before[id := Append(hash, LogOf(before, id), entry)], id, [entry])
  {
    var earlier := LogOf(before, id);
    var log := Append(hash, earlier, entry);
    assert log[..|earlier|] == earlier && log[|earlier|] == NextEvent(hash, earlier, entry);
    assert ValidLink(hash, log, |earlier|);
  }

  lemma AppendsRecord(hash: EventHash, before: Logs, id: MandateId, first: Entry, second: Entry)
    ensures Records(hash, before,
                    before[id := Append(hash, Append(hash, LogOf(before, id), first), second)], id, [first, second])
  {
    var earlier := LogOf(before, id);
    var log := Append(hash, Append(hash, earlier, first), second);
    assert log[..|earlier|] == earlier;
    assert log[|earlier|] == NextEvent(hash, earlier, first);
    assert ValidLink(hash, log, |earlier|) && ValidLink(hash, log, |earlier| + 1);
  }

  // The event of a registration: its reason is fixed, its previous status is the replaced row's, if any.
  function Registered(id: MandateId, version: int, previous: Option<Status>, at: Time): Entry {
    Entry(id, version, RegisteredActive, previous, Some(Active), at, "TRUSTED_SERVER_REGISTRATION", None)
  }

  /**
   Registration succeeds exactly for a valid id and version when nothing is registered, when that version is already
   ACTIVE, or when the current row is REVOKED, older in version and not later in time.
   */
  lemma RegistersExactlyWhen(hash: EventHash, r: Registry, id: MandateId, version: int, at: Time)
    requires Shaped(r)
    ensures var current := Current(r, id);
            var (r', answer) := Apply(hash, r, RegisterActive(id, version, at));
            && (answer.Done? <==>
                  && id.Uuid? && version >= 1
                  && (current.Some? ==>
                        || (current.value.status.Active? && current.value.version == version)
                        || (current.value.status.Revoked? && version > current.value.version
                            && at >= current.value.updatedAt)))
            && (answer == Refused(MalformedMandateId) <==> id.NotUuid?)
            && (answer == Refused(InvalidVersion) <==> id.Uuid? && version < 1)
            && (answer == Refused(VersionAlreadyUsed) <==>
                  && id.Uuid? && version >= 1 && current.Some?
                  && (version < current.value.version
                      || (version == current.value.version && current.value.status.Revoked?)))
            && (answer == Refused(MustSupersedeActive) <==>
                  id.Uuid? && current.Some? && current.value.status.Active? && version > current.value.version)
            && (answer == Refused(TimeMovedBackwards) <==>
                  && id.Uuid? && current.Some? && current.value.status.Revoked? && version > current.value.version
                  && at < current.value.updatedAt)
            && (answer.Refused? ==> r' == r)
  {
    CurrentIsPointed(r, id);
  }

  /** Registering the ACTIVE version again changes nothing; otherwise one row, the pointer and one event are new. */
  lemma RegistrationLeaves(hash: EventHash, r: Registry, id: MandateId, version: int, at: Time)
    requires Shaped(r) && Apply(hash, r, RegisterActive(id, version, at)).1.Done?
    ensures var current := Current(r, id);
            var (r', answer) := Apply(hash, r, RegisterActive(id, version, at));
            if current.Some? && current.value.status.Active? then r' == r && answer == Done(current)
            else
              var state := State(id, version, Active, at, None, None);
              && answer == Done(Some(state))
              && r'.states == r.states[Key(id, version) := state]
              && r'.current == r.current[id := version]
              && Records(hash, r.audit, r'.audit, id,
                     [Registered(id, version, if current.Some? then Some(Revoked) else None, at)])
  {
    CurrentIsPointed(r, id);
    var current := Current(r, id);
    var entry := Registered(id, version, if current.Some? then Some(current.value.status) else None, at);
    AppendRecords(hash, r.audit, id, entry);
  }

  /**
   Revocation succeeds exactly for a valid id whose current row has that version and is REVOKED, or is ACTIVE and not
   later in time. NotActive is never answered: the current row is never SUPERSEDED.
   */
  lemma RevokesExactlyWhen(hash: EventHash, r: Registry, id: MandateId, version: int, at: Time)
    requires Shaped(r)
    ensures var current := Current(r, id);
            var (r', answer) := Apply(hash, r, Revoke(id, version, at));
            && (answer.Done? <==>
                  && id.Uuid? && current.Some? && current.value.version == version
                  && (current.value.status.Revoked?
                      || (current.value.status.Active? && at >= current.value.updatedAt)))
            && (answer == Refused(MalformedMandateId) <==> id.NotUuid?)
            && (answer == Refused(StateMissing) <==> id.Uuid? && current.None?)
            && (answer == Refused(VersionNotCurrent) <==> current.Some? && current.value.version != version)
            && (answer == Refused(TimeMovedBackwards) <==>
                  && current.Some? && current.value.version == version && current.value.status.Active?
                  && at < current.value.updatedAt)
            && answer != Refused(NotActive)
            && (answer.Refused? ==> r' == r)
  {
    CurrentIsPointed(r, id);
  }

  /**
   Revoking a REVOKED version again changes nothing. Revoking an ACTIVE one leaves its row REVOKED with both times equal
   to the call's, the pointer where it was, and one more event.
   */
  lemma RevocationLeaves(hash: EventHash, r: Registry, id: MandateId, version: int, at: Time)
    requires Shaped(r) && Apply(hash, r, Revoke(id, version, at)).1.Done?
    ensures var current := Current(r, id);
            var (r', answer) := Apply(hash, r, Revoke(id, version, at));
            && current.Some?
            && if current.value.status.Revoked? then r' == r && answer == Done(current)
               else
                 var state := State(id, version, Revoked, at, Some(at), None);
                 && answer == Done(Some(state))
                 && r'.states == r.states[Key(id, version) := state]
                 && r'.current == r.current
                 && Records(hash, r.audit, r'.audit, id,
                        [Entry(id, version, MandateRevoked, Some(Active), Some(Revoked), at, "DEMO_USER_REVOCATION",
                             None)])
  {
    CurrentIsPointed(r, id);
    AppendRecords(hash, r.audit, id,
        Entry(id, version, MandateRevoked, Some(Active), Some(Revoked), at, "DEMO_USER_REVOCATION", None));
    assert RowsKeyed(r.states);
    assert Current(r, id).value.WellFormed();
  }

  /**
   Supersession succeeds exactly for a valid id whose current row has that version and is ACTIVE, by a greater version
   at no earlier time.
   */
  lemma SupersedesExactlyWhen(hash: EventHash, r: Registry, id: MandateId, version: int, next: int, at: Time)
    requires Shaped(r)
    ensures var current := Current(r, id);
            var (r', answer) := Apply(hash, r, Supersede(id, version, next, at));
            && (answer.Done? <==>
                  && id.Uuid? && current.Some? && current.value.version == version && current.value.status.Active?
                  && next > version && at >= current.value.updatedAt)
            && (answer == Refused(InvalidVersion) <==> next < 1)
            && (answer == Refused(MalformedMandateId) <==> next >= 1 && id.NotUuid?)
            && (answer == Refused(VersionNotCurrent) <==>
                  next >= 1 && id.Uuid? && (current.Some? ==> current.value.version != version))
            && (answer == Refused(NotActive) <==>
                  next >= 1 && current.Some? && current.value.version == version && current.value.status.Revoked?)
            && (answer == Refused(ReplacementNotNewer) <==>
                  && 1 <= next <= version && current.Some? && current.value.version == version
                  && current.value.status.Active?)
            && (answer == Refused(TimeMovedBackwards) <==>
                  && next > version && current.Some? && current.value.version == version
                  && current.value.status.Active? && at < current.value.updatedAt)
            && (answer.Refused? ==> r' == r)
  {
    CurrentIsPointed(r, id);
  }

  /**
   A supersession leaves the old row SUPERSEDED and naming its successor, the new version ACTIVE under the pointer, and
   two more events, the retirement before the registration.
   */
  lemma SupersessionLeaves(hash: EventHash, r: Registry, id: MandateId, version: int, next: int, at: Time)
    requires Shaped(r) && Apply(hash, r, Supersede(id, version, next, at)).1.Done?
    ensures var (r', answer) := Apply(hash, r, Supersede(id, version, next, at));
            var state := State(id, next, Active, at, None, None);
            && answer == Done(Some(state))
            && r'.states == r.states[Key(id, version) := State(id, version, Superseded, at, None, Some(next))]
                                    [Key(id, next) := state]
            && r'.current == r.current[id := next]
            && Records(hash, r.audit, r'.audit, id,
                   [Entry(id, version, MandateSuperseded, Some(Active), Some(Superseded), at,
                        "SUPERSEDED_BY_VERSION_" + Decimal.OfInt(next), None),
                    Entry(id, next, RegisteredActive, Some(Superseded), Some(Active), at,
                        "NEW_VERSION_AFTER_" + Decimal.OfInt(version), None)])
  {
    CurrentIsPointed(r, id);
    AppendsRecord(hash, r.audit, id,
        Entry(id, version, MandateSuperseded, Some(Active), Some(Superseded), at,
            "SUPERSEDED_BY_VERSION_" + Decimal.OfInt(next), None),
        Entry(id, next, RegisteredActive, Some(Superseded), Some(Active), at,
            "NEW_VERSION_AFTER_" + Decimal.OfInt(version), None));
    assert RowsKeyed(r.states);
    assert Current(r, id).value.WellFormed();
  }

  /**
   A refusal is recorded exactly under a valid id and version, whether or not that version exists: one event, with the
   observed status of the current row before and after, and nothing else.
   */
  lemma RefusalIsRecorded(hash: EventHash, r: Registry, id: MandateId, version: int, at: Time, reason: string,
                          evidence: Evidence)
    requires Shaped(r)
    ensures var (r', answer) := Apply(hash, r, RecordRefusal(id, version, at, reason, evidence));
            && (answer.Done? <==> id.Uuid? && version >= 1)
            && (answer == Refused(MalformedMandateId) <==> id.NotUuid?)
            && (answer == Refused(InvalidVersion) <==> id.Uuid? && version < 1)
            && (answer.Refused? ==> r' == r)
            && (answer.Done? ==>
                  var observed := if id in r.current then Some(r.states[Key(id, r.current[id])].status) else None;
                  && answer == Done(None) && r'.states == r.states && r'.current == r.current
                  && Records(hash, r.audit, r'.audit, id,
                         [Entry(id, version, ExecutionRefused, observed, observed, at, reason, Some(evidence))]))
  {
    CurrentIsPointed(r, id);
    var observed := if id in r.current then Some(r.states[Key(id, r.current[id])].status) else None;
    AppendRecords(hash, r.audit, id,
        Entry(id, version, ExecutionRefused, observed, observed, at, reason, Some(evidence)));
  }

  // ----- The same calls over any storage, also what no call could have written -----

  // The number and link of the next event of a mandate: one more than its greatest row and that row's hash, if any.
  ghost predicate NextRow(audit: AuditTable, id: MandateId, sequence: int, previous: Option<Digest>) {
    if forall k :: k in audit ==> k.id != id then sequence == 1 && previous.None?
    else
      && AuditKey(id, sequence - 1) in audit
      && (forall k :: k in audit && k.id == id ==> k.sequence < sequence)
      && previous == Some(audit[AuditKey(id, sequence - 1)].sha)
  }

  // One row more, under its number, link and hash; none when a row of any mandate has that hash already.
  ghost predicate Stores(hash: EventHash, before: AuditTable, entry: Entry, after: Option<AuditTable>) {
    exists sequence, previous :: NextRow(before, entry.id, sequence, previous) &&
      var body := EventBody(entry, sequence, previous);
      if exists k :: k in before && before[k].sha == hash(body) then after.None?
      else after == Some(before[AuditKey(entry.id, sequence) :=
                            AuditRow(entry.kind, hash(body), previous, Event(body, hash(body)))])
  }

  lemma BodyIsNext(audit: AuditTable, entry: Entry)
    ensures var body := BodyAfterLast(audit, entry);
            body.entry == entry && NextRow(audit, entry.id, body.sequence, body.previousSha)
  {
    var sequences := Sequences(audit, entry.id);
    forall k | k in audit && k.id == entry.id ensures k.sequence in sequences {
    }
    if sequences != {} {
      var n := SomeMember(sequences);
      assert AuditKey(entry.id, n) in audit;
    }
  }

  lemma InsertStores(hash: EventHash, audit: AuditTable, entry: Entry)
    ensures Stores(hash, audit, entry, InsertRow(hash, audit, entry))
  {
    BodyIsNext(audit, entry);
  }

  /** Registration over any storage: every refusal's condition, and the row, pointer and event of a success. */
  lemma SqlRegistration(hash: EventHash, t: Tables, id: MandateId, version: int, at: Time)
    ensures var found := ReadCurrent(t, id);
            var (t', answer) := SqlApply(hash, t, RegisterActive(id, version, at));
            if id.NotUuid? then t' == t && answer == Refused(MalformedMandateId)
            else if version < 1 then t' == t && answer == Refused(InvalidVersion)
            else if found.Corrupt? then t' == t && answer == Refused(StorageCorrupt)
            else if found.Undecodable? then t' == t && answer == Refused(StorageUndecodable)
            else if found.Present? && found.state.status.Active? && version == found.state.version then
              t' == t && answer == Done(Some(found.state))
            else if found.Present? && version <= found.state.version then
              t' == t && answer == Refused(VersionAlreadyUsed)
            else if found.Present? && found.state.status.Active? then t' == t && answer == Refused(MustSupersedeActive)
            else if found.Present? && at < found.state.updatedAt then t' == t && answer == Refused(TimeMovedBackwards)
            else
              var previous := if found.Present? then Some(found.state.status) else None;
              exists audit: Option<AuditTable> :: Stores(hash, t.audit, Registered(id, version, previous, at), audit) &&
                if audit.None? then t' == t && answer == Refused(EventHashNotUnique)
                else
                  && answer == Done(Some(State(id, version, Active, at, None, None)))
                  && t' == Tables(t.states[Key(id, version) := StateRow(Active, at, None, None)],
                                  t.current[id := version], audit.value)
  {
    var found := ReadCurrent(t, id);
    InsertStores(hash, t.audit,
        Registered(id, version, if found.Present? then Some(found.state.status) else None, at));
  }

  /** Revocation over any storage; the mandate_id text is not checked. */
  lemma SqlRevocation(hash: EventHash, t: Tables, id: MandateId, version: int, at: Time)
    ensures var found := ReadCurrent(t, id);
            var (t', answer) := SqlApply(hash, t, Revoke(id, version, at));
            if found.Corrupt? then t' == t && answer == Refused(StorageCorrupt)
            else if found.Undecodable? then t' == t && answer == Refused(StorageUndecodable)
            else if found.Absent? then t' == t && answer == Refused(StateMissing)
            else if found.state.version != version then t' == t && answer == Refused(VersionNotCurrent)
            else if found.state.status.Superseded? then t' == t && answer == Refused(NotActive)
            else if found.state.status.Revoked? then t' == t && answer == Done(Some(found.state))
            else if at < found.state.updatedAt then t' == t && answer == Refused(TimeMovedBackwards)
            else
              var entry := Entry(id, version, MandateRevoked, Some(Active), Some(Revoked), at, "DEMO_USER_REVOCATION",
                  None);
              exists audit: Option<AuditTable> :: Stores(hash, t.audit, entry, audit) &&
                if audit.None? then t' == t && answer == Refused(EventHashNotUnique)
                else
                  && answer == Done(Some(State(id, version, Revoked, at, Some(at), None)))
                  && t' == Tables(t.states[Key(id, version) := StateRow(Revoked, at, Some(at), None)], t.current,
                                  audit.value)
  {
    InsertStores(hash, t.audit,
        Entry(id, version, MandateRevoked, Some(Active), Some(Revoked), at, "DEMO_USER_REVOCATION", None));
  }

  // A current row that may be superseded by this version at this time.
  predicate Supersedable(found: Lookup, version: int, next: int, at: Time) {
    && found.Present? && found.state.version == version && found.state.status.Active?
    && next > version && at >= found.state.updatedAt
  }

  /** Supersession over any storage: which refusal stands for what, when the current row may not be superseded. */
  lemma SqlSupersessionRefuses(hash: EventHash, t: Tables, id: MandateId, version: int, next: int, at: Time)
    requires next < 1 || !Supersedable(ReadCurrent(t, id), version, next, at)
    ensures var found := ReadCurrent(t, id);
            var (t', answer) := SqlApply(hash, t, Supersede(id, version, next, at));
            && t' == t
            && answer == Refused(
                 if next < 1 then InvalidVersion
                 else if found.Corrupt? then StorageCorrupt
                 else if found.Undecodable? then StorageUndecodable
                 else if found.Absent? || found.state.version != version then VersionNotCurrent
                 else if !found.state.status.Active? then NotActive
                 else if next <= version then ReplacementNotNewer
                 else TimeMovedBackwards)
  {
  }

  // Both rows and the pointer, with the audit table given.
  function Superseding(t: Tables, id: MandateId, version: int, next: int, at: Time, audit: AuditTable): Tables {
    Tables(t.states[Key(id, version) := StateRow(Superseded, at, None, Some(next))]
                   [Key(id, next) := StateRow(Active, at, None, None)],
           t.current[id := next], audit)
  }

  /** Otherwise both rows, the pointer and both events change together, or the UNIQUE hash undoes them all. */
  lemma SqlSupersession(hash: EventHash, t: Tables, id: MandateId, version: int, next: int, at: Time)
    requires next >= 1 && Supersedable(ReadCurrent(t, id), version, next, at)
    ensures var (t', answer) := SqlApply(hash, t, Supersede(id, version, next, at));
            var retirement := Entry(id, version, MandateSuperseded, Some(Active), Some(Superseded), at,
                "SUPERSEDED_BY_VERSION_" + Decimal.OfInt(next), None);
            var registration := Entry(id, next, RegisteredActive, Some(Superseded), Some(Active), at,
                "NEW_VERSION_AFTER_" + Decimal.OfInt(version), None);
            exists first: Option<AuditTable>, audit: Option<AuditTable> :: Stores(hash, t.audit, retirement, first)
              && (if first.None? then audit.None? else Stores(hash, first.value, registration, audit)) &&
              if audit.None? then t' == t && answer == Refused(EventHashNotUnique)
              else
                && answer == Done(Some(State(id, next, Active, at, None, None)))
                && t' == Superseding(t, id, version, next, at, audit.value)
  {
    var retirement := Entry(id, version, MandateSuperseded, Some(Active), Some(Superseded), at,
        "SUPERSEDED_BY_VERSION_" + Decimal.OfInt(next), None);
    var registration := Entry(id, next, RegisteredActive, Some(Superseded), Some(Active), at,
        "NEW_VERSION_AFTER_" + Decimal.OfInt(version), None);
    InsertStores(hash, t.audit, retirement);
    var first := InsertRow(hash, t.audit, retirement);
    var audit: Option<AuditTable> := if first.None? then None else InsertRow(hash, first.value, registration);
    if first.Some? {
      InsertStores(hash, first.value, registration);
    }
    SupersedeCommit(hash, t, ReadCurrent(t, id).state, id, version, next, at, retirement, registration, first, audit);
    assert Stores(hash, t.audit, retirement, first);
  }

  lemma SupersedeCommit(hash: EventHash, t: Tables, row: State, id: MandateId, version: int, next: int, at: Time,
                        retirement: Entry, registration: Entry, first: Option<AuditTable>, audit: Option<AuditTable>)
    requires next >= 1 && Supersedable(Present(row), version, next, at) && row.id == id && row.WellFormed()
    requires retirement == SupersessionEntry(id, version, next, at)
    requires registration == RegistrationEntry(id, next, Some(Superseded), at, SuccessorReason(version))
    requires first == InsertRow(hash, t.audit, retirement)
    requires audit == if first.None? then None else InsertRow(hash, first.value, registration)
    ensures SupersedeFrom(hash, t, Present(row), id, version, next, at) ==
              if audit.None? then (t, Refused(EventHashNotUnique))
              else (Superseding(t, id, version, next, at, audit.value),
                    Done(Some(State(id, next, Active, at, None, None))))
  {
  }

  // ----- What the reads refuse -----

  /**
   A stored row decodes exactly when its id and version are valid and its columns fit its status: none set for ACTIVE,
   the update time as revocation time for REVOKED, a greater version as successor for SUPERSEDED.
   */
  lemma RowDecodesExactlyWhen(t: Tables, id: MandateId, version: int, row: StateRow)
    requires Key(id, version) in t.states ==> row == t.states[Key(id, version)]
    ensures && (ReadRow(t, Key(id, version)) == Absent <==> Key(id, version) !in t.states)
            && ReadRow(t, Key(id, version)) != Corrupt
            && (ReadRow(t, Key(id, version)).Present? <==>
                  && Key(id, version) in t.states && id.Uuid? && version >= 1
                  && (|| (row.status == Active && row.revokedAt == None && row.supersededBy == None)
                      || (row.status == Revoked && row.revokedAt == Some(row.updatedAt) && row.supersededBy == None)
                      || (row.status == Superseded && row.revokedAt == None && row.supersededBy.Some?
                          && row.supersededBy.value > version)))
            && (ReadRow(t, Key(id, version)).Present? ==>
                  ReadRow(t, Key(id, version)).state
                  == State(id, version, row.status, row.updatedAt, row.revokedAt, row.supersededBy))
  {
  }

  /**
   The current row is refused as corrupt exactly when the version pointed to has no row, another version is
   ACTIVE, or a greater version exists.
   */
  lemma CorruptExactlyWhen(t: Tables, id: MandateId)
    ensures ReadCurrent(t, id) == Absent <==> id !in t.current
    ensures ReadCurrent(t, id) == Corrupt <==>
              && id in t.current
              && (|| Key(id, t.current[id]) !in t.states
                  || (exists k :: k in t.states && k.id == id && k.version != t.current[id]
                        && t.states[k].status.Active?)
                  || (exists k :: k in t.states && k.id == id && k.version > t.current[id]))
    ensures id in t.current && ReadCurrent(t, id) != Corrupt ==>
              ReadCurrent(t, id) == ReadRow(t, Key(id, t.current[id]))
  {
    if id in t.current {
      ConsistentExactlyWhen(t, id, t.current[id]);
    }
  }

  lemma ConsistentExactlyWhen(t: Tables, id: MandateId, pointer: int)
    requires id in t.current && t.current[id] == pointer
    ensures ConsistentStorage(t, id) <==>
              && Key(id, pointer) in t.states
              && forall k :: k in t.states && k.id == id ==>
                   k.version <= pointer && (t.states[k].status.Active? ==> k.version == pointer)
  {
    if Key(id, pointer) in t.states && forall k :: k in t.states && k.id == id ==>
         k.version <= pointer && (t.states[k].status.Active? ==> k.version == pointer)
    {
      assert Key(id, pointer).version in Versions(t, id);
      AtMostOne(ActiveVersions(t, id), pointer);
    }
    if ConsistentStorage(t, id) {
      assert pointer in Versions(t, id);
      forall k | k in t.states && k.id == id
        ensures k.version <= pointer && (t.states[k].status.Active? ==> k.version == pointer)
      {
        assert k.version in Versions(t, id);
        assert t.states[k].status.Active? ==> k.version in ActiveVersions(t, id);
      }
    }
  }

  /** Recording a refusal over any storage: corrupt and missing rows are annotated without a status. */
  lemma SqlRefusal(hash: EventHash, t: Tables, id: MandateId, version: int, at: Time, reason: string,
                   evidence: Evidence)
    ensures var found := ReadCurrent(t, id);
            var (t', answer) := SqlApply(hash, t, RecordRefusal(id, version, at, reason, evidence));
            if found.Undecodable? then t' == t && answer == Refused(StorageUndecodable)
            else if id.NotUuid? then t' == t && answer == Refused(MalformedMandateId)
            else if version < 1 then t' == t && answer == Refused(InvalidVersion)
            else
              var observed := if found.Present? then Some(found.state.status) else None;
              var entry := Entry(id, version, ExecutionRefused, observed, observed, at, reason, Some(evidence));
              exists audit: Option<AuditTable> :: Stores(hash, t.audit, entry, audit) &&
                if audit.None? then t' == t && answer == Refused(EventHashNotUnique)
                else answer == Done(None) && t' == Tables(t.states, t.current, audit.value)
  {
    var found := ReadCurrent(t, id);
    var observed := if found.Present? then Some(found.state.status) else None;
    InsertStores(hash, t.audit, Entry(id, version, ExecutionRefused, observed, observed, at, reason, Some(evidence)));
  }
}
