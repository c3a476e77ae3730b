/**
 The relational registry refines the dictionary registry: on every sequence of calls both
 hold the same rows, pointers and events. Their answers agree on every call but one kind:
 the relational revoke and supersede do not validate the mandate_id text, so a malformed
 one is refused as a missing or stale row instead of as a malformed argument.
 */
module ConsentRefinement {
  import opened Wrappers
  import opened Consent
  import opened ConsentHistory
  import opened SqlConsent
  import opened IntSets

  ghost predicate SameStates(t: Tables, r: Registry) {
    && t.states.Keys == r.states.Keys
    && forall k :: k in r.states ==> t.states[k] == Encode(r.states[k])
  }

  ghost predicate SameLogs(audit: AuditTable, logs: Logs) {
    forall k :: (k in audit <==> 1 <= k.sequence <= |LogOf(logs, k.id)|)
             && (k in audit ==> var e := LogOf(logs, k.id)[k.sequence - 1]; audit[k] == RowFor(e.body, e.sha))
  }

  ghost predicate Represents(t: Tables, r: Registry) {
    && SameStates(t, r)
    && t.current == r.current
    && SameLogs(t.audit, r.audit)
  }

  // Everything known of a dictionary registry that some run of calls has built.
  ghost predicate Sound(hash: EventHash, r: Registry) {
    Shaped(r) && Chained(hash, r)
  }

  /** On reachable storage the consistency check never raises and the row read is the dictionary's. */
  lemma ReadsAgree(t: Tables, r: Registry, id: MandateId)
    requires Represents(t, r) && Shaped(r)
    ensures ConsistentStorage(t, id)
    ensures ReadCurrent(t, id) == AsLookup(Current(r, id))
    ensures forall v :: ReadRow(t, Key(id, v)) == AsLookup(Version(r, id, v))
  {
    StorageIsConsistent(t, r, id);
    forall v ensures ReadRow(t, Key(id, v)) == AsLookup(Version(r, id, v)) {
      RowAgrees(t, r, Key(id, v));
    }
    if id in r.current {
      RowAgrees(t, r, Key(id, r.current[id]));
    }
  }

  lemma RowAgrees(t: Tables, r: Registry, k: Key)
    requires Represents(t, r) && Shaped(r)
    ensures ReadRow(t, k) == AsLookup(Version(r, k.id, k.version))
  {
    if k in r.states {
      assert Decode(k, t.states[k]) == r.states[k];
    }
  }

  lemma StorageIsConsistent(t: Tables, r: Registry, id: MandateId)
    requires Represents(t, r) && Shaped(r)
    ensures ConsistentStorage(t, id)
  {
    if id in t.current {
      assert Key(id, t.current[id]) in t.states;
      forall v | v in Versions(t, id) ensures v <= t.current[id] {
        assert Key(id, v) in r.states;
      }
      forall v | v in ActiveVersions(t, id) ensures v == t.current[id] {
        assert Key(id, v) in r.states && t.states[Key(id, v)] == Encode(r.states[Key(id, v)]);
      }
      AtMostOne(ActiveVersions(t, id), t.current[id]);
    }
  }

  lemma SequencesOfLog(audit: AuditTable, logs: Logs, id: MandateId)
    requires SameLogs(audit, logs)
    ensures forall n :: n in Sequences(audit, id) <==> 1 <= n <= |LogOf(logs, id)|
    ensures LogOf(logs, id) == [] <==> Sequences(audit, id) == {}
  {
    forall n ensures n in Sequences(audit, id) <==> 1 <= n <= |LogOf(logs, id)| {
      assert AuditKey(id, n) in audit <==> 1 <= n <= |LogOf(logs, id)|;
    }
    if |LogOf(logs, id)| > 0 {
      assert 1 in Sequences(audit, id);
    } else if |Sequences(audit, id)| > 0 {
      var n := SomeMember(Sequences(audit, id));
      assert false;
    }
  }

  // "Last row" numbering and the dictionary's list length give the same event.
  lemma LastRowIsListEnd(hash: EventHash, audit: AuditTable, logs: Logs, entry: Entry)
    requires SameLogs(audit, logs)
    ensures var log := LogOf(logs, entry.id); var body := BodyAfterLast(audit, entry);
            NextEvent(hash, log, entry) == Event(body, hash(body)) && body.sequence == |log| + 1
  {
    var log := LogOf(logs, entry.id);
    var sequences := Sequences(audit, entry.id);
    SequencesOfLog(audit, logs, entry.id);
    if log != [] {
      assert |log| in sequences;
      assert Greatest(sequences) == |log|;
      assert audit[AuditKey(entry.id, |log|)].sha == log[|log| - 1].sha;
    }
  }

  // A new body never collides with a stored one, so the UNIQUE constraint cannot fire.
  lemma NewHashIsFree(hash: EventHash, audit: AuditTable, logs: Logs, entry: Entry)
    requires CollisionFree(hash) && SameLogs(audit, logs) && entry.id.Uuid?
    requires forall id :: id in logs ==> id.Uuid? && ChainedLog(hash, id, logs[id])
    ensures !HashTaken(audit, hash(BodyAfterLast(audit, entry)))
  {
    var body := BodyAfterLast(audit, entry);
    LastRowIsListEnd(hash, audit, logs, entry);
    forall k | k in audit ensures audit[k].sha != hash(body) {
      var log := LogOf(logs, k.id);
      assert k.id in logs && ValidLink(hash, log, k.sequence - 1);
      var stored := log[k.sequence - 1].body;
      assert stored.entry.id == k.id && stored.sequence == k.sequence;
      assert stored != body;
    }
  }

  lemma InsertKeepsLogs(audit: AuditTable, logs: Logs, id: MandateId, e: Event)
    requires SameLogs(audit, logs)
    ensures SameLogs(audit[AuditKey(id, |LogOf(logs, id)| + 1) := RowFor(e.body, e.sha)],
            logs[id := LogOf(logs, id) + [e]])
  {
    var audit' := audit[AuditKey(id, |LogOf(logs, id)| + 1) := RowFor(e.body, e.sha)];
    var logs' := logs[id := LogOf(logs, id) + [e]];
    forall k
      ensures k in audit' <==> 1 <= k.sequence <= |LogOf(logs', k.id)|
      ensures k in audit' ==> var x := LogOf(logs', k.id)[k.sequence - 1]; audit'[k] == RowFor(x.body, x.sha)
    {
      assert k in audit <==> 1 <= k.sequence <= |LogOf(logs, k.id)|;
    }
  }

  /** Appending an event to the table and to the dictionary's list keeps them the same, and never fails. */
  lemma InsertMatchesAppend(hash: EventHash, audit: AuditTable, logs: Logs, entry: Entry)
    requires CollisionFree(hash) && SameLogs(audit, logs) && entry.id.Uuid?
    requires forall id :: id in logs ==> id.Uuid? && ChainedLog(hash, id, logs[id])
    ensures InsertRow(hash, audit, entry).Some?
    ensures SameLogs(InsertRow(hash, audit, entry).value, logs[entry.id := Append(hash, LogOf(logs, entry.id), entry)])
  {
    NewHashIsFree(hash, audit, logs, entry);
    LastRowIsListEnd(hash, audit, logs, entry);
    InsertKeepsLogs(audit, logs, entry.id, NextEvent(hash, LogOf(logs, entry.id), entry));
  }

  // The calls on which the two registries answer differently.
  predicate AnswersDiffer(op: Op) {
    op.id.NotUuid? && (op.Revoke? || (op.Supersede? && op.next >= 1))
  }

  predicate Registers(current: Option<State>, id: MandateId, version: int, at: Time) {
    && id.Uuid? && version >= 1
    && !(current.Some? && current.value.version == version && current.value.status.Active?)
    && RegisterRule(current, version, at).None?
  }

  function FirstEntry(current: Option<State>, id: MandateId, version: int, at: Time): Entry {
    RegistrationEntry(id, version, StatusOf(current), at, "TRUSTED_SERVER_REGISTRATION")
  }

  lemma RegisteredTables(hash: EventHash, t: Tables, current: Option<State>, id: MandateId, version: int, at: Time,
                         audit: AuditTable)
    requires Registers(current, id, version, at)
    requires InsertRow(hash, t.audit, FirstEntry(current, id, version, at)) == Some(audit)
    ensures var state := ActiveState(id, version, at);
            RegisterFrom(hash, t, AsLookup(current), id, version, at)
            == (Tables(t.states[Key(id, version) := Encode(state)], t.current[id := version], audit), Done(Some(state)))
  {
  }

  lemma RegisterCommits(hash: EventHash, t: Tables, r: Registry, id: MandateId, version: int, at: Time,
                        audit: AuditTable)
    requires Represents(t, r) && Registers(Current(r, id), id, version, at)
    requires SameLogs(audit, r.audit[id := Append(hash, Log(r, id), FirstEntry(Current(r, id), id, version, at))])
    ensures var state := ActiveState(id, version, at); var (r', answer) := ApplyRegister(hash, r, id, version, at);
            && Represents(Tables(t.states[Key(id, version) := Encode(state)], t.current[id := version], audit), r')
            && answer == Done(Some(state))
  {
  }

  lemma RegisterRefines(hash: EventHash, t: Tables, r: Registry, id: MandateId, version: int, at: Time)
    requires CollisionFree(hash) && Represents(t, r) && Chained(hash, r)
    ensures var (t', answer) := RegisterFrom(hash, t, AsLookup(Current(r, id)), id, version, at);
            Represents(t', ApplyRegister(hash, r, id, version, at).0)
                && answer == ApplyRegister(hash, r, id, version, at).1
  {
    var current := Current(r, id);
    if Registers(current, id, version, at) {
      InsertMatchesAppend(hash, t.audit, r.audit, FirstEntry(current, id, version, at));
      var audit := InsertRow(hash, t.audit, FirstEntry(current, id, version, at)).value;
      RegisteredTables(hash, t, current, id, version, at, audit);
      RegisterCommits(hash, t, r, id, version, at, audit);
    }
  }

  lemma RevokeRefines(hash: EventHash, t: Tables, r: Registry, id: MandateId, version: int, at: Time)
    requires CollisionFree(hash) && Represents(t, r) && Chained(hash, r) && RowsKeyed(r.states)
    ensures var (t', answer) := RevokeFrom(hash, t, AsLookup(Current(r, id)), id, version, at);
            Represents(t', ApplyRevoke(hash, r, id, version, at).0)
                && (answer == ApplyRevoke(hash, r, id, version, at).1 <==> id.Uuid?)
  {
    var r' := ApplyRevoke(hash, r, id, version, at).0;
    if r' != r {
      InsertMatchesAppend(hash, t.audit, r.audit, RevocationEntry(id, version, at));
    }
  }

  lemma LastAssignmentWins(logs: Logs, id: MandateId, a: seq<Event>, b: seq<Event>)
    ensures logs[id := a][id := b] == logs[id := b]
  {
  }

  lemma TwoInsertsMatch(hash: EventHash, audit: AuditTable, logs: Logs, first: Entry, second: Entry)
    requires CollisionFree(hash) && SameLogs(audit, logs) && first.id.Uuid? && second.id == first.id
    requires forall id :: id in logs ==> id.Uuid? && ChainedLog(hash, id, logs[id])
    ensures InsertRow(hash, audit, first).Some?
    ensures InsertRow(hash, InsertRow(hash, audit, first).value, second).Some?
    ensures SameLogs(InsertRow(hash, InsertRow(hash, audit, first).value, second).value,
                     logs[first.id := Append(hash, Append(hash, LogOf(logs, first.id), first), second)])
  {
    InsertMatchesAppend(hash, audit, logs, first);
    var log := Append(hash, LogOf(logs, first.id), first);
    ChainAppend(hash, first.id, LogOf(logs, first.id), first);
    InsertMatchesAppend(hash, InsertRow(hash, audit, first).value, logs[first.id := log], second);
    LastAssignmentWins(logs, first.id, log, Append(hash, log, second));
  }

  lemma SupersededTables(hash: EventHash, t: Tables, row: State, next: int, at: Time, a1: AuditTable, a2: AuditTable)
    requires SupersedeRule(Some(row), row.version, next, at).None? && next >= 1
    requires InsertRow(hash, t.audit, SupersessionEntry(row.id, row.version, next, at)) == Some(a1)
    requires InsertRow(hash, a1, RegistrationEntry(row.id, next, Some(Superseded), at, SuccessorReason(row.version)))
             == Some(a2)
    ensures var retired := row.(status := Superseded, updatedAt := at, supersededBy := Some(next));
            var state := ActiveState(row.id, next, at);
            SupersedeFrom(hash, t, Present(row), row.id, row.version, next, at)
            == (Tables(t.states[Key(row.id, row.version) := Encode(retired)][Key(row.id, next) := Encode(state)],
                t.current[row.id := next], a2),
                Done(Some(state)))
  {
  }

  lemma SupersedeCommits(hash: EventHash, t: Tables, r: Registry, id: MandateId, version: int, next: int, at: Time)
    requires CollisionFree(hash) && Represents(t, r) && Chained(hash, r) && RowsKeyed(r.states)
    requires next >= 1 && id.Uuid? && SupersedeRule(Current(r, id), version, next, at).None?
    ensures var (t', answer) := SupersedeFrom(hash, t, AsLookup(Current(r, id)), id, version, next, at);
            && Represents(t', ApplySupersede(hash, r, id, version, next, at).0)
            && answer == ApplySupersede(hash, r, id, version, next, at).1
  {
    var first := SupersessionEntry(id, version, next, at);
    var second := RegistrationEntry(id, next, Some(Superseded), at, SuccessorReason(version));
    TwoInsertsMatch(hash, t.audit, r.audit, first, second);
    var a1 := InsertRow(hash, t.audit, first).value;
    var a2 := InsertRow(hash, a1, second).value;
    var row := Current(r, id).value;
    SupersededTables(hash, t, row, next, at, a1, a2);
    RepresentsAfterSupersede(hash, t, r, row, next, at, a2);
  }

  lemma RepresentsAfterSupersede(hash: EventHash, t: Tables, r: Registry, row: State, next: int, at: Time,
                                 audit: AuditTable)
    requires SameStates(t, r) && t.current == r.current && Current(r, row.id) == Some(row)
    requires SupersedeRule(Some(row), row.version, next, at).None? && next >= 1 && row.id.Uuid?
    requires SameLogs(audit, ApplySupersede(hash, r, row.id, row.version, next, at).0.audit)
    ensures var retired := row.(status := Superseded, updatedAt := at, supersededBy := Some(next));
            var state := ActiveState(row.id, next, at);
            && Represents(Tables(t.states[Key(row.id, row.version) := Encode(retired)][Key(row.id, next) :=
                Encode(state)],
                                 t.current[row.id := next], audit),
                          ApplySupersede(hash, r, row.id, row.version, next, at).0)
            && ApplySupersede(hash, r, row.id, row.version, next, at).1 == Done(Some(state))
  {
  }

  lemma SupersedeRefines(hash: EventHash, t: Tables, r: Registry, id: MandateId, version: int, next: int, at: Time)
    requires CollisionFree(hash) && Represents(t, r) && Chained(hash, r) && RowsKeyed(r.states)
    ensures var (t', answer) := SupersedeFrom(hash, t, AsLookup(Current(r, id)), id, version, next, at);
            && Represents(t', ApplySupersede(hash, r, id, version, next, at).0)
            && (answer == ApplySupersede(hash, r, id, version, next, at).1 <==> (id.Uuid? || next < 1))
  {
    assert id.NotUuid? ==> Current(r, id).None?;
    if next >= 1 && id.Uuid? && SupersedeRule(Current(r, id), version, next, at).None? {
      SupersedeCommits(hash, t, r, id, version, next, at);
    } else {
      assert ApplySupersede(hash, r, id, version, next, at).0 == r;
      assert SupersedeFrom(hash, t, AsLookup(Current(r, id)), id, version, next, at).0 == t;
    }
  }

  lemma RefusalRefines(hash: EventHash, t: Tables, r: Registry, id: MandateId, version: int, at: Time,
                       reason: string, evidence: Evidence)
    requires CollisionFree(hash) && Represents(t, r) && Chained(hash, r)
    ensures var (t', answer) := RefusalFrom(hash, t, AsLookup(Current(r, id)), id, version, at, reason, evidence);
            && Represents(t', ApplyRefusal(hash, r, id, version, at, reason, evidence).0)
            && answer == ApplyRefusal(hash, r, id, version, at, reason, evidence).1
  {
    if id.Uuid? && version >= 1 {
      InsertMatchesAppend(hash, t.audit, r.audit, RefusalEntry(id, version, StatusOf(Current(r, id)), at, reason,
          evidence));
    }
  }

  /** One call: the tables keep representing the dictionaries, and the answers agree exactly outside AnswersDiffer. */
  lemma ApplyRefines(hash: EventHash, t: Tables, r: Registry, op: Op)
    requires CollisionFree(hash) && Represents(t, r) && Sound(hash, r)
    ensures Represents(SqlApply(hash, t, op).0, Apply(hash, r, op).0)
    ensures SqlApply(hash, t, op).1 == Apply(hash, r, op).1 <==> !AnswersDiffer(op)
  {
    ReadsAgree(t, r, op.id);
    match op
    case RegisterActive(id, version, at) => RegisterRefines(hash, t, r, id, version, at);
    case Revoke(id, version, at) => RevokeRefines(hash, t, r, id, version, at);
    case Supersede(id, version, next, at) => SupersedeRefines(hash, t, r, id, version, next, at);
    case RecordRefusal(id, version, at, reason, evidence) =>
      RefusalRefines(hash, t, r, id, version, at, reason, evidence);
  }

  lemma LastCall(hash: EventHash, ops: seq<Op>, op: Op)
    ensures Run(hash, ops + [op]) == Apply(hash, Run(hash, ops), op).0
    ensures SqlRun(hash, ops + [op]) == SqlApply(hash, SqlRun(hash, ops), op).0
    ensures Outcomes(hash, ops + [op]) == Outcomes(hash, ops) + [Apply(hash, Run(hash, ops), op).1]
    ensures SqlOutcomes(hash, ops + [op]) == SqlOutcomes(hash, ops) + [SqlApply(hash, SqlRun(hash, ops), op).1]
  {
    assert (ops + [op])[..|ops|] == ops;
  }

  lemma AnswersGrow(sql: seq<Outcome>, dict: seq<Outcome>, ops: seq<Op>, a: Outcome, b: Outcome, op: Op)
    requires |sql| == |dict| == |ops| && forall i :: 0 <= i < |ops| ==> (sql[i] == dict[i] <==> !AnswersDiffer(ops[i]))
    requires a == b <==> !AnswersDiffer(op)
    ensures forall i :: 0 <= i < |ops| + 1 ==> ((sql + [a])[i] == (dict + [b])[i] <==> !AnswersDiffer((ops + [op])[i]))
  {
  }

  /** Every run: same rows, pointers and events; same answers except on the calls of AnswersDiffer. */
  lemma {:induction false} SqlRefinesDictionaries(hash: EventHash, ops: seq<Op>)
    requires CollisionFree(hash)
    ensures Represents(SqlRun(hash, ops), Run(hash, ops))
    ensures |SqlOutcomes(hash, ops)| == |Outcomes(hash, ops)| == |ops|
    ensures forall i :: 0 <= i < |ops| ==>
              (SqlOutcomes(hash, ops)[i] == Outcomes(hash, ops)[i] <==> !AnswersDiffer(ops[i]))
  {
    if ops != [] {
      var before, op := ops[..|ops| - 1], ops[|ops| - 1];
      var t, r := SqlRun(hash, before), Run(hash, before);
      SqlRefinesDictionaries(hash, before);
      ReachableIsShaped(hash, before);
      ReachableIsChained(hash, before);
      ApplyRefines(hash, t, r, op);
      LastCall(hash, before, op);
      AnswersGrow(SqlOutcomes(hash, before), Outcomes(hash, before), before, SqlApply(hash, t, op).1,
          Apply(hash, r, op).1, op);
      assert ops == before + [op];
    }
  }

  lemma StoredEventsAreTheLog(t: Tables, logs: Logs, id: MandateId)
    requires SameLogs(t.audit, logs)
    ensures StoredEvents(t, id) == LogOf(logs, id)
  {
    var log := LogOf(logs, id);
    SequencesOfLog(t.audit, logs, id);
    AscendingInterval(Sequences(t.audit, id), |log|);
    forall i | 0 <= i < |log| ensures StoredEvents(t, id)[i] == log[i] {
      assert t.audit[AuditKey(id, i + 1)] == RowFor(log[i].body, log[i].sha);
    }
  }

  /** Reads agree after every run, and the stored chain always revalidates. */
  lemma SqlReadsRefineDictionaries(hash: EventHash, ops: seq<Op>, id: MandateId)
    requires CollisionFree(hash)
    ensures ReadCurrent(SqlRun(hash, ops), id) == AsLookup(Current(Run(hash, ops), id))
    ensures StoredEvents(SqlRun(hash, ops), id) == Log(Run(hash, ops), id)
    ensures ValidChain(hash, StoredEvents(SqlRun(hash, ops), id))
  {
    SqlRefinesDictionaries(hash, ops);
    ReachableIsShaped(hash, ops);
    ReachableIsChained(hash, ops);
    ReadsAgree(SqlRun(hash, ops), Run(hash, ops), id);
    StoredEventsAreTheLog(SqlRun(hash, ops), Run(hash, ops).audit, id);
  }

  /** The smallest such call: revoking under a text that is no UUID, on a fresh registry. */
  lemma MalformedRevokeAnswersDiffer(hash: EventHash)
    ensures var op := Revoke(NotUuid("not-a-uuid"), 1, 0);
            && Outcomes(hash, [op]) == [Refused(MalformedMandateId)]
            && SqlOutcomes(hash, [op]) == [Refused(StateMissing)]
  {
    var op := Revoke(NotUuid("not-a-uuid"), 1, 0);
    assert [op][..0] == [];
    assert Run(hash, [op][..0]) == EMPTY_REGISTRY && SqlRun(hash, [op][..0]) == EMPTY_TABLES;
  }
}
