/** Decision events: what the constructor accepts, their JSON records, and the strict decoder. */
module DecisionEvents {
  import opened Wrappers
  import opened Strings
  import opened Json
  import opened CanonicalJson
  import opened Records

  // ----- Findings and check results -----

  const REGISTERED_FAMILIES: seq<string> := [
    "A1", "A2", "A3", "A4", "A5", "A6", "A7", "A8",
    "B1", "B2", "B3", "B4", "B5", "B6", "B7", "B8", "B9", "B10",
    "C-DEV-RECURRENCE", "C-DEV-EXCLUSION", "C-DEV-PURPOSE",
    "C-HOLD-BUNDLE", "C-HOLD-COMPATIBILITY", "C-HOLD-FULFILLMENT"]

  const TIER_A_ORDER: seq<string> := ["A1", "A2", "A3", "A4", "A5", "A6", "A7", "A8"]

  predicate InTier(family: string, tier: char) {
    family in REGISTERED_FAMILIES && family != "" && family[0] == tier
  }

  datatype Finding = Finding(family: string, message: string, details: seq<Member>)

  predicate IsScalar(j: Json) {
    !j.Arr? && !j.Obj?
  }

  // What Finding's constructor accepts.
  predicate ValidFinding(f: Finding) {
    && f.family in REGISTERED_FAMILIES
    && f.message != ""
    && SortedKeys(f.details)
    && forall i :: 0 <= i < |f.details| ==> f.details[i].key != "" && IsScalar(f.details[i].value)
  }

  datatype CheckStatus = Pass | Fail | NotEvaluable

  datatype CheckResult = CheckResult(family: string, status: CheckStatus, finding: Option<Finding>,
      reason: Option<string>)

  // What TierACheckResult's constructor accepts.
  predicate ValidResult(r: CheckResult) {
    && InTier(r.family, 'A')
    && match r.status
       case Fail => r.finding.Some? && ValidFinding(r.finding.value) && r.finding.value.family == r.family
           && r.reason.None?
       case NotEvaluable => r.finding.None? && r.reason.Some? && r.reason.value != ""
       case Pass => r.finding.None? && r.reason.None?
  }

  // ----- Events -----

  datatype Action = Allow | Review | Block

  datatype Event = Event(
    schemaVersion: string,
    sequence: int,
    replaySeed: int,
    evaluatedAt: Time,
    serverTime: Option<Time>,
    mandateSha: string,
    transactionSha: string,
    catalogSha: Option<string>,
    committedTransactionSha: Option<string>,
    committedCatalogSha: Option<string>,
    nonceStateSha: Option<string>,
    tierA: seq<CheckResult>,
    tierB: seq<Finding>,
    action: Action,
    previousSha: Option<string>,
    sha: string)

  predicate IsDigest(s: string) {
    |s| == 64 && forall i :: 0 <= i < 64 ==> '0' <= s[i] <= '9' || 'a' <= s[i] <= 'f'
  }

  predicate IsNullableDigest(s: Option<string>) {
    s.Some? ==> IsDigest(s.value)
  }

  predicate SomeStatus(results: seq<CheckResult>, status: CheckStatus) {
    exists i :: 0 <= i < |results| && results[i].status == status
  }

  function ExpectedAction(tierA: seq<CheckResult>, tierB: seq<Finding>): Action {
    if tierB != [] || SomeStatus(tierA, Fail) then Block
    else if SomeStatus(tierA, NotEvaluable) then Review
    else Allow
  }

  // What DecisionEvent's constructor accepts.
  predicate ValidEvent(e: Event) {
    && e.schemaVersion == "1.1"
    && e.sequence >= 1
    && (e.serverTime.Some? ==> e.serverTime.value == e.evaluatedAt)
    && IsDigest(e.mandateSha) && IsDigest(e.transactionSha)
    && IsNullableDigest(e.catalogSha) && IsNullableDigest(e.committedTransactionSha)
    && IsNullableDigest(e.committedCatalogSha) && IsNullableDigest(e.nonceStateSha)
    && IsNullableDigest(e.previousSha) && IsDigest(e.sha)
    && |e.tierA| == |TIER_A_ORDER|
    && (forall i :: 0 <= i < |e.tierA| ==> ValidResult(e.tierA[i]) && e.tierA[i].family == TIER_A_ORDER[i])
    && (forall i :: 0 <= i < |e.tierB| ==> ValidFinding(e.tierB[i]) && InTier(e.tierB[i].family, 'B'))
    && e.action == ExpectedAction(e.tierA, e.tierB)
  }

  // ----- The decision composer -----

  function FindingsOf(results: seq<CheckResult>): seq<Finding> {
    if results == [] then []
    else
      (if results[0].status.Fail? && results[0].finding.Some? then [results[0].finding.value] else [])
      + FindingsOf(results[1..])
  }

  // decide_deterministically: findings first, then missing evidence.
  function ComposedAction(tierA: seq<CheckResult>, tierB: seq<Finding>): Action {
    if FindingsOf(tierA) + tierB != [] then Block
    else if SomeStatus(tierA, NotEvaluable) then Review
    else Allow
  }

  lemma {:induction false} FailuresCarryFindings(results: seq<CheckResult>)
    requires forall i :: 0 <= i < |results| ==> (results[i].status.Fail? ==> results[i].finding.Some?)
    ensures FindingsOf(results) != [] <==> SomeStatus(results, Fail)
  {
    if results != [] {
      var tail := results[1..];
      assert forall i :: 0 <= i < |tail| ==> tail[i] == results[i + 1];
      FailuresCarryFindings(tail);
      if SomeStatus(results, Fail) && !results[0].status.Fail? {
        var i :| 0 <= i < |results| && results[i].status == Fail;
        assert tail[i - 1].status == Fail;
      }
    }
  }

  /** The action an event must carry is the one the composer reaches from the findings themselves. */
  lemma ComposerAgreesWithEvent(tierA: seq<CheckResult>, tierB: seq<Finding>)
    requires forall i :: 0 <= i < |tierA| ==> ValidResult(tierA[i])
    ensures ComposedAction(tierA, tierB) == ExpectedAction(tierA, tierB)
  {
    FailuresCarryFindings(tierA);
  }

  // ----- Records -----

  const EVENT_FIELDS: seq<string> := [
    "schema_version", "sequence", "replay_seed", "evaluated_at", "server_time",
    "mandate_payload_sha256", "transaction_body_sha256", "catalog_snapshot_sha256",
    "committed_transaction_sha256", "committed_catalog_snapshot_sha256", "nonce_state_sha256",
    "tier_a_results", "tier_b_findings", "action", "previous_event_sha256", "event_sha256"]

  const BODY_FIELDS: seq<string> := EVENT_FIELDS[..15]

  const FINDING_FIELDS: seq<string> := ["family", "message", "details"]

  const RESULT_FIELDS: seq<string> := ["family", "status", "finding", "reason"]

  lemma EventFieldsDistinct()
    ensures Distinct(EVENT_FIELDS) && Distinct(BODY_FIELDS)
  {
    var f := EVENT_FIELDS;
    forall i, j | 0 <= i < j < |f| ensures f[i] != f[j] {
      assert |f[i]| != |f[j]| || f[i][2] != f[j][2];
    }
  }

  lemma FindingFieldsDistinct()
    ensures Distinct(FINDING_FIELDS)
  {
    assert FINDING_FIELDS[1][0] == 'm' && FINDING_FIELDS[2][0] == 'd';
  }

  lemma ResultFieldsDistinct()
    ensures Distinct(RESULT_FIELDS)
  {
    assert RESULT_FIELDS[0][1] == 'a' && RESULT_FIELDS[1][1] == 't' && RESULT_FIELDS[3][1] == 'e';
  }

  function StatusText(status: CheckStatus): string {
    match status
    case Pass => "PASS"
    case Fail => "FAIL"
    case NotEvaluable => "NOT_EVALUABLE"
  }

  function ActionText(action: Action): string {
    match action
    case Allow => "ALLOW"
    case Review => "REVIEW"
    case Block => "BLOCK"
  }

  function Nullable(s: Option<string>): Json {
    if s.None? then Null else Str(s.value)
  }

  function FindingJson(f: Finding): Json {
    Obj(Zip(FINDING_FIELDS, [Str(f.family), Str(f.message), Obj(f.details)]))
  }

  function ResultJson(r: CheckResult): Json {
    Obj(Zip(RESULT_FIELDS, [Str(r.family), Str(StatusText(r.status)),
                            if r.finding.None? then Null else FindingJson(r.finding.value), Nullable(r.reason)]))
  }

  function FindingJsons(fs: seq<Finding>): (js: seq<Json>)
    ensures |js| == |fs|
  {
    if fs == [] then [] else [FindingJson(fs[0])] + FindingJsons(fs[1..])
  }

  function ResultJsons(rs: seq<CheckResult>): (js: seq<Json>)
    ensures |js| == |rs|
  {
    if rs == [] then [] else [ResultJson(rs[0])] + ResultJsons(rs[1..])
  }

  // The normalised value of field i of EVENT_FIELDS.
  function FieldJson(render: TimeText, e: Event, i: nat): Json {
    match i
    case 0 => Str(e.schemaVersion)
    case 1 => Int(e.sequence)
    case 2 => Int(e.replaySeed)
    case 3 => Str(render(e.evaluatedAt))
    case 4 => if e.serverTime.None? then Null else Str(render(e.serverTime.value))
    case 5 => Str(e.mandateSha)
    case 6 => Str(e.transactionSha)
    case 7 => Nullable(e.catalogSha)
    case 8 => Nullable(e.committedTransactionSha)
    case 9 => Nullable(e.committedCatalogSha)
    case 10 => Nullable(e.nonceStateSha)
    case 11 => Arr(ResultJsons(e.tierA))
    case 12 => Arr(FindingJsons(e.tierB))
    case 13 => Str(ActionText(e.action))
    case 14 => Nullable(e.previousSha)
    case _ => Str(e.sha)
  }

  function FieldJsons(render: TimeText, e: Event, count: nat): (js: seq<Json>)
    ensures |js| == count && forall i :: 0 <= i < count ==> js[i] == FieldJson(render, e, i)
  {
    seq(count, i requires 0 <= i < count => FieldJson(render, e, i))
  }

  // body_data: every field but the event's own hash.
  function BodyJson(render: TimeText, e: Event): Json {
    Obj(Zip(BODY_FIELDS, FieldJsons(render, e, 15)))
  }

  function RecordJson(render: TimeText, e: Event): Json {
    Obj(Zip(EVENT_FIELDS, FieldJsons(render, e, 16)))
  }

  // ----- The dict display of record_data, before normalisation -----

  function FieldValue(render: TimeText, e: Event, i: nat): Value {
    if i == 3 then VTime(true, e.evaluatedAt)
    else if i == 4 && e.serverTime.Some? then VTime(true, e.serverTime.value)
    else Embed(FieldJson(render, e, i))
  }

  function RecordData(render: TimeText, e: Event): Value {
    VMap(ZipValues(EVENT_FIELDS, seq(16, i requires 0 <= i < 16 => FieldValue(render, e, i))))
  }

  lemma FindingIsDict(f: Finding)
    requires ValidFinding(f)
    ensures DictTree(FindingJson(f))
  {
    FindingFieldsDistinct();
    SortedKeysAreDistinct(f.details);
    ZipIsDict(FINDING_FIELDS, [Str(f.family), Str(f.message), Obj(f.details)]);
  }

  lemma ResultIsDict(r: CheckResult)
    requires ValidResult(r)
    ensures DictTree(ResultJson(r))
  {
    ResultFieldsDistinct();
    if r.finding.Some? {
      FindingIsDict(r.finding.value);
    }
    ZipIsDict(RESULT_FIELDS, [Str(r.family), Str(StatusText(r.status)),
                              if r.finding.None? then Null else FindingJson(r.finding.value), Nullable(r.reason)]);
  }

  lemma {:induction false} FindingsAreDicts(fs: seq<Finding>)
    requires forall i :: 0 <= i < |fs| ==> ValidFinding(fs[i])
    ensures DictTree(Arr(FindingJsons(fs)))
  {
    if fs != [] {
      FindingIsDict(fs[0]);
      FindingsAreDicts(fs[1..]);
    }
  }

  lemma {:induction false} ResultsAreDicts(rs: seq<CheckResult>)
    requires forall i :: 0 <= i < |rs| ==> ValidResult(rs[i])
    ensures DictTree(Arr(ResultJsons(rs)))
  {
    if rs != [] {
      ResultIsDict(rs[0]);
      ResultsAreDicts(rs[1..]);
    }
  }

  lemma FieldIsDict(render: TimeText, e: Event, i: nat)
    requires ValidEvent(e)
    ensures DictTree(FieldJson(render, e, i))
  {
    if i == 11 {
      ResultsAreDicts(e.tierA);
    } else if i == 12 {
      FindingsAreDicts(e.tierB);
    }
  }

  lemma FieldsAreDicts(render: TimeText, e: Event, count: nat)
    requires ValidEvent(e)
    ensures forall i :: 0 <= i < count ==> DictTree(FieldJsons(render, e, count)[i])
  {
    forall i | 0 <= i < count ensures DictTree(FieldJsons(render, e, count)[i]) {
      FieldIsDict(render, e, i);
    }
  }

  lemma RecordIsDict(render: TimeText, e: Event)
    requires ValidEvent(e)
    ensures DictTree(RecordJson(render, e)) && DictTree(BodyJson(render, e))
  {
    EventFieldsDistinct();
    FieldsAreDicts(render, e, 15);
    FieldsAreDicts(render, e, 16);
    ZipIsDict(BODY_FIELDS, FieldJsons(render, e, 15));
    ZipIsDict(EVENT_FIELDS, FieldJsons(render, e, 16));
  }

  lemma FieldNormalizes(render: TimeText, e: Event, i: nat)
    requires ValidEvent(e)
    ensures Normalize(render, FieldValue(render, e, i)) == Some(FieldJson(render, e, i))
  {
    FieldIsDict(render, e, i);
    EmbedNormalizes(render, FieldJson(render, e, i));
  }

  /** canonical_event_bytes never fails on a constructed event, and its text is that of the record. */
  lemma RecordNormalizes(render: TimeText, e: Event)
    requires ValidEvent(e)
    ensures CanonicalText(render, RecordData(render, e)) == Some(Text(RecordJson(render, e)))
  {
    EventFieldsDistinct();
    var vs := seq(16, i requires 0 <= i < 16 => FieldValue(render, e, i));
    forall i | 0 <= i < 16 ensures NormalizesAt(render, vs, FieldJsons(render, e, 16), i) {
      FieldNormalizes(render, e, i);
    }
    NormalizeZip(render, EVENT_FIELDS, vs, FieldJsons(render, e, 16));
  }

  // ----- The decoder -----

  function ReadStatus(j: Json): Option<CheckStatus> {
    if j == Str("PASS") then Some(Pass)
    else if j == Str("FAIL") then Some(Fail)
    else if j == Str("NOT_EVALUABLE") then Some(NotEvaluable)
    else None
  }

  function ReadAction(j: Json): Option<Action> {
    if j == Str("ALLOW") then Some(Allow)
    else if j == Str("REVIEW") then Some(Review)
    else if j == Str("BLOCK") then Some(Block)
    else None
  }

  predicate IsNullable(j: Json) {
    j.Null? || j.Str?
  }

  function ReadNullable(j: Json): Option<string>
    requires IsNullable(j)
  {
    if j.Null? then None else Some(j.s)
  }

  function ReadFinding(j: Json): Option<Finding> {
    if !j.Obj? || !ExactFields(j.members, FINDING_FIELDS) then None
    else
      var v := Pick(j.members, FINDING_FIELDS);
      if !v[0].Str? || !v[1].Str? || !v[2].Obj? then None
      else
        var f := Finding(v[0].s, v[1].s, SortMembers(v[2].members));
        if ValidFinding(f) then Some(f) else None
  }

  function ReadResult(j: Json): Option<CheckResult> {
    if !j.Obj? || !ExactFields(j.members, RESULT_FIELDS) then None else ResultFrom(Pick(j.members, RESULT_FIELDS))
  }

  function ResultFrom(v: seq<Json>): Option<CheckResult>
    requires |v| == 4
  {
    var status, finding := ReadStatus(v[1]), ReadFinding(v[2]);
    if !v[0].Str? || status.None? || (!v[2].Null? && finding.None?) || !IsNullable(v[3]) then None
    else
      var r := CheckResult(v[0].s, status.value, if v[2].Null? then None else finding, ReadNullable(v[3]));
      if ValidResult(r) then Some(r) else None
  }

  function ReadFindings(js: seq<Json>): Option<seq<Finding>> {
    ReadEach(j => ReadFinding(j), js)
  }

  function ReadResults(js: seq<Json>): Option<seq<CheckResult>> {
    ReadEach(j => ReadResult(j), js)
  }

  function ReadInstant(read: TimeReader, j: Json): Option<Time> {
    if j.Str? then read(j.s) else None
  }

  // The values that need no further decoding.
  predicate PlainTypes(v: seq<Json>)
    requires |v| == 16
  {
    && v[0].Str? && v[1].Int? && v[2].Int? && v[5].Str? && v[6].Str?
    && IsNullable(v[7]) && IsNullable(v[8]) && IsNullable(v[9]) && IsNullable(v[10]) && IsNullable(v[14]) && v[15].Str?
  }

  // The constructor call, once every nested value has been decoded.
  function Assemble(v: seq<Json>, at: Option<Time>, serverTime: Option<Time>, tierA: Option<seq<CheckResult>>,
                    tierB: Option<seq<Finding>>, action: Option<Action>): Option<Event>
    requires |v| == 16
  {
    if !PlainTypes(v) || at.None? || (!v[4].Null? && serverTime.None?) || tierA.None? || tierB.None?
        || action.None? then None
    else
      Some(Event(v[0].s, v[1].n, v[2].n, at.value, if v[4].Null? then None else serverTime,
                 v[5].s, v[6].s, ReadNullable(v[7]), ReadNullable(v[8]), ReadNullable(v[9]), ReadNullable(v[10]),
                 tierA.value, tierB.value, action.value, ReadNullable(v[14]), v[15].s))
  }

  function FromValues(read: TimeReader, v: seq<Json>): Option<Event>
    requires |v| == 16
  {
    Assemble(v, ReadInstant(read, v[3]), ReadInstant(read, v[4]),
             if v[11].Arr? then ReadResults(v[11].items) else None,
             if v[12].Arr? then ReadFindings(v[12].items) else None,
             ReadAction(v[13]))
  }

  /** DecisionEvent.from_mapping; None is any of its errors. */
  function FromJson(read: TimeReader, j: Json): (r: Option<Event>)
    ensures r.Some? ==> ValidEvent(r.value)
  {
    if !j.Obj? || !ExactFields(j.members, EVENT_FIELDS) then None
    else
      var e := FromValues(read, Pick(j.members, EVENT_FIELDS));
      if e.Some? && ValidEvent(e.value) then e else None
  }

  // ----- Decoding inverts encoding -----

  lemma DetailsAreCanonical(f: Finding)
    requires ValidFinding(f)
    ensures Canon(Obj(f.details)) == Obj(f.details) && SortMembers(f.details) == f.details
  {
    CanonIsIdempotent(Obj(f.details));
    CanonScalars(f.details);
  }

  lemma CanonScalars(ms: seq<Member>)
    requires forall i :: 0 <= i < |ms| ==> IsScalar(ms[i].value)
    ensures CanonMembers(ms) == ms
  {
    CanonMemberAt(ms);
  }

  lemma FindingRoundTrip(f: Finding)
    requires ValidFinding(f)
    ensures ReadFinding(Canon(FindingJson(f))) == Some(f)
  {
    var values := [Str(f.family), Str(f.message), Obj(f.details)];
    FindingFieldsDistinct();
    CanonRecordReads(FINDING_FIELDS, values);
    DetailsAreCanonical(f);
    CanonItemAt(values);
  }

  lemma ResultRoundTrip(r: CheckResult)
    requires ValidResult(r)
    ensures ReadResult(Canon(ResultJson(r))) == Some(r)
  {
    var values := [Str(r.family), Str(StatusText(r.status)),
                   if r.finding.None? then Null else FindingJson(r.finding.value), Nullable(r.reason)];
    ResultFieldsDistinct();
    CanonRecordReads(RESULT_FIELDS, values);
    CanonItemAt(values);
    if r.finding.Some? {
      FindingRoundTrip(r.finding.value);
    }
    StatusRoundTrip(r.status);
    ResultFromItems(r, CanonItems(values));
  }

  lemma ResultFromItems(r: CheckResult, v: seq<Json>)
    requires ValidResult(r) && |v| == 4
    requires v[0] == Str(r.family) && ReadStatus(v[1]) == Some(r.status) && v[3] == Nullable(r.reason)
    requires if r.finding.None? then v[2] == Null else !v[2].Null? && ReadFinding(v[2]) == r.finding
    ensures ResultFrom(v) == Some(r)
  {
  }

  lemma StatusRoundTrip(status: CheckStatus)
    ensures ReadStatus(Str(StatusText(status))) == Some(status)
  {
    assert "FAIL"[0] == 'F' && "PASS"[0] == 'P';
  }

  lemma ActionRoundTrip(action: Action)
    ensures ReadAction(Str(ActionText(action))) == Some(action)
  {
    assert "ALLOW"[0] == 'A' && "BLOCK"[0] == 'B';
  }

  lemma {:induction false} FindingJsonAt(fs: seq<Finding>, i: nat)
    requires i < |fs|
    ensures CanonItems(FindingJsons(fs))[i] == Canon(FindingJson(fs[i]))
  {
    if i > 0 {
      FindingJsonAt(fs[1..], i - 1);
    }
  }

  lemma {:induction false} ResultJsonAt(rs: seq<CheckResult>, i: nat)
    requires i < |rs|
    ensures CanonItems(ResultJsons(rs))[i] == Canon(ResultJson(rs[i]))
  {
    if i > 0 {
      ResultJsonAt(rs[1..], i - 1);
    }
  }

  lemma FindingsRoundTrip(fs: seq<Finding>)
    requires forall i :: 0 <= i < |fs| ==> ValidFinding(fs[i])
    ensures ReadFindings(CanonItems(FindingJsons(fs))) == Some(fs)
  {
    var js := CanonItems(FindingJsons(fs));
    forall i | 0 <= i < |js| ensures ReadFinding(js[i]) == Some(fs[i]) {
      FindingJsonAt(fs, i);
      FindingRoundTrip(fs[i]);
    }
    ReadsEach(j => ReadFinding(j), js, fs);
  }

  lemma ResultsRoundTrip(rs: seq<CheckResult>)
    requires forall i :: 0 <= i < |rs| ==> ValidResult(rs[i])
    ensures ReadResults(CanonItems(ResultJsons(rs))) == Some(rs)
  {
    var js := CanonItems(ResultJsons(rs));
    forall i | 0 <= i < |js| ensures ReadResult(js[i]) == Some(rs[i]) {
      ResultJsonAt(rs, i);
      ResultRoundTrip(rs[i]);
    }
    ReadsEach(j => ReadResult(j), js, rs);
  }

  lemma PlainField(render: TimeText, e: Event, i: nat)
    ensures i != 11 && i != 12 ==> Canon(FieldJson(render, e, i)) == FieldJson(render, e, i)
    ensures Canon(FieldJson(render, e, 11)) == Arr(CanonItems(ResultJsons(e.tierA)))
    ensures Canon(FieldJson(render, e, 12)) == Arr(CanonItems(FindingJsons(e.tierB)))
  {
  }

  lemma AssembledEvent(e: Event, v: seq<Json>, serverTime: Option<Time>)
    requires |v| == 16
    requires v[0] == Str(e.schemaVersion) && v[1] == Int(e.sequence) && v[2] == Int(e.replaySeed)
    requires if e.serverTime.None? then v[4] == Null else !v[4].Null? && serverTime == e.serverTime
    requires v[5] == Str(e.mandateSha) && v[6] == Str(e.transactionSha)
    requires v[7] == Nullable(e.catalogSha) && v[8] == Nullable(e.committedTransactionSha)
    requires v[9] == Nullable(e.committedCatalogSha) && v[10] == Nullable(e.nonceStateSha)
    requires v[14] == Nullable(e.previousSha) && v[15] == Str(e.sha)
    ensures Assemble(v, Some(e.evaluatedAt), serverTime, Some(e.tierA), Some(e.tierB), Some(e.action)) == Some(e)
  {
  }

  lemma PlainValues(render: TimeText, e: Event, v: seq<Json>)
    requires v == CanonItems(FieldJsons(render, e, 16))
    ensures |v| == 16 && forall i :: 0 <= i < 16 && i != 11 && i != 12 ==> v[i] == FieldJson(render, e, i)
    ensures v[11] == Arr(CanonItems(ResultJsons(e.tierA))) && v[12] == Arr(CanonItems(FindingJsons(e.tierB)))
  {
    CanonItemAt(FieldJsons(render, e, 16));
    forall i | 0 <= i < 16 && i != 11 && i != 12 ensures v[i] == FieldJson(render, e, i) {
      PlainField(render, e, i);
    }
    PlainField(render, e, 11);
  }

  lemma FirstValues(render: TimeText, e: Event, v: seq<Json>)
    requires |v| == 16 && forall i :: 0 <= i < 16 && i != 11 && i != 12 ==> v[i] == FieldJson(render, e, i)
    ensures v[0] == Str(e.schemaVersion) && v[1] == Int(e.sequence) && v[2] == Int(e.replaySeed)
    ensures v[3] == Str(render(e.evaluatedAt))
    ensures v[4] == if e.serverTime.None? then Null else Str(render(e.serverTime.value))
    ensures v[5] == Str(e.mandateSha) && v[6] == Str(e.transactionSha) && v[7] == Nullable(e.catalogSha)
  {
  }

  lemma LastValues(render: TimeText, e: Event, v: seq<Json>)
    requires |v| == 16 && forall i :: 0 <= i < 16 && i != 11 && i != 12 ==> v[i] == FieldJson(render, e, i)
    ensures v[8] == Nullable(e.committedTransactionSha) && v[9] == Nullable(e.committedCatalogSha)
    ensures v[10] == Nullable(e.nonceStateSha) && v[13] == Str(ActionText(e.action))
    ensures v[14] == Nullable(e.previousSha) && v[15] == Str(e.sha)
  {
  }

  lemma AssemblesBack(render: TimeText, read: TimeReader, e: Event, v: seq<Json>)
    requires Readable(render, read) && (e.serverTime.Some? ==> e.serverTime.value == e.evaluatedAt)
    requires |v| == 16 && forall i :: 0 <= i < 16 && i != 11 && i != 12 ==> v[i] == FieldJson(render, e, i)
    ensures Assemble(v, ReadInstant(read, v[3]), ReadInstant(read, v[4]), Some(e.tierA), Some(e.tierB),
            Some(e.action)) == Some(e)
  {
    FirstValues(render, e, v);
    LastValues(render, e, v);
    AssembledEvent(e, v, ReadInstant(read, v[4]));
  }

  lemma ValuesRoundTrip(render: TimeText, read: TimeReader, e: Event, v: seq<Json>)
    requires ValidEvent(e) && Readable(render, read)
    requires v == CanonItems(FieldJsons(render, e, 16))
    ensures |v| == 16 && FromValues(read, v) == Some(e)
  {
    PlainValues(render, e, v);
    LastValues(render, e, v);
    AssemblesBack(render, read, e, v);
    ResultsRoundTrip(e.tierA);
    FindingsRoundTrip(e.tierB);
    ActionRoundTrip(e.action);
  }

  /** The strict decoder returns the event whose record was sorted and written. */
  lemma RecordRoundTrip(render: TimeText, read: TimeReader, e: Event)
    requires ValidEvent(e) && Readable(render, read)
    ensures FromJson(read, Canon(RecordJson(render, e))) == Some(e)
  {
    var values := FieldJsons(render, e, 16);
    EventFieldsDistinct();
    CanonRecordReads(EVENT_FIELDS, values);
    ValuesRoundTrip(render, read, e, CanonItems(values));
  }
}
