/** What the record of a decision event says, key by key, and exactly which records are accepted. */
module EventRecords {
  import opened Wrappers
  import opened Json
  import opened CanonicalJson
  import opened Records
  import opened DecisionEvents

  function NullOr(s: Option<string>): Json {
    if s.None? then Null else Str(s.value)
  }

  /** The sixteen members of an event's record. */
  lemma RecordStarts(render: TimeText, e: Event)
    ensures var ms := RecordJson(render, e).members;
            && |ms| == 16
            && ms[0] == Member("schema_version", Str(e.schemaVersion))
            && ms[1] == Member("sequence", Int(e.sequence))
            && ms[2] == Member("replay_seed", Int(e.replaySeed))
            && ms[3] == Member("evaluated_at", Str(render(e.evaluatedAt)))
            && ms[4] == Member("server_time", if e.serverTime.None? then Null else Str(render(e.serverTime.value)))
            && ms[5] == Member("mandate_payload_sha256", Str(e.mandateSha))
            && ms[6] == Member("transaction_body_sha256", Str(e.transactionSha))
            && ms[7] == Member("catalog_snapshot_sha256", NullOr(e.catalogSha))
  {
  }

  lemma RecordEnds(render: TimeText, e: Event)
    ensures var ms := RecordJson(render, e).members;
            && |ms| == 16
            && ms[8] == Member("committed_transaction_sha256", NullOr(e.committedTransactionSha))
            && ms[9] == Member("committed_catalog_snapshot_sha256", NullOr(e.committedCatalogSha))
            && ms[10] == Member("nonce_state_sha256", NullOr(e.nonceStateSha))
            && ms[11] == Member("tier_a_results", Arr(ResultJsons(e.tierA)))
            && ms[12] == Member("tier_b_findings", Arr(FindingJsons(e.tierB)))
            && ms[13] == Member("action", Str(match e.action
                                             case Allow => "ALLOW" case Review => "REVIEW" case Block => "BLOCK"))
            && ms[14] == Member("previous_event_sha256", NullOr(e.previousSha))
            && ms[15] == Member("event_sha256", Str(e.sha))
  {
  }

  /** The hashed body is the record without the event's own hash. */
  lemma BodyIsRecordWithoutHash(render: TimeText, e: Event)
    ensures RecordJson(render, e).members[..15] == BodyJson(render, e).members
    ensures |RecordJson(render, e).members| == 16
    ensures RecordJson(render, e).members[15].key == "event_sha256"
  {
  }

  /** The records of a check result and of a finding. */
  lemma ResultAndFindingSay(r: CheckResult, f: Finding)
    ensures ResultJson(r) == Obj([
      Member("family", Str(r.family)),
      Member("status", Str(match r.status
                           case Pass => "PASS" case Fail => "FAIL" case NotEvaluable => "NOT_EVALUABLE")),
      Member("finding", if r.finding.None? then Null else FindingJson(r.finding.value)),
      Member("reason", NullOr(r.reason)) ])
    ensures FindingJson(f) == Obj([
      Member("family", Str(f.family)), Member("message", Str(f.message)), Member("details", Obj(f.details)) ])
  {
    assert |RESULT_FIELDS| == 4 && |FINDING_FIELDS| == 3;
  }

  lemma {:induction false} ListsSay(rs: seq<CheckResult>, fs: seq<Finding>)
    ensures forall i :: 0 <= i < |rs| ==> ResultJsons(rs)[i] == ResultJson(rs[i])
    ensures forall i :: 0 <= i < |fs| ==> FindingJsons(fs)[i] == FindingJson(fs[i])
    decreases |rs| + |fs|
  {
    if rs != [] {
      ListsSay(rs[1..], fs);
    } else if fs != [] {
      ListsSay(rs, fs[1..]);
    }
  }

  /**
   An accepted event is blocked exactly when it holds a Tier B finding or a failed check, sent to review exactly when it
   holds neither but a check that could not be evaluated, and allowed exactly when all eight checks passed.
   */
  lemma ActionSaysTheFindings(e: Event)
    requires ValidEvent(e)
    ensures e.action.Block? <==> e.tierB != [] || exists i :: 0 <= i < |e.tierA| && e.tierA[i].status == Fail
    ensures e.action.Review? <==>
              && e.tierB == [] && (forall i :: 0 <= i < |e.tierA| ==> e.tierA[i].status != Fail)
              && exists i :: 0 <= i < |e.tierA| && e.tierA[i].status == NotEvaluable
    ensures e.action.Allow? <==> e.tierB == [] && forall i :: 0 <= i < 8 ==> e.tierA[i].status == Pass
  {
    assert |TIER_A_ORDER| == 8;
  }

  // ----- What is accepted -----

  predicate HexDigest(s: string) {
    |s| == 64 && forall i :: 0 <= i < |s| ==> '0' <= s[i] <= '9' || 'a' <= s[i] <= 'f'
  }

  predicate NoneOrDigest(s: Option<string>) {
    s == None || HexDigest(s.value)
  }

  // A finding has a message and named scalar details in the order of their names.
  predicate Tells(f: Finding) {
    && f.message != "" && SortedKeys(f.details)
    && forall i :: 0 <= i < |f.details| ==>
         f.details[i].key != "" && !f.details[i].value.Arr? && !f.details[i].value.Obj?
  }

  // A failed check has its finding and no reason, one that could not be evaluated a reason and no finding, a passed one
  // neither.
  predicate Explains(r: CheckResult) {
    && (r.status == Pass ==> r.finding == None && r.reason == None)
    && (r.status == Fail ==>
          r.finding.Some? && r.finding.value.family == r.family && Tells(r.finding.value) && r.reason == None)
    && (r.status == NotEvaluable ==> r.finding == None && r.reason.Some? && |r.reason.value| > 0)
  }

  predicate TierBFamily(family: string) {
    family in ["B1", "B2", "B3", "B4", "B5", "B6", "B7", "B8", "B9", "B10"]
  }

  lemma FamilyLetters(i: nat)
    requires i < 24
    ensures |REGISTERED_FAMILIES| == 24 && REGISTERED_FAMILIES[i] != ""
    ensures REGISTERED_FAMILIES[i][0] == if i < 8 then 'A' else if i < 18 then 'B' else 'C'
  {
  }

  lemma TierBAt(i: nat)
    requires 8 <= i < 18
    ensures REGISTERED_FAMILIES[i] == ["B1", "B2", "B3", "B4", "B5", "B6", "B7", "B8", "B9", "B10"][i - 8]
  {
  }

  lemma TierBIsRegistered(family: string)
    requires TierBFamily(family)
    ensures InTier(family, 'B')
  {
    var k :| 0 <= k < 10 && ["B1", "B2", "B3", "B4", "B5", "B6", "B7", "B8", "B9", "B10"][k] == family;
    TierBAt(k + 8);
    FamilyLetters(k + 8);
  }

  lemma RegisteredTierB(family: string)
    requires InTier(family, 'B')
    ensures TierBFamily(family)
  {
    FamilyLetters(0);
    var i :| 0 <= i < |REGISTERED_FAMILIES| && REGISTERED_FAMILIES[i] == family;
    FamilyLetters(i);
    TierBAt(i);
  }

  lemma TierAFamilies(i: nat)
    requires i < 8
    ensures TIER_A_ORDER[i] == ["A1", "A2", "A3", "A4", "A5", "A6", "A7", "A8"][i] && InTier(TIER_A_ORDER[i], 'A')
  {
    assert REGISTERED_FAMILIES[i] == TIER_A_ORDER[i];
  }

  lemma TierAOrder()
    ensures TIER_A_ORDER == ["A1", "A2", "A3", "A4", "A5", "A6", "A7", "A8"]
    ensures forall i :: 0 <= i < 8 ==> InTier(TIER_A_ORDER[i], 'A')
  {
    forall i | 0 <= i < 8 ensures InTier(TIER_A_ORDER[i], 'A') {
      TierAFamilies(i);
    }
  }

  // The eight results of Tier A, in order.
  predicate EightResults(results: seq<CheckResult>) {
    |results| == 8 && forall i :: 0 <= i < 8 ==> ResultAt(results[i], i)
  }

  predicate ResultAt(r: CheckResult, i: nat)
    requires i < 8
  {
    r.family == ["A1", "A2", "A3", "A4", "A5", "A6", "A7", "A8"][i] && Explains(r)
  }

  predicate TierBFindings(findings: seq<Finding>) {
    forall i :: 0 <= i < |findings| ==> TierBFamily(findings[i].family) && Tells(findings[i])
  }

  predicate AllDigests(e: Event) {
    && HexDigest(e.mandateSha) && HexDigest(e.transactionSha) && HexDigest(e.sha)
    && NoneOrDigest(e.catalogSha) && NoneOrDigest(e.committedTransactionSha) && NoneOrDigest(e.committedCatalogSha)
    && NoneOrDigest(e.nonceStateSha) && NoneOrDigest(e.previousSha)
  }

  lemma ResultsAgree(results: seq<CheckResult>)
    ensures EightResults(results) <==>
              && |results| == |TIER_A_ORDER|
              && forall i :: 0 <= i < |results| ==> ValidResult(results[i]) && results[i].family == TIER_A_ORDER[i]
  {
    TierAOrder();
    if |results| == 8 {
      forall i | 0 <= i < 8
        ensures ResultAt(results[i], i) <==> ValidResult(results[i]) && results[i].family == TIER_A_ORDER[i]
      {
        TierAFamilies(i);
      }
    }
  }

  lemma FindingsAgree(findings: seq<Finding>)
    ensures TierBFindings(findings) <==>
              forall i :: 0 <= i < |findings| ==> ValidFinding(findings[i]) && InTier(findings[i].family, 'B')
  {
    forall i | 0 <= i < |findings|
      ensures TierBFamily(findings[i].family) && Tells(findings[i]) <==>
                ValidFinding(findings[i]) && InTier(findings[i].family, 'B')
    {
      if TierBFamily(findings[i].family) {
        TierBIsRegistered(findings[i].family);
      }
      if InTier(findings[i].family, 'B') {
        RegisteredTierB(findings[i].family);
      }
    }
  }

  predicate BlockedBy(e: Event) {
    e.tierB != [] || exists i :: 0 <= i < |e.tierA| && e.tierA[i].status == Fail
  }

  predicate ReviewedFor(e: Event) {
    exists i :: 0 <= i < |e.tierA| && e.tierA[i].status == NotEvaluable
  }

  /**
   An acceptable event: schema 1.1, a positive sequence number, a server time that is absent or the evaluation time,
   digests of 64 lower-case hex digits, the Tier A results A1 to A8 in order with what their status calls for, Tier B
   findings of B1 to B10, and the action all this calls for.
   */
  predicate Acceptable(e: Event) {
    && e.schemaVersion == "1.1" && e.sequence >= 1
    && (e.serverTime == None || e.serverTime == Some(e.evaluatedAt))
    && AllDigests(e) && EightResults(e.tierA) && TierBFindings(e.tierB)
    && e.action == if BlockedBy(e) then Block else if ReviewedFor(e) then Review else Allow
  }

  lemma ActionsAgree(e: Event)
    ensures ExpectedAction(e.tierA, e.tierB) == if BlockedBy(e) then Block else if ReviewedFor(e) then Review else Allow
  {
  }

  lemma DigestsAgree(e: Event)
    ensures AllDigests(e) <==>
              && IsDigest(e.mandateSha) && IsDigest(e.transactionSha) && IsDigest(e.sha)
              && IsNullableDigest(e.catalogSha) && IsNullableDigest(e.committedTransactionSha)
              && IsNullableDigest(e.committedCatalogSha) && IsNullableDigest(e.nonceStateSha)
              && IsNullableDigest(e.previousSha)
  {
    forall s ensures HexDigest(s) <==> IsDigest(s) {
    }
  }

  lemma ValidIsAcceptable(e: Event)
    ensures ValidEvent(e) <==> Acceptable(e)
  {
    ResultsAgree(e.tierA);
    FindingsAgree(e.tierB);
    ActionsAgree(e);
    DigestsAgree(e);
  }

  /** The strict decoder returns an event for its record exactly when the event is acceptable. */
  lemma AcceptedExactlyWhen(render: TimeText, read: TimeReader, e: Event)
    requires Readable(render, read)
    ensures FromJson(read, Canon(RecordJson(render, e))) == Some(e) <==> Acceptable(e)
  {
    ValidIsAcceptable(e);
    if ValidEvent(e) {
      RecordRoundTrip(render, read, e);
    }
  }
}
