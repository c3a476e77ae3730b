/** The digest of consent audit events: why canonical JSON makes it collision free, and why stored events re-hash. */
module ConsentDigest {
  import opened Wrappers
  import opened Strings
  import opened Json
  import opened JsonParser
  import CJ = CanonicalJson
  import opened Records
  import C = Consent
  import CR = ConsentRefinement
  import SC = SqlConsent

  const BODY_FIELDS: seq<string> := [
    "mandate_id", "mandate_version", "event", "previous_status", "current_status", "recorded_at", "reason",
    "decision_nonce", "execution_request_sha256", "authorization_result_sha256", "sequence", "previous_event_sha256"]

  lemma FieldNamesDistinct()
    ensures Distinct(BODY_FIELDS)
  {
    var f := BODY_FIELDS;
    forall i, j | 0 <= i < j < |f| ensures f[i] != f[j] {
      assert |f[i]| != |f[j]| || f[i][3] != f[j][3];
    }
  }

  function KindText(kind: C.EventKind): string {
    match kind
    case RegisteredActive => "MANDATE_REGISTERED_ACTIVE"
    case MandateRevoked => "MANDATE_REVOKED"
    case MandateSuperseded => "MANDATE_SUPERSEDED"
    case ExecutionRefused => "EXECUTION_REFUSED_MANDATE_STATE"
  }

  function StatusJson(status: Option<C.Status>): Json {
    match status
    case None => Null
    case Some(Active) => Str("ACTIVE")
    case Some(Revoked) => Str("REVOKED")
    case Some(Superseded) => Str("SUPERSEDED")
  }

  // The value of field i of BODY_FIELDS.
  function FieldJson(render: CJ.TimeText, body: C.EventBody, i: nat): Json {
    var entry := body.entry;
    match i
    case 0 => Str(entry.id.text)
    case 1 => Int(entry.version)
    case 2 => Str(KindText(entry.kind))
    case 3 => StatusJson(entry.previousStatus)
    case 4 => StatusJson(entry.currentStatus)
    case 5 => Str(render(entry.recordedAt))
    case 6 => Str(entry.reason)
    case 7 => if entry.evidence.None? then Null else Str(entry.evidence.value.nonce)
    case 8 => if entry.evidence.None? then Null else Str(entry.evidence.value.requestSha.hex)
    case 9 => if entry.evidence.None? then Null else Str(entry.evidence.value.resultSha.hex)
    case 10 => Int(body.sequence)
    case _ => if body.previousSha.None? then Null else Str(body.previousSha.value.hex)
  }

  function FieldJsons(render: CJ.TimeText, body: C.EventBody): (js: seq<Json>)
    ensures |js| == 12 && forall i :: 0 <= i < 12 ==> js[i] == FieldJson(render, body, i)
  {
    seq(12, i requires 0 <= i < 12 => FieldJson(render, body, i))
  }

  function BodyJson(render: CJ.TimeText, body: C.EventBody): Json {
    Obj(Zip(BODY_FIELDS, FieldJsons(render, body)))
  }

  // sha256_canonical of the event body.
  function EventHash(render: CJ.TimeText, sha: string -> string): C.EventHash {
    (body: C.EventBody) => C.Digest(sha(CJ.Text(BodyJson(render, body))))
  }

  ghost predicate Injective(sha: string -> string) {
    forall s, t :: sha(s) == sha(t) ==> s == t
  }

  lemma BodyIsDict(render: CJ.TimeText, body: C.EventBody)
    ensures DictTree(BodyJson(render, body))
  {
    FieldNamesDistinct();
    forall i | 0 <= i < 12 ensures DictTree(FieldJsons(render, body)[i]) {
    }
    ZipIsDict(BODY_FIELDS, FieldJsons(render, body));
  }

  lemma SameTextSameField(render: CJ.TimeText, a: C.EventBody, b: C.EventBody, i: nat)
    requires CJ.Text(BodyJson(render, a)) == CJ.Text(BodyJson(render, b)) && i < 12
    ensures FieldJson(render, a, i) == FieldJson(render, b, i)
  {
    BodyIsDict(render, a);
    BodyIsDict(render, b);
    FieldNamesDistinct();
    SameTextSameValues(BODY_FIELDS, FieldJsons(render, a), FieldJsons(render, b));
    CanonFieldAt(render, a, i);
    CanonFieldAt(render, b, i);
  }

  lemma CanonFieldAt(render: CJ.TimeText, body: C.EventBody, i: nat)
    requires i < 12
    ensures CanonItems(FieldJsons(render, body))[i] == FieldJson(render, body, i)
  {
    CanonItemAt(FieldJsons(render, body));
  }

  lemma KindTextInjective(a: C.EventKind, b: C.EventKind)
    requires KindText(a) == KindText(b)
    ensures a == b
  {
    assert |KindText(a)| == |KindText(b)|;
  }

  lemma StatusJsonInjective(a: Option<C.Status>, b: Option<C.Status>)
    requires StatusJson(a) == StatusJson(b)
    ensures a == b
  {
    if a.Some? && b.Some? {
      assert |StatusJson(a).s| == |StatusJson(b).s|;
    }
  }

  lemma FieldsDetermineEntry(render: CJ.TimeText, read: CJ.TimeReader, a: C.EventBody, b: C.EventBody)
    requires CJ.Readable(render, read) && a.entry.id.Uuid? && b.entry.id.Uuid?
    requires forall i :: 0 <= i < 12 ==> FieldJson(render, a, i) == FieldJson(render, b, i)
    ensures a == b
  {
    var fa, fb := (i: nat) => FieldJson(render, a, i), (i: nat) => FieldJson(render, b, i);
    assert forall i :: 0 <= i < 12 ==> fa(i) == fb(i);
    assert fa(0) == fb(0) && fa(1) == fb(1) && fa(6) == fb(6) && fa(10) == fb(10) && fa(11) == fb(11);
    assert fa(7) == fb(7) && fa(8) == fb(8) && fa(9) == fb(9);
    assert fa(2) == fb(2) && fa(3) == fb(3) && fa(4) == fb(4) && fa(5) == fb(5);
    KindTextInjective(a.entry.kind, b.entry.kind);
    StatusJsonInjective(a.entry.previousStatus, b.entry.previousStatus);
    StatusJsonInjective(a.entry.currentStatus, b.entry.currentStatus);
    assert read(render(a.entry.recordedAt)) == read(render(b.entry.recordedAt));
  }

  /** With a collision-free SHA-256, the digest of canonical JSON is what the registry proofs ask for. */
  lemma CanonicalDigestIsCollisionFree(render: CJ.TimeText, read: CJ.TimeReader, sha: string -> string)
    requires CJ.Readable(render, read) && Injective(sha)
    ensures C.CollisionFree(EventHash(render, sha))
  {
    var hash := EventHash(render, sha);
    forall a: C.EventBody, b: C.EventBody | a.entry.id.Uuid? && b.entry.id.Uuid? && hash(a) == hash(b) ensures a == b {
      assert CJ.Text(BodyJson(render, a)) == CJ.Text(BodyJson(render, b));
      forall i | 0 <= i < 12 ensures FieldJson(render, a, i) == FieldJson(render, b, i) {
        SameTextSameField(render, a, b, i);
      }
      FieldsDetermineEntry(render, read, a, b);
    }
  }

  /** So, hashing canonical JSON, the SQLite registry follows the dictionaries over every run of calls. */
  lemma RegistriesAgreeOverCanonicalJson(render: CJ.TimeText, read: CJ.TimeReader, sha: string -> string,
                                         ops: seq<C.Op>, i: nat)
    requires CJ.Readable(render, read) && Injective(sha) && i < |ops|
    ensures var hash := EventHash(render, sha); var sql, dict := SC.SqlOutcomes(hash, ops), C.Outcomes(hash, ops);
            && CR.Represents(SC.SqlRun(hash, ops), C.Run(hash, ops))
            && |sql| == |dict| == |ops| && (sql[i] == dict[i] <==> !CR.AnswersDiffer(ops[i]))
  {
    CanonicalDigestIsCollisionFree(render, read, sha);
    CR.SqlRefinesDictionaries(EventHash(render, sha), ops);
  }

  // ----- Re-hashing a stored event -----

  // {key: value for key, value in event.items() if key != removed}
  function Without(ms: seq<Member>, removed: string): seq<Member> {
    if ms == [] then []
    else if ms[0].key == removed then Without(ms[1..], removed)
    else [ms[0]] + Without(ms[1..], removed)
  }

  lemma {:induction false} WithoutSpec(ms: seq<Member>, removed: string)
    requires DistinctKeys(ms)
    ensures Fields(Without(ms, removed)) == Fields(ms) - {removed}
    ensures forall m :: m in Without(ms, removed) ==> m in ms
    ensures DistinctKeys(Without(ms, removed))
  {
    if ms != [] {
      var tail := Without(ms[1..], removed);
      assert ms == [ms[0]] + ms[1..];
      forall i, j | 0 <= i < j < |ms| - 1 ensures ms[1..][i].key != ms[1..][j].key {
      }
      WithoutSpec(ms[1..], removed);
      forall i | 0 <= i < |tail| ensures tail[i].key != ms[0].key {
        assert tail[i] in ms[1..];
      }
      assert ([ms[0]] + tail)[1..] == tail;
    }
  }

  lemma {:induction false} AppendedField(ms: seq<Member>, key: string, value: Json)
    requires !HasKey(ms, key)
    ensures Fields(ms + [Member(key, value)]) == Fields(ms)[key := Meaning(value)]
  {
    if ms == [] {
      assert [Member(key, value)][1..] == [];
    } else {
      assert (ms + [Member(key, value)])[1..] == ms[1..] + [Member(key, value)];
      assert ms[0].key != key;
      forall i | 0 <= i < |ms| - 1 ensures ms[1..][i].key != key {
        assert ms[1..][i] == ms[i + 1];
      }
      AppendedField(ms[1..], key, value);
    }
  }

  lemma StoredMembers(ms: seq<Member>, key: string, sha: string, ps: seq<Member>)
    requires DictTree(Obj(ms)) && !HasKey(ms, key) && Canon(Obj(ms + [Member(key, Str(sha))])) == Obj(ps)
    ensures DictTree(Obj(ms + [Member(key, Str(sha))])) && DictTree(Obj(ps))
    ensures Fields(ps) == Fields(ms)[key := DStr(sha)]
  {
    var record := Obj(ms + [Member(key, Str(sha))]);
    assert DictTree(record);
    CanonSpec(record);
    CanonicalIsDictTree(Canon(record));
    AppendedField(ms, key, Str(sha));
  }

  lemma FieldIsLookup(ps: seq<Member>, key: string, sha: string)
    requires DistinctKeys(ps) && key in Fields(ps) && Fields(ps)[key] == DStr(sha)
    ensures Lookup(ps, key) == Some(Str(sha))
  {
    FieldsHoldMembers(ps);
    var k :| 0 <= k < |ps| && ps[k].key == key;
    LookupMember(ps, k);
  }

  /**
   audit_events: a body stored with its hash, parsed back, stripped of the hash and serialised again is the
   very text that was hashed, whatever order the stored members come back in.
   */
  lemma StoredEventRehashes(ms: seq<Member>, key: string, sha: string)
    requires DictTree(Obj(ms)) && !HasKey(ms, key)
    ensures var stored := Parse(CJ.Text(Obj(ms + [Member(key, Str(sha))])));
            && stored.Some? && stored.value.Obj?
            && Lookup(stored.value.members, key) == Some(Str(sha))
            && CJ.Text(Obj(Without(stored.value.members, key))) == CJ.Text(Obj(ms))
  {
    var record := Obj(ms + [Member(key, Str(sha))]);
    var ps := SortMembers(CanonMembers(ms + [Member(key, Str(sha))]));
    StoredMembers(ms, key, sha, ps);
    CJ.TextParsesBack(record);
    FieldIsLookup(ps, key, sha);
    WithoutSpec(ps, key);
    FieldsHoldMembers(ms);
    RemoveAdded(Fields(ms), key, DStr(sha));
    WithoutIsDict(ps, key);
    CJ.SameTextExactlyWhenEqual(Obj(Without(ps, key)), Obj(ms));
  }

  lemma WithoutIsDict(ms: seq<Member>, removed: string)
    requires DictTree(Obj(ms))
    ensures DictTree(Obj(Without(ms, removed)))
  {
    WithoutSpec(ms, removed);
    var r := Without(ms, removed);
    forall i | 0 <= i < |r| ensures DictTree(r[i].value) {
      assert r[i] in ms;
    }
  }

  // ----- What the hashed body says -----

  function EvidenceText(entry: C.Entry, pick: C.Evidence -> string): Json {
    if entry.evidence.None? then Null else Str(pick(entry.evidence.value))
  }

  /** A status is written by name, an unobserved one as null. */
  lemma StatusReads(status: Option<C.Status>)
    ensures StatusJson(status) == if status == Some(C.Active) then Str("ACTIVE")
                                  else if status == Some(C.Revoked) then Str("REVOKED")
                                  else if status == Some(C.Superseded) then Str("SUPERSEDED")
                                  else Null
  {
  }

  /** The twelve members of the text an audit event's hash is taken over. */
  lemma BodyStarts(render: CJ.TimeText, body: C.EventBody)
    ensures var ms, entry := BodyJson(render, body).members, body.entry;
            && |ms| == 12
            && ms[0] == Member("mandate_id", Str(entry.id.text))
            && ms[1] == Member("mandate_version", Int(entry.version))
            && ms[2] == Member("event", Str(match entry.kind
                                            case RegisteredActive => "MANDATE_REGISTERED_ACTIVE"
                                            case MandateRevoked => "MANDATE_REVOKED"
                                            case MandateSuperseded => "MANDATE_SUPERSEDED"
                                            case ExecutionRefused => "EXECUTION_REFUSED_MANDATE_STATE"))
            && ms[3] == Member("previous_status", StatusJson(entry.previousStatus))
            && ms[4] == Member("current_status", StatusJson(entry.currentStatus))
            && ms[5] == Member("recorded_at", Str(render(entry.recordedAt)))
  {
  }

  lemma BodyEnds(render: CJ.TimeText, body: C.EventBody)
    ensures var ms, entry := BodyJson(render, body).members, body.entry;
            && |ms| == 12
            && ms[6] == Member("reason", Str(entry.reason))
            && ms[7] == Member("decision_nonce", EvidenceText(entry, (e: C.Evidence) => e.nonce))
            && ms[8] == Member("execution_request_sha256", EvidenceText(entry, (e: C.Evidence) => e.requestSha.hex))
            && ms[9] == Member("authorization_result_sha256", EvidenceText(entry, (e: C.Evidence) => e.resultSha.hex))
            && ms[10] == Member("sequence", Int(body.sequence))
            && ms[11] == Member("previous_event_sha256",
                                if body.previousSha.None? then Null else Str(body.previousSha.value.hex))
  {
  }
}
