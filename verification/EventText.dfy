/** The canonical text of decision events: what is hashed, what is stored, and how strictly it is read. */
module EventText {
  import opened Wrappers
  import opened Json
  import opened JsonParser
  import opened CanonicalJson
  import opened Records
  import opened DecisionEvents

  // canonical_event_body_bytes
  function BodyText(render: TimeText, e: Event): string {
    Text(BodyJson(render, e))
  }

  // canonical_event_bytes
  function RecordText(render: TimeText, e: Event): string {
    Text(RecordJson(render, e))
  }

  /** One line read strictly: JSON, a valid event, and its own canonical text. */
  function ReadRecord(render: TimeText, read: TimeReader, line: string): (r: Option<Event>)
    ensures r.Some? ==> ValidEvent(r.value) && RecordText(render, r.value) == line
  {
    var decoded := Parse(line);
    if decoded.None? then None
    else
      var e := FromJson(read, decoded.value);
      if e.Some? && RecordText(render, e.value) == line then e else None
  }

  /** Every valid event is read back from its canonical text. */
  lemma RecordTextReadsBack(render: TimeText, read: TimeReader, e: Event)
    requires Readable(render, read) && ValidEvent(e)
    ensures ReadRecord(render, read, RecordText(render, e)) == Some(e)
  {
    RecordIsDict(render, e);
    TextParsesBack(RecordJson(render, e));
    RecordRoundTrip(render, read, e);
  }

  lemma BodyIgnoresSha(render: TimeText, e: Event, sha: string)
    ensures BodyText(render, e.(sha := sha)) == BodyText(render, e)
  {
    assert FieldJsons(render, e.(sha := sha), 15) == FieldJsons(render, e, 15);
  }

  lemma CanonFieldAt(render: TimeText, e: Event, count: nat, i: nat)
    requires i < count
    ensures CanonItems(FieldJsons(render, e, count))[i] == Canon(FieldJson(render, e, i))
  {
    CanonItemAt(FieldJsons(render, e, count));
  }

  lemma SameTextSameFields(render: TimeText, a: Event, b: Event, i: nat)
    requires ValidEvent(a) && ValidEvent(b) && BodyText(render, a) == BodyText(render, b) && i < 15
    ensures Canon(FieldJson(render, a, i)) == Canon(FieldJson(render, b, i))
  {
    RecordIsDict(render, a);
    RecordIsDict(render, b);
    EventFieldsDistinct();
    SameTextSameValues(BODY_FIELDS, FieldJsons(render, a, 15), FieldJsons(render, b, 15));
    CanonFieldAt(render, a, 15, i);
    CanonFieldAt(render, b, 15, i);
  }

  lemma ReplacedShaStaysValid(e: Event, sha: string)
    requires ValidEvent(e) && IsDigest(sha)
    ensures ValidEvent(e.(sha := sha))
  {
  }

  lemma SameRecordField(render: TimeText, a: Event, b: Event, i: nat)
    requires ValidEvent(a) && ValidEvent(b) && BodyText(render, a) == BodyText(render, b) && i < 16
    ensures Canon(FieldJson(render, a, i)) == Canon(FieldJson(render, b.(sha := a.sha), i))
  {
    if i < 15 {
      SameTextSameFields(render, a, b, i);
      assert FieldJson(render, b.(sha := a.sha), i) == FieldJson(render, b, i);
    }
  }

  lemma SameTextSameRecord(render: TimeText, a: Event, b: Event)
    requires ValidEvent(a) && ValidEvent(b) && BodyText(render, a) == BodyText(render, b)
    ensures CanonItems(FieldJsons(render, a, 16)) == CanonItems(FieldJsons(render, b.(sha := a.sha), 16))
  {
    var c := b.(sha := a.sha);
    var va, vc := CanonItems(FieldJsons(render, a, 16)), CanonItems(FieldJsons(render, c, 16));
    forall i | 0 <= i < 16 ensures va[i] == vc[i] {
      CanonFieldAt(render, a, 16, i);
      CanonFieldAt(render, c, 16, i);
      SameRecordField(render, a, b, i);
    }
  }

  /** Two events with one body text differ at most in their own hash. */
  lemma BodyTextDeterminesBody(render: TimeText, read: TimeReader, a: Event, b: Event)
    requires Readable(render, read) && ValidEvent(a) && ValidEvent(b) && BodyText(render, a) == BodyText(render, b)
    ensures a == b.(sha := a.sha)
  {
    var v := CanonItems(FieldJsons(render, a, 16));
    SameTextSameRecord(render, a, b);
    ReplacedShaStaysValid(b, a.sha);
    ValuesRoundTrip(render, read, a, v);
    ValuesRoundTrip(render, read, b.(sha := a.sha), v);
  }
}
