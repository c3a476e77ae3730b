/** The hand-written manifest: its printer, its line reader, and the write-once rewrite of first_run_at. */
module Manifest {
  import opened Wrappers
  import opened Strings
  import opened Framing

  // ----- Records -----

  datatype Cell = Cell(key: string, value: Option<string>)

  // A dict in insertion order.
  type Record = seq<Cell>

  function Keys(r: Record): (keys: seq<string>)
    ensures |keys| == |r|
  {
    if r == [] then [] else [r[0].key] + Keys(r[1..])
  }

  function Get(r: Record, key: string): Option<Cell> {
    if r == [] then None else if r[0].key == key then Some(r[0]) else Get(r[1..], key)
  }

  // record[key] = value: in place, or at the end.
  function Put(r: Record, key: string, value: Option<string>): Record {
    if r == [] then [Cell(key, value)]
    else if r[0].key == key then [Cell(key, value)] + r[1..]
    else [r[0]] + Put(r[1..], key, value)
  }

  const MANIFEST_CASE_FIELDS: seq<string> := [
    "case_id", "evidence_tier", "family_id", "provenance", "split", "ground_truth", "label_source",
    "label_recorded_at", "case_content_sha256", "first_run_at", "expected_action"]

  // A field name the line format can carry: no colon, space or quote.
  predicate PlainName(name: string) {
    name != "" && forall i :: 0 <= i < |name| ==> name[i] == '_' || 'a' <= name[i] <= 'z' || '0' <= name[i] <= '9'
  }

  predicate PlainFields(fields: seq<string>) {
    fields != [] && Distinct(fields) && forall i :: 0 <= i < |fields| ==> PlainName(fields[i])
  }

  // ----- Scalars -----

  predicate SafeChar(c: char) {
    'A' <= c <= 'Z' || 'a' <= c <= 'z' || '0' <= c <= '9' || c == ':' || c == '_' || c == '.' || c == '-'
  }

  // What the writer agrees to quote; null is always written.
  predicate Safe(value: Option<string>) {
    value.Some? ==> value.value != "" && forall i :: 0 <= i < |value.value| ==> SafeChar(value.value[i])
  }

  function Scalar(value: Option<string>): string {
    if value.None? then "null" else "\"" + value.value + "\""
  }

  // ----- Printing -----

  const FIRST_PREFIX := "  - "
  const NEXT_PREFIX := "    "

  function CellLine(prefix: string, c: Cell): string {
    prefix + (c.key + (": " + Scalar(c.value)))
  }

  function RecordLines(r: Record): (lines: seq<string>)
    ensures |lines| == |r|
  {
    seq(|r|, i requires 0 <= i < |r| => CellLine(if i == 0 then FIRST_PREFIX else NEXT_PREFIX, r[i]))
  }

  function CasesLines(records: seq<Record>): seq<string> {
    if records == [] then [] else CasesLines(records[..|records| - 1]) + RecordLines(records[|records| - 1])
  }

  // A record the writer accepts: exactly the fields, in order, with safe values.
  predicate Writable(fields: seq<string>, r: Record) {
    Keys(r) == fields && AllSafe(r)
  }

  predicate AllSafe(r: Record) {
    forall i :: 0 <= i < |r| ==> Safe(r[i].value)
  }

  predicate AllWritable(fields: seq<string>, records: seq<Record>) {
    forall i :: 0 <= i < |records| ==> Writable(fields, records[i])
  }

  function CasesBlock(records: seq<Record>): string {
    Terminate(["cases:"] + CasesLines(records))
  }

  function ManifestText(preamble: string, records: seq<Record>): string {
    preamble + CasesBlock(records)
  }

  // The record has every field; what else it has is not printed.
  predicate Complete(fields: seq<string>, r: Record) {
    forall i :: 0 <= i < |fields| ==> Get(r, fields[i]).Some?
  }

  // The fields in the registered order, whatever the record's own order.
  function Projected(fields: seq<string>, r: Record): (p: Record)
    requires Complete(fields, r)
    ensures |p| == |fields|
  {
    seq(|fields|, i requires 0 <= i < |fields| => Get(r, fields[i]).value)
  }

  predicate Printable(fields: seq<string>, r: Record) {
    Complete(fields, r) && AllSafe(Projected(fields, r))
  }

  function ProjectAll(fields: seq<string>, records: seq<Record>): seq<Record>
    requires forall i :: 0 <= i < |records| ==> Printable(fields, records[i])
  {
    if records == [] then []
    else
      var last := records[|records| - 1];
      assert Printable(fields, last);
      ProjectAll(fields, records[..|records| - 1]) + [Projected(fields, last)]
  }

  // One record's lines; None is a missing field or the refusal of an unsafe scalar.
  method RenderRecord(fields: seq<string>, r: Record) returns (lines: Option<seq<string>>)
    ensures lines == if Printable(fields, r) then Some(RecordLines(Projected(fields, r))) else None
  {
    var done: seq<string> := [];
    var first := true;
    for i := 0 to |fields|
      invariant forall k :: 0 <= k < i ==> Get(r, fields[k]).Some? && Safe(Get(r, fields[k]).value.value)
      invariant first <==> i == 0
      invariant |done| == i
      invariant forall k :: 0 <= k < i ==>
                  done[k] == CellLine(if k == 0 then FIRST_PREFIX else NEXT_PREFIX, Get(r, fields[k]).value)
    {
      var cell := Get(r, fields[i]);
      if cell.None? {
        return None;
      }
      if !Safe(cell.value.value) {
        assert Complete(fields, r) ==> Projected(fields, r)[i] == cell.value;
        return None;
      }
      done := done + [CellLine(if first then FIRST_PREFIX else NEXT_PREFIX, cell.value)];
      first := false;
    }
    assert done == RecordLines(Projected(fields, r));
    return Some(done);
  }

  /**
   render_manifest: refuses an empty list, a missing field and an unsafe scalar, and prints all else in field order.
   */
  method RenderManifest(fields: seq<string>, preamble: string, records: seq<Record>) returns (text: Option<string>)
    ensures text == if records != [] && forall i :: 0 <= i < |records| ==> Printable(fields, records[i])
                    then Some(ManifestText(preamble, ProjectAll(fields, records))) else None
  {
    if records == [] {
      return None;
    }
    var lines: seq<string> := [];
    for i := 0 to |records|
      invariant forall k :: 0 <= k < i ==> Printable(fields, records[k])
      invariant lines == CasesLines(ProjectAll(fields, records[..i]))
    {
      var rendered := RenderRecord(fields, records[i]);
      if rendered.None? {
        assert !Printable(fields, records[i]);
        return None;
      }
      assert records[..i + 1][..i] == records[..i];
      CasesLinesGrow(ProjectAll(fields, records[..i]), Projected(fields, records[i]));
      lines := lines + rendered.value;
    }
    assert records[..|records|] == records;
    return Some(preamble + Terminate(["cases:"] + lines));
  }

  lemma CasesLinesGrow(records: seq<Record>, r: Record)
    ensures CasesLines(records + [r]) == CasesLines(records) + RecordLines(r)
  {
    assert (records + [r])[..|records|] == records;
  }

  lemma {:induction false} GetAt(r: Record, i: nat)
    requires Distinct(Keys(r)) && i < |r|
    ensures Get(r, r[i].key) == Some(r[i])
  {
    if i > 0 {
      var keys, tail := Keys(r), Keys(r[1..]);
      assert keys == [r[0].key] + tail;
      assert forall k :: 0 <= k < |tail| ==> tail[k] == keys[k + 1];
      KeyAt(r, i);
      assert keys[0] != keys[i];
      GetAt(r[1..], i - 1);
    }
  }

  lemma WritableIsItsProjection(fields: seq<string>, r: Record)
    requires Distinct(fields) && Writable(fields, r)
    ensures Printable(fields, r) && Projected(fields, r) == r
  {
    forall i | 0 <= i < |fields| ensures Get(r, fields[i]) == Some(r[i]) {
      KeyAt(r, i);
      GetAt(r, i);
    }
  }

  /** A record that already has exactly the fields in order prints as it stands. */
  lemma {:induction false} WritablePrintsAsIs(fields: seq<string>, records: seq<Record>)
    requires Distinct(fields) && AllWritable(fields, records)
    ensures forall i :: 0 <= i < |records| ==> Printable(fields, records[i])
    ensures ProjectAll(fields, records) == records
  {
    forall i | 0 <= i < |records| ensures Printable(fields, records[i]) {
      assert Writable(fields, records[i]);
      WritableIsItsProjection(fields, records[i]);
    }
    if records != [] {
      var before, last := records[..|records| - 1], records[|records| - 1];
      assert forall i :: 0 <= i < |before| ==> before[i] == records[i];
      WritablePrintsAsIs(fields, before);
      assert Writable(fields, last);
      WritableIsItsProjection(fields, last);
      assert records == before + [last];
    }
  }

  // ----- Reading -----

  // str.splitlines: every line boundary Python knows; "\r\n" counts once.
  predicate IsBreak(c: char) {
    '\n' <= c <= '\r' || '\U{1c}' <= c <= '\U{1e}' || c == '\U{85}' || c == '\U{2028}' || c == '\U{2029}'
  }

  function SplitLines(s: string): seq<string>
    decreases |s|
  {
    if s == "" then []
    else if s[0] == '\r' && |s| > 1 && s[1] == '\n' then [""] + SplitLines(s[2..])
    else if IsBreak(s[0]) then [""] + SplitLines(s[1..])
    else
      var others := SplitLines(s[1..]);
      if others == [] then [[s[0]]]
      else [[s[0]] + others[0]] + others[1..]
  }

  // str.isspace
  predicate IsSpace(c: char) {
    || '\t' <= c <= '\r' || '\U{1c}' <= c <= '\U{20}' || c == '\U{85}' || c == '\U{a0}' || c == '\U{1680}'
    || '\U{2000}' <= c <= '\U{200a}' || c == '\U{2028}' || c == '\U{2029}' || c == '\U{202f}' || c == '\U{205f}'
        || c == '\U{3000}'
  }

  function StripLeft(s: string, drop: char -> bool): (r: string)
    ensures |r| <= |s|
  {
    if s != "" && drop(s[0]) then StripLeft(s[1..], drop) else s
  }

  function StripRight(s: string, drop: char -> bool): (r: string)
    ensures |r| <= |s|
  {
    if s != "" && drop(s[|s| - 1]) then StripRight(s[..|s| - 1], drop) else s
  }

  function Strip(s: string, drop: char -> bool): string {
    StripRight(StripLeft(s, drop), drop)
  }

  // partition(": "): the text before the first separator and the text after it.
  function PartitionAt(s: string): nat
    ensures PartitionAt(s) <= |s|
  {
    if s == "" || (|s| > 1 && s[0] == ':' && s[1] == ' ') then 0 else 1 + PartitionAt(s[1..])
  }

  function ReadCell(line: string): Cell {
    var text := Strip(line, c => IsSpace(c));
    var at := PartitionAt(text);
    var raw := if at + 2 <= |text| then text[at + 2..] else "";
    Cell(text[..at], if raw == "null" then None else Some(Strip(raw, c => c == '"')))
  }

  datatype Reading = Reading(done: seq<Record>, current: Record)

  function Feed(state: Reading, line: string): Reading {
    if StartsWith(line, FIRST_PREFIX) then
      var c := ReadCell(NEXT_PREFIX + line[4..]);
      Reading(if state.current == [] then state.done else state.done + [state.current], Put([], c.key, c.value))
    else
      var c := ReadCell(line);
      Reading(state.done, Put(state.current, c.key, c.value))
  }

  function FeedAll(state: Reading, lines: seq<string>): Reading
    decreases |lines|
  {
    if lines == [] then state else Feed(FeedAll(state, lines[..|lines| - 1]), lines[|lines| - 1])
  }

  function Finish(state: Reading): seq<Record> {
    if state.current == [] then state.done else state.done + [state.current]
  }

  // str.index: the first occurrence of a pattern.
  function FirstIndex(s: string, pattern: string): (i: Option<nat>)
    ensures i.Some? ==> i.value + |pattern| <= |s|
  {
    if StartsWith(s, pattern) then Some(0)
    else if s == "" then None
    else
      var later := FirstIndex(s[1..], pattern);
      if later.None? then None else Some(1 + later.value)
  }

  const CASES_LINE := "\ncases:\n"

  // One turn of the reading loop.
  method TakeLine(done: seq<Record>, current: Record, line: string) returns (done': seq<Record>, current': Record)
    ensures Reading(done', current') == Feed(Reading(done, current), line)
  {
    done', current' := done, current;
    var text := line;
    if StartsWith(line, FIRST_PREFIX) {
      if current != [] {
        done' := done + [current];
      }
      current' := [];
      text := NEXT_PREFIX + line[4..];
    }
    var c := ReadCell(text);
    current' := Put(current', c.key, c.value);
  }

  /** read_manifest_records on normalised text; None is the ValueError of a text without a cases line. */
  method ReadManifest(text: string) returns (records: Option<seq<Record>>)
    ensures records == Read(text)
  {
    var at := FirstIndex(text, CASES_LINE);
    if at.None? {
      return None;
    }
    var lines := SplitLines(text[at.value + |CASES_LINE|..]);
    var done, current := FeedLines(lines);
    return Some(if current == [] then done else done + [current]);
  }

  method FeedLines(lines: seq<string>) returns (done: seq<Record>, current: Record)
    ensures Reading(done, current) == FeedAll(Reading([], []), lines)
  {
    done, current := [], [];
    for i := 0 to |lines|
      invariant Reading(done, current) == FeedAll(Reading([], []), lines[..i])
    {
      FeedNext(Reading([], []), lines, i);
      done, current := TakeLine(done, current, lines[i]);
    }
    assert lines[..|lines|] == lines;
  }

  function Read(text: string): Option<seq<Record>> {
    var at := FirstIndex(text, CASES_LINE);
    if at.None? then None
    else Some(Finish(FeedAll(Reading([], []), SplitLines(text[at.value + |CASES_LINE|..]))))
  }

  // ----- Reading back what was printed -----

  lemma {:induction false} StripLeftStops(a: string, s: string, drop: char -> bool)
    requires (forall i :: 0 <= i < |a| ==> drop(a[i])) && (s != "" ==> !drop(s[0]))
    ensures StripLeft(a + s, drop) == s
  {
    if a == "" {
      assert a + s == s;
    } else {
      assert (a + s)[1..] == a[1..] + s;
      StripLeftStops(a[1..], s, drop);
    }
  }

  lemma {:induction false} StripRightStops(s: string, b: string, drop: char -> bool)
    requires (forall i :: 0 <= i < |b| ==> drop(b[i])) && (s != "" ==> !drop(s[|s| - 1]))
    ensures StripRight(s + b, drop) == s
  {
    if b == "" {
      assert s + b == s;
    } else {
      assert (s + b)[..|s + b| - 1] == s + b[..|b| - 1];
      StripRightStops(s, b[..|b| - 1], drop);
    }
  }

  lemma {:induction false} PartitionFindsSeparator(name: string, rest: string)
    requires forall i :: 0 <= i < |name| ==> name[i] != ':'
    ensures PartitionAt(name + (": " + rest)) == |name|
  {
    if name == "" {
      assert name + (": " + rest) == ": " + rest;
    } else {
      assert (name + (": " + rest))[1..] == name[1..] + (": " + rest);
      PartitionFindsSeparator(name[1..], rest);
    }
  }

  lemma ScalarReadsBack(value: Option<string>)
    requires Safe(value)
    ensures var raw := Scalar(value);
            (if raw == "null" then None else Some(Strip(raw, c => c == '"'))) == value
  {
    if value.Some? {
      var v := value.value;
      assert Scalar(value)[0] == '"' && "null"[0] == 'n';
      StripLeftStops("\"", v + "\"", c => c == '"');
      StripRightStops(v, "\"", c => c == '"');
      assert "\"" + v + "\"" == "\"" + (v + "\"");
    }
  }

  lemma ScalarEnds(value: Option<string>)
    requires Safe(value)
    ensures var raw := Scalar(value); raw != "" && !IsSpace(raw[|raw| - 1])
  {
  }

  /** A printed cell reads back as itself. */
  lemma CellReadsBack(c: Cell)
    requires PlainName(c.key) && Safe(c.value)
    ensures ReadCell(CellLine(NEXT_PREFIX, c)) == c
  {
    var raw := Scalar(c.value);
    var text := c.key + (": " + raw);
    ScalarEnds(c.value);
    StripLeftStops(NEXT_PREFIX, text, c => IsSpace(c));
    StripRightStops(text, "", c => IsSpace(c));
    assert text + "" == text;
    PartitionFindsSeparator(c.key, raw);
    assert text[..|c.key|] == c.key && text[|c.key| + 2..] == raw;
    ScalarReadsBack(c.value);
  }

  lemma {:induction false} FeedAllAppend(state: Reading, a: seq<string>, b: seq<string>)
    ensures FeedAll(state, a + b) == FeedAll(FeedAll(state, a), b)
  {
    if b == [] {
      assert a + b == a;
    } else {
      assert (a + b)[..|a + b| - 1] == a + b[..|b| - 1];
      FeedAllAppend(state, a, b[..|b| - 1]);
    }
  }

  lemma FirstLineFeeds(state: Reading, c: Cell)
    requires PlainName(c.key) && Safe(c.value)
    ensures Feed(state, CellLine(FIRST_PREFIX, c)) == Reading(Finish(state), [c])
  {
    var line := CellLine(FIRST_PREFIX, c);
    assert line[..4] == FIRST_PREFIX;
    assert NEXT_PREFIX + line[4..] == CellLine(NEXT_PREFIX, c);
    CellReadsBack(c);
  }

  lemma {:induction false} PutNew(r: Record, key: string, value: Option<string>)
    requires forall i :: 0 <= i < |r| ==> r[i].key != key
    ensures Put(r, key, value) == r + [Cell(key, value)]
  {
    if r != [] {
      PutNew(r[1..], key, value);
    }
  }

  lemma NextLineFeeds(state: Reading, c: Cell)
    requires PlainName(c.key) && Safe(c.value) && forall i :: 0 <= i < |state.current| ==> state.current[i].key != c.key
    ensures Feed(state, CellLine(NEXT_PREFIX, c)) == Reading(state.done, state.current + [c])
  {
    var line := CellLine(NEXT_PREFIX, c);
    assert line[2] == ' ' && FIRST_PREFIX[2] == '-';
    assert !StartsWith(line, FIRST_PREFIX) by {
      assert |line| > 4 ==> line[..4][2] == ' ';
    }
    CellReadsBack(c);
    PutNew(state.current, c.key, c.value);
  }

  lemma {:induction false} KeyAt(r: Record, i: nat)
    requires i < |r|
    ensures Keys(r)[i] == r[i].key
  {
    if i > 0 {
      KeyAt(r[1..], i - 1);
    }
  }

  lemma FeedNext(state: Reading, lines: seq<string>, i: nat)
    requires i < |lines|
    ensures FeedAll(state, lines[..i + 1]) == Feed(FeedAll(state, lines[..i]), lines[i])
  {
    assert lines[..i + 1] == lines[..i] + [lines[i]];
    FeedOne(state, lines[..i], lines[i]);
  }

  lemma FeedOne(state: Reading, lines: seq<string>, line: string)
    ensures FeedAll(state, lines + [line]) == Feed(FeedAll(state, lines), line)
  {
    assert (lines + [line])[..|lines|] == lines;
  }

  lemma KeysApart(fields: seq<string>, r: Record, k: nat)
    requires Distinct(fields) && Keys(r) == fields && k < |r|
    ensures forall i :: 0 <= i < k ==> r[i].key != r[k].key
  {
    KeyAt(r, k);
    forall i | 0 <= i < k ensures r[i].key != r[k].key {
      KeyAt(r, i);
    }
  }

  // Feeding line i to a reader that has taken the cells before it adds cell i.
  ghost predicate TakesLine(run: seq<string> -> Reading, done: seq<Record>, r: Record, i: nat, lines: seq<string>)
    requires i < |r|
  {
    run(lines) == Reading(done, r[..i]) ==> run(lines + [RecordLines(r)[i]]) == Reading(done, r[..i + 1])
  }

  lemma {:induction false} LineByLine(run: seq<string> -> Reading, done: seq<Record>, r: Record, k: nat)
    requires 0 < k <= |r| && run(RecordLines(r)[..1]) == Reading(done, r[..1])
    requires forall i, lines :: 0 < i < |r| ==> TakesLine(run, done, r, i, lines)
    ensures run(RecordLines(r)[..k]) == Reading(done, r[..k])
  {
    if k > 1 {
      LineByLine(run, done, r, k - 1);
      assert TakesLine(run, done, r, k - 1, RecordLines(r)[..k - 1]);
      assert RecordLines(r)[..k] == RecordLines(r)[..k - 1] + [RecordLines(r)[k - 1]];
    }
  }

  lemma NextCellFeeds(fields: seq<string>, state: Reading, r: Record, i: nat, lines: seq<string>)
    requires PlainFields(fields) && Writable(fields, r) && 0 < i < |r|
    ensures TakesLine(ls => FeedAll(state, ls), Finish(state), r, i, lines)
  {
    FeedOne(state, lines, RecordLines(r)[i]);
    KeyAt(r, i);
    KeysApart(fields, r, i);
    assert r[..i + 1] == r[..i] + [r[i]];
    if FeedAll(state, lines) == Reading(Finish(state), r[..i]) {
      NextLineFeeds(FeedAll(state, lines), r[i]);
    }
  }

  lemma RecordFeeds(fields: seq<string>, state: Reading, r: Record)
    requires PlainFields(fields) && Writable(fields, r)
    ensures FeedAll(state, RecordLines(r)) == Reading(Finish(state), r)
  {
    var run, line := ls => FeedAll(state, ls), RecordLines(r)[0];
    KeyAt(r, 0);
    FirstLineFeeds(state, r[0]);
    FeedOne(state, [], line);
    assert RecordLines(r)[..1] == [] + [line] && r[..1] == [r[0]];
    forall i, lines | 0 < i < |r| ensures TakesLine(run, Finish(state), r, i, lines) {
      NextCellFeeds(fields, state, r, i, lines);
    }
    LineByLine(run, Finish(state), r, |r|);
    assert RecordLines(r)[..|r|] == RecordLines(r) && r[..|r|] == r;
  }

  lemma NextRecordFeeds(fields: seq<string>, lines: seq<string>, r: Record)
    requires PlainFields(fields) && Writable(fields, r)
    ensures Finish(FeedAll(Reading([], []), lines + RecordLines(r))) == Finish(FeedAll(Reading([], []), lines)) + [r]
  {
    var state := FeedAll(Reading([], []), lines);
    FeedAllAppend(Reading([], []), lines, RecordLines(r));
    RecordFeeds(fields, state, r);
  }

  // Any reader that takes a printed record for what it is takes a printed list for what it is.
  lemma {:induction false} RecordByRecord(read: seq<string> -> seq<Record>, fields: seq<string>, records: seq<Record>)
    requires AllWritable(fields, records) && read([]) == []
    requires forall lines, r :: Writable(fields, r) ==> read(lines + RecordLines(r)) == read(lines) + [r]
    ensures read(CasesLines(records)) == records
  {
    if records != [] {
      var before, last := records[..|records| - 1], records[|records| - 1];
      RecordByRecord(read, fields, before);
      assert Writable(fields, last);
      assert records == before + [last];
    }
  }

  lemma CasesFeed(fields: seq<string>, records: seq<Record>)
    requires PlainFields(fields) && AllWritable(fields, records)
    ensures Finish(FeedAll(Reading([], []), CasesLines(records))) == records
  {
    var read := (lines: seq<string>) => Finish(FeedAll(Reading([], []), lines));
    forall lines, r | Writable(fields, r) ensures read(lines + RecordLines(r)) == read(lines) + [r] {
      NextRecordFeeds(fields, lines, r);
    }
    RecordByRecord(read, fields, records);
  }

  // ----- The text -----

  predicate Unbroken(line: string) {
    forall i :: 0 <= i < |line| ==> !IsBreak(line[i])
  }

  lemma {:induction false} SplitOneLine(line: string, rest: string)
    requires Unbroken(line)
    ensures SplitLines(line + "\n" + rest) == [line] + SplitLines(rest)
  {
    var s := line + "\n" + rest;
    if line == "" {
      assert s == "\n" + rest && s[1..] == rest;
    } else {
      assert s[1..] == line[1..] + "\n" + rest;
      SplitOneLine(line[1..], rest);
      var others := [line[1..]] + SplitLines(rest);
      assert others[1..] == SplitLines(rest);
      assert line == [line[0]] + line[1..];
    }
  }

  /** Splitting a text of terminated lines returns the lines. */
  lemma {:induction false} SplitInvertsTerminate(lines: seq<string>)
    requires forall i :: 0 <= i < |lines| ==> Unbroken(lines[i])
    ensures SplitLines(Terminate(lines)) == lines
  {
    if lines != [] {
      SplitOneLine(lines[0], Terminate(lines[1..]));
      SplitInvertsTerminate(lines[1..]);
      assert lines == [lines[0]] + lines[1..];
    }
  }

  lemma LineIsUnbroken(prefix: string, c: Cell)
    requires (prefix == FIRST_PREFIX || prefix == NEXT_PREFIX) && PlainName(c.key) && Safe(c.value)
    ensures Unbroken(CellLine(prefix, c))
    ensures CellLine(prefix, c) != "" && CellLine(prefix, c)[0] == ' '
  {
  }

  lemma RecordLinesAreUnbroken(fields: seq<string>, r: Record)
    requires PlainFields(fields) && Writable(fields, r)
    ensures forall i :: 0 <= i < |r| ==>
              Unbroken(RecordLines(r)[i]) && RecordLines(r)[i] != "" && RecordLines(r)[i][0] == ' '
  {
    forall i | 0 <= i < |r|
      ensures Unbroken(RecordLines(r)[i]) && RecordLines(r)[i] != "" && RecordLines(r)[i][0] == ' '
    {
      KeyAt(r, i);
      LineIsUnbroken(if i == 0 then FIRST_PREFIX else NEXT_PREFIX, r[i]);
    }
  }

  // Printed lines are single and indented.
  predicate Indented(lines: seq<string>) {
    forall i :: 0 <= i < |lines| ==> Unbroken(lines[i]) && lines[i] != "" && lines[i][0] == ' '
  }

  lemma {:induction false} CasesLinesAreIndented(fields: seq<string>, records: seq<Record>)
    requires PlainFields(fields) && AllWritable(fields, records)
    ensures Indented(CasesLines(records))
  {
    if records != [] {
      CasesLinesAreIndented(fields, records[..|records| - 1]);
      RecordLinesAreUnbroken(fields, records[|records| - 1]);
    }
  }

  // A match of ^cases: at i.
  predicate CasesAt(text: string, i: nat) {
    i <= |text| && StartsWith(text[i..], "cases:") && (i == 0 || text[i - 1] == '\n')
  }

  function FirstCases(text: string, from: nat): (i: Option<nat>)
    requires from <= |text|
    ensures i.Some? ==> from <= i.value && CasesAt(text, i.value)
    ensures i.Some? ==> forall j :: from <= j < i.value ==> !CasesAt(text, j)
    ensures i.None? ==> forall j :: from <= j <= |text| ==> !CasesAt(text, j)
    decreases |text| - from
  {
    if CasesAt(text, from) then Some(from) else if from == |text| then None else FirstCases(text, from + 1)
  }

  /** frozen_preamble on normalised text, given which preambles the frozen digest accepts; None is its error. */
  function FrozenPreamble(text: string, accepted: string -> bool): Option<string> {
    var at := FirstCases(text, 0);
    if at.None? then None
    else if FirstCases(text, at.value + 6).Some? then None
    else if accepted(text[..at.value]) then Some(text[..at.value])
    else None
  }

  // A preamble a cases block can follow: it ends a line and no line of it is the key.
  predicate Preamble(p: string) {
    p != "" && p[|p| - 1] == '\n' && forall i :: 0 <= i < |p| ==> !CasesAt(p, i)
  }

  lemma {:induction false} FirstIndexAt(s: string, pattern: string, k: nat)
    requires k <= |s| && StartsWith(s[k..], pattern) && forall j :: 0 <= j < k ==> !StartsWith(s[j..], pattern)
    ensures FirstIndex(s, pattern) == Some(k)
  {
    assert s[0..] == s;
    if k > 0 {
      forall j | 0 <= j < k - 1 ensures !StartsWith(s[1..][j..], pattern) {
        assert s[1..][j..] == s[j + 1..];
      }
      assert s[1..][k - 1..] == s[k..];
      FirstIndexAt(s[1..], pattern, k - 1);
    }
  }

  // After a text that ends a line, the key cannot straddle the end.
  lemma KeyStaysInside(p: string, rest: string, j: nat)
    requires j < |p| && p[|p| - 1] == '\n'
    ensures CasesAt(p + rest, j) ==> CasesAt(p, j)
  {
    var text := p + rest;
    if CasesAt(text, j) {
      forall m | j <= m < j + 6 ensures text[m] != '\n' {
        assert text[m] == text[j..][..6][m - j];
      }
      assert text[|p| - 1] == '\n';
      assert p[j..][..6] == text[j..][..6];
      assert j > 0 ==> p[j - 1] == text[j - 1];
    }
  }

  lemma KeyAfterNewline(text: string, j: nat)
    requires j < |text|
    ensures StartsWith(text[j..], CASES_LINE) ==> CasesAt(text, j + 1)
  {
    if StartsWith(text[j..], CASES_LINE) {
      assert text[j..][..8] == CASES_LINE;
      assert text[j] == CASES_LINE[0];
      assert text[j + 1..][..6] == text[j..][..8][1..7] == CASES_LINE[1..7] == "cases:";
    }
  }

  // Nothing inside the preamble, or straddling its end, looks like the key.
  lemma PreambleHidesNoKey(p: string, rest: string, j: nat)
    requires Preamble(p) && j < |p|
    ensures !CasesAt(p + rest, j)
    ensures j + 1 < |p| ==> !StartsWith((p + rest)[j..], CASES_LINE)
  {
    KeyStaysInside(p, rest, j);
    if j + 1 < |p| {
      KeyStaysInside(p, rest, j + 1);
      KeyAfterNewline(p + rest, j);
    }
  }

  lemma {:induction false} LinesStartIndented(lines: seq<string>, i: nat)
    requires Indented(lines) && i < |Terminate(lines)| && (i == 0 || Terminate(lines)[i - 1] == '\n')
    ensures Terminate(lines)[i] == ' '
  {
    var first, rest := lines[0], Terminate(lines[1..]);
    var text := first + "\n" + rest;
    assert Terminate(lines) == text;
    if i > 0 {
      forall m | 0 <= m < |first| ensures text[m] != '\n' {
        assert text[m] == first[m];
      }
      var k := i - |first| - 1;
      assert text[i] == rest[k];
      assert k > 0 ==> text[i - 1] == rest[k - 1];
      LinesStartIndented(lines[1..], k);
    }
  }

  lemma NoLaterKey(p: string, lines: seq<string>, j: nat)
    requires Indented(lines)
    requires var text := p + Terminate(["cases:"] + lines); |p| < j <= |text|
    ensures !CasesAt(p + Terminate(["cases:"] + lines), j)
  {
    var body := Terminate(lines);
    var text := p + Terminate(["cases:"] + lines);
    assert (["cases:"] + lines)[1..] == lines;
    assert text == p + ("cases:" + "\n" + body);
    if CasesAt(text, j) {
      assert text[j..][..6] == "cases:";
      assert text[j] == 'c' && text[j - 1] == '\n';
      var start := |p| + 7;
      assert forall k :: |p| <= k < |p| + 6 ==> text[k] == "cases:"[k - |p|];
      assert j >= start;
      assert text[j] == body[j - start];
      assert j > start ==> text[j - 1] == body[j - start - 1];
      LinesStartIndented(lines, j - start);
      assert false;
    }
  }

  /** What the preamble check finds in a printed manifest is the preamble it was printed after. */
  lemma PreambleReadsBack(p: string, lines: seq<string>, accepted: string -> bool)
    requires Preamble(p) && Indented(lines)
    ensures FrozenPreamble(p + Terminate(["cases:"] + lines), accepted) == if accepted(p) then Some(p) else None
  {
    var rest := Terminate(["cases:"] + lines);
    var text := p + rest;
    assert text[|p|..] == rest && rest[..6] == "cases:";
    assert CasesAt(text, |p|);
    forall j | 0 <= j < |p| ensures !CasesAt(text, j) {
      PreambleHidesNoKey(p, rest, j);
    }
    forall j | |p| < j <= |text| ensures !CasesAt(text, j) {
      NoLaterKey(p, lines, j);
    }
    assert text[..|p|] == p;
  }

  lemma CasesLineFound(p: string, lines: seq<string>)
    requires Preamble(p)
    ensures var text := p + Terminate(["cases:"] + lines);
            FirstIndex(text, CASES_LINE) == Some(|p| - 1) && text[|p| + 7..] == Terminate(lines)
  {
    var rest := Terminate(["cases:"] + lines);
    var text := p + rest;
    assert (["cases:"] + lines)[1..] == lines;
    assert rest == "cases:" + "\n" + Terminate(lines);
    assert text[|p| - 1..] == "\n" + rest;
    assert text[|p| - 1..][..8] == CASES_LINE;
    forall j | 0 <= j < |p| - 1 ensures !StartsWith(text[j..], CASES_LINE) {
      PreambleHidesNoKey(p, rest, j);
    }
    FirstIndexAt(text, CASES_LINE, |p| - 1);
  }

  lemma RecordsReadBack(p: string, lines: seq<string>)
    requires Preamble(p) && Indented(lines)
    ensures Read(p + Terminate(["cases:"] + lines)) == Some(Finish(FeedAll(Reading([], []), lines)))
  {
    CasesLineFound(p, lines);
    SplitInvertsTerminate(lines);
    ReadFrom(p + Terminate(["cases:"] + lines), |p| - 1, Terminate(lines), lines);
  }

  lemma ReadFrom(text: string, at: nat, body: string, lines: seq<string>)
    requires FirstIndex(text, CASES_LINE) == Some(at) && at + 8 <= |text| && text[at + 8..] == body
    requires SplitLines(body) == lines
    ensures Read(text) == Some(Finish(FeedAll(Reading([], []), lines)))
  {
    assert |CASES_LINE| == 8;
  }

  /** Reading a printed manifest returns its records and its preamble. */
  lemma ManifestRoundTrip(fields: seq<string>, p: string, records: seq<Record>, accepted: string -> bool)
    requires PlainFields(fields) && AllWritable(fields, records) && Preamble(p) && accepted(p)
    ensures Read(ManifestText(p, records)) == Some(records)
    ensures FrozenPreamble(ManifestText(p, records), accepted) == Some(p)
  {
    CasesLinesAreIndented(fields, records);
    PreambleReadsBack(p, CasesLines(records), accepted);
    RecordsReadBack(p, CasesLines(records));
    CasesFeed(fields, records);
  }

  lemma RegisteredFieldsDiffer()
    ensures Distinct(MANIFEST_CASE_FIELDS)
  {
    var f := MANIFEST_CASE_FIELDS;
    forall i, j | 0 <= i < j < |f| ensures f[i] != f[j] {
      assert |f[i]| != |f[j]| || f[i][0] != f[j][0];
    }
  }

  lemma RegisteredNamesArePlain()
    ensures forall i :: 0 <= i < |MANIFEST_CASE_FIELDS| ==> PlainName(MANIFEST_CASE_FIELDS[i])
  {
  }

  lemma RegisteredFieldsArePlain()
    ensures PlainFields(MANIFEST_CASE_FIELDS)
  {
    RegisteredFieldsDiffer();
    RegisteredNamesArePlain();
  }

  lemma {:induction false} NeverFound(s: string, pattern: string)
    requires forall j :: 0 <= j <= |s| ==> !StartsWith(s[j..], pattern)
    ensures FirstIndex(s, pattern).None?
  {
    assert s[0..] == s;
    if s != "" {
      forall j | 0 <= j <= |s| - 1 ensures !StartsWith(s[1..][j..], pattern) {
        assert s[1..][j..] == s[j + 1..];
      }
      NeverFound(s[1..], pattern);
    }
  }

  /** An empty preamble prints, but the reader then finds no cases line. */
  lemma EmptyPreambleIsNotRead(fields: seq<string>, records: seq<Record>)
    requires PlainFields(fields) && AllWritable(fields, records)
    ensures Read(ManifestText("", records)) == None
  {
    var lines := CasesLines(records);
    var text := Terminate(["cases:"] + lines);
    CasesLinesAreIndented(fields, records);
    assert "" + text == text;
    forall j | 0 <= j <= |text| ensures !StartsWith(text[j..], CASES_LINE) {
      if j < |text| {
        KeyAfterNewline(text, j);
        NoLaterKey("", lines, j + 1);
      }
    }
    NeverFound(text, CASES_LINE);
  }

  lemma KeyShows(p: string, rest: string, i: nat)
    requires i < |p|
    ensures CasesAt(p, i) ==> CasesAt(p + rest, i)
  {
    var text := p + rest;
    if CasesAt(p, i) {
      assert text[i..][..6] == p[i..][..6];
      assert i > 0 ==> text[i - 1] == p[i - 1];
    }
  }

  // What the key check accepts as the preamble of a printed manifest ends a line and hides no key, unless it is empty.
  lemma ReadPreambleIsPreamble(p: string, block: string, accepted: string -> bool)
    requires FrozenPreamble(p + block, accepted) == Some(p) && p != ""
    ensures Preamble(p) && accepted(p)
  {
    var text := p + block;
    var at := FirstCases(text, 0).value;
    assert |text[..at]| == |p|;
    assert CasesAt(text, |p|) && text[|p| - 1] == p[|p| - 1];
    forall i | 0 <= i < |p| ensures !CasesAt(p, i) {
      KeyShows(p, block, i);
    }
  }

  /**
   A printed manifest reads back, records and preamble, exactly when its preamble is accepted, ends a line, and has no
   line that is itself the key.
   */
  lemma ReadsBackExactlyWhen(fields: seq<string>, p: string, records: seq<Record>, accepted: string -> bool)
    requires PlainFields(fields) && AllWritable(fields, records)
    ensures var text := ManifestText(p, records);
            Read(text) == Some(records) && FrozenPreamble(text, accepted) == Some(p) <==> Preamble(p) && accepted(p)
  {
    if Preamble(p) && accepted(p) {
      ManifestRoundTrip(fields, p, records, accepted);
    } else if p == "" {
      EmptyPreambleIsNotRead(fields, records);
    } else if FrozenPreamble(ManifestText(p, records), accepted) == Some(p) {
      ReadPreambleIsPreamble(p, CasesBlock(records), accepted);
    }
  }

  lemma {:induction false} GetHasKey(r: Record, key: string)
    ensures Get(r, key).Some? ==> Get(r, key).value.key == key
  {
    if r != [] {
      GetHasKey(r[1..], key);
    }
  }

  lemma ProjectionIsWritable(fields: seq<string>, r: Record)
    requires Printable(fields, r)
    ensures Writable(fields, Projected(fields, r))
  {
    var row := Projected(fields, r);
    forall i | 0 <= i < |fields| ensures Keys(row)[i] == fields[i] {
      KeyAt(row, i);
      GetHasKey(r, fields[i]);
    }
  }

  lemma {:induction false} ProjectionsAreWritable(fields: seq<string>, records: seq<Record>)
    requires forall i :: 0 <= i < |records| ==> Printable(fields, records[i])
    ensures AllWritable(fields, ProjectAll(fields, records))
  {
    if records != [] {
      ProjectionsAreWritable(fields, records[..|records| - 1]);
      ProjectionIsWritable(fields, records[|records| - 1]);
    }
  }

  /** Whatever the order and the extra keys of the records printed, reading gives their projections to the fields. */
  lemma RenderingReadsBackExactlyWhen(fields: seq<string>, p: string, records: seq<Record>, accepted: string -> bool)
    requires PlainFields(fields) && forall i :: 0 <= i < |records| ==> Printable(fields, records[i])
    ensures var rows := ProjectAll(fields, records); var text := ManifestText(p, rows);
            Read(text) == Some(rows) && FrozenPreamble(text, accepted) == Some(p) <==> Preamble(p) && accepted(p)
  {
    ProjectionsAreWritable(fields, records);
    ReadsBackExactlyWhen(fields, p, ProjectAll(fields, records), accepted);
  }

  // ----- Recording a first run -----

  const CASE_ID := "case_id"
  const FIRST_RUN := "first_run_at"

  // The case is among those that ran.
  predicate Ran(r: Record, firstRun: map<string, string>) {
    var id := Get(r, CASE_ID);
    id.Some? && id.value.value.Some? && id.value.value.value in firstRun
  }

  function RunText(r: Record, firstRun: map<string, string>): string
    requires Ran(r, firstRun)
  {
    firstRun[Get(r, CASE_ID).value.value.value]
  }

  predicate NotYetRun(r: Record) {
    Get(r, FIRST_RUN) == Some(Cell(FIRST_RUN, None))
  }

  // One turn of the manifest loop on a record with the registered fields; None is the immutability error.
  function Stamped(r: Record, firstRun: map<string, string>): Option<Record> {
    if !Ran(r, firstRun) then Some(r)
    else if !NotYetRun(r) then None
    else Some(Put(r, FIRST_RUN, Some(RunText(r, firstRun))))
  }

  function StampAll(records: seq<Record>, firstRun: map<string, string>): Option<seq<Record>> {
    if records == [] then Some([])
    else
      var before, last := StampAll(records[..|records| - 1], firstRun), Stamped(records[|records| - 1], firstRun);
      if before.None? || last.None? then None else Some(before.value + [last.value])
  }

  function RanCount(records: seq<Record>, firstRun: map<string, string>): nat {
    if records == [] then 0
    else RanCount(records[..|records| - 1], firstRun) + if Ran(records[|records| - 1], firstRun) then 1 else 0
  }

  /** The manifest half of apply_first_run_lifecycle, on the records read. */
  method ApplyFirstRun(records: seq<Record>, firstRun: map<string, string>)
    returns (stamped: Option<seq<Record>>, updated: nat)
    ensures stamped == StampAll(records, firstRun)
    ensures stamped.Some? ==> updated == RanCount(records, firstRun)
  {
    var done: seq<Record> := [];
    updated := 0;
    for i := 0 to |records|
      invariant StampAll(records[..i], firstRun) == Some(done)
      invariant updated == RanCount(records[..i], firstRun)
    {
      assert records[..i + 1][..i] == records[..i];
      var record := records[i];
      if Ran(record, firstRun) {
        if !NotYetRun(record) {
          StampFails(records, firstRun, i);
          return None, updated;
        }
        record := Put(record, FIRST_RUN, Some(RunText(record, firstRun)));
        updated := updated + 1;
      }
      done := done + [record];
    }
    assert records[..|records|] == records;
    return Some(done), updated;
  }

  lemma {:induction false} StampFails(records: seq<Record>, firstRun: map<string, string>, i: nat)
    requires i < |records| && Stamped(records[i], firstRun).None?
    ensures StampAll(records, firstRun).None?
  {
    if i < |records| - 1 {
      StampFails(records[..|records| - 1], firstRun, i);
    }
  }

  lemma {:induction false} StampedAt(records: seq<Record>, firstRun: map<string, string>)
    ensures var r := StampAll(records, firstRun);
            && (r.Some? <==> forall i :: 0 <= i < |records| ==> Stamped(records[i], firstRun).Some?)
            && (r.Some? ==> |r.value| == |records| && forall i :: 0 <= i < |records| ==>
                Some(r.value[i]) == Stamped(records[i], firstRun))
  {
    if records != [] {
      var before := records[..|records| - 1];
      StampedAt(before, firstRun);
      if !Stamped(records[|records| - 1], firstRun).Some? {
        StampFails(records, firstRun, |records| - 1);
      } else if StampAll(before, firstRun).None? {
        var i :| 0 <= i < |before| && Stamped(before[i], firstRun).None?;
        assert records[i] == before[i];
      }
    }
  }

  lemma {:induction false} PutSpec(r: Record, key: string, value: Option<string>)
    requires Get(r, key).Some?
    ensures Keys(Put(r, key, value)) == Keys(r)
    ensures Get(Put(r, key, value), key) == Some(Cell(key, value))
    ensures forall other :: other != key ==> Get(Put(r, key, value), other) == Get(r, other)
  {
    if r[0].key != key {
      PutSpec(r[1..], key, value);
      assert ([r[0]] + Put(r[1..], key, value))[1..] == Put(r[1..], key, value);
    } else {
      assert ([Cell(key, value)] + r[1..])[1..] == r[1..];
    }
  }

  lemma {:induction false} PutKeepsSafe(r: Record, key: string, value: Option<string>)
    requires AllSafe(r) && Safe(value)
    ensures AllSafe(Put(r, key, value))
  {
    if r != [] && r[0].key != key {
      PutKeepsSafe(r[1..], key, value);
    }
  }

  /** Stamping a record changes its first run and nothing else, and it can be done once. */
  lemma StampChangesOnlyFirstRun(r: Record, firstRun: map<string, string>, again: map<string, string>)
    requires Stamped(r, firstRun).Some?
    ensures var s := Stamped(r, firstRun).value;
            && Keys(s) == Keys(r)
            && (forall key :: key != FIRST_RUN ==> Get(s, key) == Get(r, key))
            && (if Ran(r, firstRun) then Get(s, FIRST_RUN) == Some(Cell(FIRST_RUN, Some(RunText(r, firstRun))))
                else s == r)
            && (Ran(r, firstRun) && Ran(r, again) ==> Stamped(s, again).None?)
  {
    assert CASE_ID[0] != FIRST_RUN[0];
    if Ran(r, firstRun) {
      PutSpec(r, FIRST_RUN, Some(RunText(r, firstRun)));
    }
  }

  // apply_first_run_lifecycle on the manifest's text.
  function Rewrite(fields: seq<string>, text: string, accepted: string -> bool, firstRun: map<string, string>)
    : Option<string>
  {
    var records := Read(text);
    if records.None? then None
    else
      var stamped := StampAll(records.value, firstRun);
      var preamble := FrozenPreamble(text, accepted);
      if stamped.None? || preamble.None? || stamped.value == [] || !AllWritable(fields, stamped.value) then None
      else Some(ManifestText(preamble.value, stamped.value))
  }

  lemma StampKeepsWritable(fields: seq<string>, records: seq<Record>, firstRun: map<string, string>)
    requires AllWritable(fields, records) && StampAll(records, firstRun).Some?
    requires forall id :: id in firstRun ==> Safe(Some(firstRun[id]))
    ensures AllWritable(fields, StampAll(records, firstRun).value)
  {
    StampedAt(records, firstRun);
    forall i | 0 <= i < |records| ensures Writable(fields, StampAll(records, firstRun).value[i]) {
      assert Writable(fields, records[i]);
      if Ran(records[i], firstRun) {
        StampChangesOnlyFirstRun(records[i], firstRun, firstRun);
        PutKeepsSafe(records[i], FIRST_RUN, Some(RunText(records[i], firstRun)));
      }
    }
  }

  /** Rewriting a printed manifest gives the same preamble over the stamped records, or fails where stamping does. */
  lemma RewriteStampsRecords(fields: seq<string>, p: string, records: seq<Record>, accepted: string -> bool,
                             firstRun: map<string, string>)
    requires PlainFields(fields) && AllWritable(fields, records) && records != [] && Preamble(p) && accepted(p)
    requires forall id :: id in firstRun ==> Safe(Some(firstRun[id]))
    ensures var stamped := StampAll(records, firstRun);
            Rewrite(fields, ManifestText(p, records), accepted, firstRun)
            == if stamped.None? then None else Some(ManifestText(p, stamped.value))
  {
    ManifestRoundTrip(fields, p, records, accepted);
    StampedAt(records, firstRun);
    if StampAll(records, firstRun).Some? {
      StampKeepsWritable(fields, records, firstRun);
    }
  }

  /** Stamping succeeds exactly when no case that ran has run before, and a case is never stamped twice. */
  lemma StampingIsWriteOnce(records: seq<Record>, firstRun: map<string, string>, again: map<string, string>)
    ensures var stamped := StampAll(records, firstRun);
            && (stamped.Some? <==> forall i :: 0 <= i < |records| ==> Ran(records[i], firstRun) ==>
                NotYetRun(records[i]))
            && (stamped.Some? && (exists i ::
                  0 <= i < |records| && Ran(records[i], firstRun) && Ran(records[i], again)) ==>
                  StampAll(stamped.value, again).None?)
  {
    StampedAt(records, firstRun);
    if StampAll(records, firstRun).Some? {
      var stamped := StampAll(records, firstRun).value;
      if i :| 0 <= i < |records| && Ran(records[i], firstRun) && Ran(records[i], again) {
        StampChangesOnlyFirstRun(records[i], firstRun, again);
        assert Some(stamped[i]) == Stamped(records[i], firstRun);
        StampFails(stamped, again, i);
      }
    }
  }

  /** A second rewrite for any case of the first is refused. */
  lemma SecondRewriteIsRefused(fields: seq<string>, p: string, records: seq<Record>, accepted: string -> bool,
                               firstRun: map<string, string>, again: map<string, string>, i: nat)
    requires PlainFields(fields) && AllWritable(fields, records) && Preamble(p) && accepted(p)
    requires forall id :: id in firstRun ==> Safe(Some(firstRun[id]))
    requires forall id :: id in again ==> Safe(Some(again[id]))
    requires i < |records| && Ran(records[i], firstRun) && Ran(records[i], again)
    ensures var once := Rewrite(fields, ManifestText(p, records), accepted, firstRun);
            once.Some? ==> Rewrite(fields, once.value, accepted, again).None?
  {
    RewriteStampsRecords(fields, p, records, accepted, firstRun);
    if StampAll(records, firstRun).Some? {
      var stamped := StampAll(records, firstRun).value;
      StampedAt(records, firstRun);
      StampKeepsWritable(fields, records, firstRun);
      StampingIsWriteOnce(records, firstRun, again);
      RewriteStampsRecords(fields, p, stamped, accepted, again);
    }
  }

  // ----- The text, line by line -----

  // A field as the manifest writes it.
  function Written(key: string, value: Option<string>): string {
    key + ": " + if value.None? then "null" else "\"" + value.value + "\""
  }

  /** A record is written field by field, the first after a dash, the others indented as far. */
  lemma RecordReadsAs(r: Record, i: nat)
    requires i < |r|
    ensures RecordLines(r)[i] == (if i == 0 then "  - " else "    ") + Written(r[i].key, r[i].value)
  {
  }

  /** The block of cases is the key and then every record's lines in order, each ended by a newline. */
  lemma BlockReadsAs(preamble: string, records: seq<Record>, r: Record)
    ensures CasesLines(records + [r]) == CasesLines(records) + RecordLines(r)
    ensures ManifestText(preamble, records) == preamble + ("cases:\n" + Terminate(CasesLines(records)))
  {
    assert (["cases:"] + CasesLines(records))[1..] == CasesLines(records);
    assert Terminate(["cases:"] + CasesLines(records)) == "cases:" + "\n" + Terminate(CasesLines(records));
    CasesLinesGrow(records, r);
  }

  lemma {:induction false} PutThenGet(r: Record, key: string, value: Option<string>, other: string)
    ensures Get(Put(r, key, value), key) == Some(Cell(key, value))
    ensures other != key ==> Get(Put(r, key, value), other) == Get(r, other)
  {
    if r != [] && r[0].key != key {
      PutThenGet(r[1..], key, value, other);
      assert Put(r, key, value)[1..] == Put(r[1..], key, value);
    } else if r != [] {
      assert Put(r, key, value)[1..] == r[1..];
    }
  }

  /**
   A record is stamped exactly when its case id is among the cases that ran and its first_run_at is null; then
   first_run_at holds the time of that case and every other field is as it was.
   */
  lemma StampedExactlyWhen(r: Record, firstRun: map<string, string>, id: string, other: string)
    requires Get(r, "case_id") == Some(Cell("case_id", Some(id)))
    ensures id !in firstRun ==> Stamped(r, firstRun) == Some(r)
    ensures id in firstRun ==> (Stamped(r, firstRun).Some? <==>
                                  Get(r, "first_run_at") == Some(Cell("first_run_at", None)))
    ensures id in firstRun && Stamped(r, firstRun).Some? ==>
              && Get(Stamped(r, firstRun).value, "first_run_at") == Some(Cell("first_run_at", Some(firstRun[id])))
              && (other != "first_run_at" ==> Get(Stamped(r, firstRun).value, other) == Get(r, other))
  {
    if id in firstRun {
      PutThenGet(r, "first_run_at", Some(firstRun[id]), other);
    }
  }

  lemma CaseLineAt(r: Record, i: nat)
    requires Writable(MANIFEST_CASE_FIELDS, r) && i < 11
    ensures |r| == 11
    ensures RecordLines(r)[i] == (if i == 0 then "  - " else "    ") + Written(MANIFEST_CASE_FIELDS[i], r[i].value)
  {
    KeyAt(r, i);
    RecordReadsAs(r, i);
  }

  /** A case's record is written under eleven names, in this order. */
  lemma CaseStartsAs(r: Record)
    requires Writable(MANIFEST_CASE_FIELDS, r)
    ensures var lines := RecordLines(r);
            && |lines| == |r| == 11
            && lines[0] == "  - " + Written("case_id", r[0].value)
            && lines[1] == "    " + Written("evidence_tier", r[1].value)
            && lines[2] == "    " + Written("family_id", r[2].value)
            && lines[3] == "    " + Written("provenance", r[3].value)
            && lines[4] == "    " + Written("split", r[4].value)
            && lines[5] == "    " + Written("ground_truth", r[5].value)
  {
    CaseLineAt(r, 0);
    CaseLineAt(r, 1);
    CaseLineAt(r, 2);
    CaseLineAt(r, 3);
    CaseLineAt(r, 4);
    CaseLineAt(r, 5);
  }

  lemma CaseEndsAs(r: Record)
    requires Writable(MANIFEST_CASE_FIELDS, r)
    ensures var lines := RecordLines(r);
            && |lines| == |r| == 11
            && lines[6] == "    " + Written("label_source", r[6].value)
            && lines[7] == "    " + Written("label_recorded_at", r[7].value)
            && lines[8] == "    " + Written("case_content_sha256", r[8].value)
            && lines[9] == "    " + Written("first_run_at", r[9].value)
            && lines[10] == "    " + Written("expected_action", r[10].value)
  {
    CaseLineAt(r, 6);
    CaseLineAt(r, 7);
    CaseLineAt(r, 8);
    CaseLineAt(r, 9);
    CaseLineAt(r, 10);
  }

  lemma {:induction false} NoSeparator(s: string)
    requires forall i :: 0 <= i < |s| - 1 ==> !(s[i] == ':' && s[i + 1] == ' ')
    ensures PartitionAt(s) == |s|
  {
    if s != "" {
      var tail := s[1..];
      assert forall i :: 0 <= i < |tail| ==> tail[i] == s[i + 1];
      NoSeparator(tail);
      assert |s| > 1 ==> !(s[0] == ':' && s[0 + 1] == ' ');
    }
  }

  /** A line without a separator is a key with an empty text. */
  lemma UnseparatedCell(line: string, text: string)
    requires text == Strip(line, c => IsSpace(c))
    requires forall i :: 0 <= i < |text| - 1 ==> !(text[i] == ':' && text[i + 1] == ' ')
    ensures ReadCell(line) == Cell(text, Some(""))
  {
    NoSeparator(text);
    assert text[..|text|] == text;
  }
}
