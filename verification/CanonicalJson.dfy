/** Canonical JSON: normalisation of program values, then the sorted compact text every digest is taken over. */
module CanonicalJson {
  import opened Wrappers
  import opened Json
  import opened JsonParser

  type Time = int

  // UTC ISO text of an instant, and what fromisoformat reads back.
  type TimeText = Time -> string
  type TimeReader = string -> Option<Time>

  ghost predicate Readable(render: TimeText, read: TimeReader) {
    forall t: Time :: read(render(t)) == Some(t)
  }

  // What a caller may hand to the serialiser. Foreign is any other type (bytes, a set, an object).
  datatype Value =
    | VNone
    | VBool(b: bool)
    | VInt(n: int)
    | VStr(s: string)
    | VFloat
    | VEnum(value: Value)
    | VTime(aware: bool, at: Time)
    | VRecord(fields: seq<Field>)
    | VMap(entries: seq<Entry>)
    | VSeq(items: seq<Value>)
    | VForeign

  // omitNone is the canonical_omit_none metadata of a dataclass field.
  datatype Field = Field(name: string, omitNone: bool, content: Value)

  // Unkeyed stands for an entry whose key is not a str.
  datatype Entry = Keyed(key: string, item: Value) | Unkeyed(item: Value)

  // Python's members[key] = value: in place when the key is there, at the end otherwise.
  function Assign(ms: seq<Member>, key: string, value: Json): seq<Member> {
    if ms == [] then [Member(key, value)]
    else if ms[0].key == key then [Member(key, value)] + ms[1..]
    else [ms[0]] + Assign(ms[1..], key, value)
  }

  /** None stands for a CanonicalizationError. */
  function Normalize(render: TimeText, v: Value): Option<Json>
    decreases v
  {
    match v
    case VNone => Some(Null)
    case VBool(b) => Some(Bool(b))
    case VInt(n) => Some(Int(n))
    case VStr(s) => Some(Str(s))
    case VFloat => None
    case VEnum(value) => Normalize(render, value)
    case VTime(aware, at) => if aware then Some(Str(render(at))) else None
    case VRecord(fields) =>
      var ms := NormalizeFields(render, fields, []);
      if ms.None? then None else Some(Obj(ms.value))
    case VMap(entries) =>
      var ms := NormalizeEntries(render, entries, []);
      if ms.None? then None else Some(Obj(ms.value))
    case VSeq(items) =>
      var js := NormalizeItems(render, items);
      if js.None? then None else Some(Arr(js.value))
    case VForeign => None
  }

  function NormalizeFields(render: TimeText, fields: seq<Field>, ms: seq<Member>): Option<seq<Member>>
    decreases fields
  {
    if fields == [] then Some(ms)
    else if fields[0].omitNone && fields[0].content.VNone? then NormalizeFields(render, fields[1..], ms)
    else
      var value := Normalize(render, fields[0].content);
      if value.None? then None else NormalizeFields(render, fields[1..], Assign(ms, fields[0].name, value.value))
  }

  function NormalizeEntries(render: TimeText, entries: seq<Entry>, ms: seq<Member>): Option<seq<Member>>
    decreases entries
  {
    if entries == [] then Some(ms)
    else if entries[0].Unkeyed? then None
    else
      var value := Normalize(render, entries[0].item);
      if value.None? then None else NormalizeEntries(render, entries[1..], Assign(ms, entries[0].key, value.value))
  }

  function NormalizeItems(render: TimeText, items: seq<Value>): Option<seq<Json>>
    decreases items
  {
    if items == [] then Some([])
    else
      var first, others := Normalize(render, items[0]), NormalizeItems(render, items[1..]);
      if first.None? || others.None? then None else Some([first.value] + others.value)
  }

  function Text(j: Json): (r: string)
    ensures r != "" && forall i :: 0 <= i < |r| ==> r[i] >= ' '
  {
    Print(Canon(j))
  }

  /** canonical_json_text; None is the error. */
  function CanonicalText(render: TimeText, v: Value): Option<string> {
    var j := Normalize(render, v);
    if j.None? then None else Some(Text(j.value))
  }

  // ----- Normalised values are dict trees -----

  predicate DictMembers(ms: seq<Member>) {
    DistinctKeys(ms) && forall i :: 0 <= i < |ms| ==> DictTree(ms[i].value)
  }

  lemma {:induction false} AssignMembers(ms: seq<Member>, key: string, value: Json)
    requires DistinctKeys(ms)
    ensures DistinctKeys(Assign(ms, key, value))
    ensures forall m :: m in Assign(ms, key, value) ==> m == Member(key, value) || m in ms
  {
    if ms != [] {
      var head, tail := ms[0], ms[1..];
      assert ms == [head] + tail;
      if head.key != key {
        AssignMembers(tail, key, value);
        forall m | m in Assign(tail, key, value) ensures m.key != head.key {
          if m in tail {
            var i :| 0 <= i < |tail| && tail[i] == m;
            assert ms[i + 1] == m;
          }
        }
      }
    }
  }

  /** Assigning is dict assignment. */
  lemma {:induction false} AssignFields(ms: seq<Member>, key: string, value: Json)
    ensures Fields(Assign(ms, key, value)) == Fields(ms)[key := Meaning(value)]
  {
    if ms == [] {
      assert [Member(key, value)][1..] == [];
    } else if ms[0].key == key {
      assert ([Member(key, value)] + ms[1..])[1..] == ms[1..];
    } else {
      AssignFields(ms[1..], key, value);
      assert ([ms[0]] + Assign(ms[1..], key, value))[1..] == Assign(ms[1..], key, value);
    }
  }

  lemma AssignKeepsDict(ms: seq<Member>, key: string, value: Json)
    requires DictMembers(ms) && DictTree(value)
    ensures DictMembers(Assign(ms, key, value))
  {
    AssignMembers(ms, key, value);
    var r := Assign(ms, key, value);
    forall i | 0 <= i < |r| ensures DictTree(r[i].value) {
      assert r[i] in r;
    }
  }

  lemma {:induction false} NormalizedIsDictTree(render: TimeText, v: Value)
    ensures Normalize(render, v).Some? ==> DictTree(Normalize(render, v).value)
    decreases v
  {
    match v
    case VEnum(value) => NormalizedIsDictTree(render, value);
    case VRecord(fields) => FieldsAreDict(render, fields, []);
    case VMap(entries) => EntriesAreDict(render, entries, []);
    case VSeq(items) => ItemsAreDictTrees(render, items);
    case _ =>
  }

  lemma {:induction false} FieldsAreDict(render: TimeText, fields: seq<Field>, ms: seq<Member>)
    requires DictMembers(ms)
    ensures var r := NormalizeFields(render, fields, ms); r.Some? ==> DictMembers(r.value)
    decreases fields
  {
    if fields != [] {
      if fields[0].omitNone && fields[0].content.VNone? {
        FieldsAreDict(render, fields[1..], ms);
      } else {
        var value := Normalize(render, fields[0].content);
        NormalizedIsDictTree(render, fields[0].content);
        if value.Some? {
          AssignKeepsDict(ms, fields[0].name, value.value);
          FieldsAreDict(render, fields[1..], Assign(ms, fields[0].name, value.value));
        }
      }
    }
  }

  lemma {:induction false} EntriesAreDict(render: TimeText, entries: seq<Entry>, ms: seq<Member>)
    requires DictMembers(ms)
    ensures var r := NormalizeEntries(render, entries, ms); r.Some? ==> DictMembers(r.value)
    decreases entries
  {
    if entries != [] && entries[0].Keyed? {
      var value := Normalize(render, entries[0].item);
      NormalizedIsDictTree(render, entries[0].item);
      if value.Some? {
        AssignKeepsDict(ms, entries[0].key, value.value);
        EntriesAreDict(render, entries[1..], Assign(ms, entries[0].key, value.value));
      }
    }
  }

  lemma {:induction false} ItemsAreDictTrees(render: TimeText, items: seq<Value>)
    ensures var r := NormalizeItems(render, items); r.Some? ==> forall i :: 0 <= i < |r.value| ==> DictTree(r.value[i])
    decreases items
  {
    if items != [] {
      NormalizedIsDictTree(render, items[0]);
      ItemsAreDictTrees(render, items[1..]);
      var r := NormalizeItems(render, items);
      if r.Some? {
        var others := NormalizeItems(render, items[1..]).value;
        assert r.value[0] == Normalize(render, items[0]).value && r.value[1..] == others;
        forall i | 0 <= i < |r.value| ensures DictTree(r.value[i]) {
          assert i > 0 ==> r.value[i] == others[i - 1];
        }
      }
    }
  }

  // ----- The laws of the text -----

  /** Parsing canonical text returns the normalised value, members in key order. */
  lemma TextParsesBack(j: Json)
    requires DictTree(j)
    ensures Parse(Text(j)) == Some(Canon(j)) && Meaning(Canon(j)) == Meaning(j)
  {
    CanonSpec(j);
    CanonicalIsDictTree(Canon(j));
    ParseInvertsPrint(Canon(j));
  }

  /** Same text exactly when equal as values: insertion order never shows, and nothing else is lost. */
  lemma SameTextExactlyWhenEqual(a: Json, b: Json)
    requires DictTree(a) && DictTree(b)
    ensures Text(a) == Text(b) <==> Meaning(a) == Meaning(b)
  {
    TextParsesBack(a);
    TextParsesBack(b);
    SameCanonExactlyWhenEqual(a, b);
  }

  /** The same laws from the caller's value to the text it is hashed as. */
  lemma CanonicalTextDeterminesValue(render: TimeText, v: Value, w: Value)
    requires CanonicalText(render, v).Some? && CanonicalText(render, w).Some?
    ensures var j, k := Normalize(render, v).value, Normalize(render, w).value;
            && (CanonicalText(render, v) == CanonicalText(render, w) <==> Meaning(j) == Meaning(k))
            && Parse(CanonicalText(render, v).value) == Some(Canon(j))
            && Meaning(Canon(j)) == Meaning(j)
  {
    NormalizedIsDictTree(render, v);
    NormalizedIsDictTree(render, w);
    SameTextExactlyWhenEqual(Normalize(render, v).value, Normalize(render, w).value);
    TextParsesBack(Normalize(render, v).value);
  }

  // ----- Insertion order -----

  // Dicts equal as values stay equal under the same further assignments.
  lemma {:induction false} SameDictCarries(render: TimeText, entries: seq<Entry>, ms: seq<Member>, ns: seq<Member>)
    requires Fields(ms) == Fields(ns)
    ensures var a, b := NormalizeEntries(render, entries, ms), NormalizeEntries(render, entries, ns);
            (a.Some? <==> b.Some?) && (a.Some? ==> Fields(a.value) == Fields(b.value))
    decreases entries
  {
    if entries != [] && entries[0].Keyed? {
      var value := Normalize(render, entries[0].item);
      if value.Some? {
        AssignFields(ms, entries[0].key, value.value);
        AssignFields(ns, entries[0].key, value.value);
        SameDictCarries(render, entries[1..], Assign(ms, entries[0].key, value.value),
            Assign(ns, entries[0].key, value.value));
      }
    }
  }

  lemma {:induction false} EntriesInTwoParts(render: TimeText, a: seq<Entry>, b: seq<Entry>, ms: seq<Member>)
    ensures var first := NormalizeEntries(render, a, ms);
            NormalizeEntries(render, a + b, ms)
            == if first.None? then None else NormalizeEntries(render, b, first.value)
    decreases a
  {
    if a == [] {
      assert a + b == b;
    } else {
      assert (a + b)[1..] == a[1..] + b;
      if a[0].Keyed? && Normalize(render, a[0].item).Some? {
        EntriesInTwoParts(render, a[1..], b, Assign(ms, a[0].key, Normalize(render, a[0].item).value));
      }
    }
  }

  lemma TwoEntries(render: TimeText, x: Entry, y: Entry, rest: seq<Entry>, ms: seq<Member>)
    requires x.Keyed? && y.Keyed?
    ensures var p, q := Normalize(render, x.item), Normalize(render, y.item);
            NormalizeEntries(render, [x, y] + rest, ms)
            == if p.None? || q.None? then None
               else NormalizeEntries(render, rest, Assign(Assign(ms, x.key, p.value), y.key, q.value))
  {
    assert ([x, y] + rest)[1..] == [y] + rest && ([y] + rest)[1..] == rest;
  }

  lemma TwoAssignments(ms: seq<Member>, k: string, v: Json, l: string, w: Json)
    requires k != l
    ensures Fields(Assign(Assign(ms, k, v), l, w)) == Fields(Assign(Assign(ms, l, w), k, v))
  {
    AssignFields(ms, k, v);
    AssignFields(ms, l, w);
    AssignFields(Assign(ms, k, v), l, w);
    AssignFields(Assign(ms, l, w), k, v);
  }

  lemma SwapTwo(render: TimeText, x: Entry, y: Entry, rest: seq<Entry>, ms: seq<Member>)
    requires x.Keyed? && y.Keyed? && x.key != y.key
    ensures var a, b := NormalizeEntries(render, [x, y] + rest, ms), NormalizeEntries(render, [y, x] + rest, ms);
            (a.Some? <==> b.Some?) && (a.Some? ==> Fields(a.value) == Fields(b.value))
  {
    var p, q := Normalize(render, x.item), Normalize(render, y.item);
    TwoEntries(render, x, y, rest, ms);
    TwoEntries(render, y, x, rest, ms);
    if p.Some? && q.Some? {
      TwoAssignments(ms, x.key, p.value, y.key, q.value);
      SameDictCarries(render, rest, Assign(Assign(ms, x.key, p.value), y.key, q.value),
                      Assign(Assign(ms, y.key, q.value), x.key, p.value));
    }
  }

  /** Inserting two different keys in the other order changes nothing, whatever stands around them. */
  lemma AdjacentEntriesCommute(render: TimeText, before: seq<Entry>, x: Entry, y: Entry, after: seq<Entry>)
    requires x.Keyed? && y.Keyed? && x.key != y.key
    ensures CanonicalText(render, VMap(before + ([x, y] + after)))
            == CanonicalText(render, VMap(before + ([y, x] + after)))
  {
    var v, w := VMap(before + ([x, y] + after)), VMap(before + ([y, x] + after));
    EntriesInTwoParts(render, before, [x, y] + after, []);
    EntriesInTwoParts(render, before, [y, x] + after, []);
    var first := NormalizeEntries(render, before, []);
    if first.Some? {
      SwapTwo(render, x, y, after, first.value);
      if Normalize(render, v).Some? {
        CanonicalTextDeterminesValue(render, v, w);
      }
    }
  }

  // ----- What is refused -----

  /** A float, a naive time, a foreign object or a non-string key somewhere in the value. */
  predicate Unrepresentable(v: Value)
    decreases v
  {
    match v
    case VFloat => true
    case VForeign => true
    case VTime(aware, _) => !aware
    case VEnum(value) => Unrepresentable(value)
    case VRecord(fields) => exists i :: 0 <= i < |fields| && Unrepresentable(fields[i].content)
    case VMap(entries) => exists i :: 0 <= i < |entries| && (entries[i].Unkeyed? || Unrepresentable(entries[i].item))
    case VSeq(items) => exists i :: 0 <= i < |items| && Unrepresentable(items[i])
    case _ => false
  }

  /** The serialiser fails exactly on values with an unrepresentable part, at any depth. */
  lemma {:induction false} RefusesExactlyUnrepresentable(render: TimeText, v: Value)
    ensures Normalize(render, v).None? <==> Unrepresentable(v)
    decreases v
  {
    match v
    case VEnum(value) => RefusesExactlyUnrepresentable(render, value);
    case VRecord(fields) => FieldsRefused(render, fields, []);
    case VMap(entries) => EntriesRefused(render, entries, []);
    case VSeq(items) => ItemsRefused(render, items);
    case _ =>
  }

  lemma {:induction false} FieldsRefused(render: TimeText, fields: seq<Field>, ms: seq<Member>)
    ensures NormalizeFields(render, fields, ms).None? <==>
            exists i :: 0 <= i < |fields| && Unrepresentable(fields[i].content)
    decreases fields
  {
    if fields != [] {
      var tail := fields[1..];
      assert fields == [fields[0]] + tail;
      RefusesExactlyUnrepresentable(render, fields[0].content);
      var value := Normalize(render, fields[0].content);
      if fields[0].omitNone && fields[0].content.VNone? {
        FieldsRefused(render, tail, ms);
      } else if value.Some? {
        FieldsRefused(render, tail, Assign(ms, fields[0].name, value.value));
      }
      assert (exists i :: 0 <= i < |fields| && Unrepresentable(fields[i].content))
        <==> Unrepresentable(fields[0].content) || exists i :: 0 <= i < |tail| && Unrepresentable(tail[i].content) by {
        if i :| 0 <= i < |tail| && Unrepresentable(tail[i].content) {
          assert Unrepresentable(fields[i + 1].content);
        }
      }
    }
  }

  lemma {:induction false} EntriesRefused(render: TimeText, entries: seq<Entry>, ms: seq<Member>)
    ensures NormalizeEntries(render, entries, ms).None? <==>
            exists i :: 0 <= i < |entries| && (entries[i].Unkeyed? || Unrepresentable(entries[i].item))
    decreases entries
  {
    if entries != [] {
      var tail := entries[1..];
      assert entries == [entries[0]] + tail;
      if entries[0].Keyed? {
        RefusesExactlyUnrepresentable(render, entries[0].item);
        var value := Normalize(render, entries[0].item);
        if value.Some? {
          EntriesRefused(render, tail, Assign(ms, entries[0].key, value.value));
        }
      }
      if i :| 0 <= i < |tail| && (tail[i].Unkeyed? || Unrepresentable(tail[i].item)) {
        assert entries[i + 1] == tail[i];
      }
    }
  }

  lemma {:induction false} ItemsRefused(render: TimeText, items: seq<Value>)
    ensures NormalizeItems(render, items).None? <==> exists i :: 0 <= i < |items| && Unrepresentable(items[i])
    decreases items
  {
    if items != [] {
      var tail := items[1..];
      assert items == [items[0]] + tail;
      RefusesExactlyUnrepresentable(render, items[0]);
      ItemsRefused(render, tail);
      if i :| 0 <= i < |tail| && Unrepresentable(tail[i]) {
        assert items[i + 1] == tail[i];
      }
    }
  }

  // ----- Every insertion order -----

  predicate DistinctEntries(entries: seq<Entry>) {
    forall i, j :: 0 <= i < j < |entries| && entries[i].Keyed? && entries[j].Keyed? ==> entries[i].key != entries[j].key
  }

  // The dict has the entry's key, with the meaning of its normalised item.
  predicate Holds(render: TimeText, fields: map<string, Datum>, e: Entry) {
    && e.Keyed? && Normalize(render, e.item).Some?
    && e.key in fields && fields[e.key] == Meaning(Normalize(render, e.item).value)
  }

  predicate KeyAmong(entries: seq<Entry>, key: string) {
    exists i :: 0 <= i < |entries| && entries[i].Keyed? && entries[i].key == key
  }

  // What filling a dict from entries leaves: their own fields, and elsewhere what was there.
  ghost predicate Filled(render: TimeText, entries: seq<Entry>, before: map<string, Datum>, after: map<string, Datum>) {
    && (forall i :: 0 <= i < |entries| ==> Holds(render, after, entries[i]))
    && (forall key :: !KeyAmong(entries, key) ==>
          (key in after <==> key in before) && (key in after ==> after[key] == before[key]))
  }

  lemma FilledFromHead(render: TimeText, entries: seq<Entry>, before: map<string, Datum>, after: map<string, Datum>)
    requires entries != [] && entries[0].Keyed? && Normalize(render, entries[0].item).Some? && DistinctEntries(entries)
    requires Filled(render, entries[1..], before[entries[0].key := Meaning(Normalize(render, entries[0].item).value)],
             after)
    ensures Filled(render, entries, before, after)
  {
    var head, tail := entries[0], entries[1..];
    assert forall i :: 0 <= i < |tail| ==> tail[i] == entries[i + 1];
    assert !KeyAmong(tail, head.key);
    forall i | 0 <= i < |entries| ensures Holds(render, after, entries[i]) {
      if i > 0 {
        assert Holds(render, after, tail[i - 1]);
      }
    }
    forall key | !KeyAmong(entries, key)
      ensures (key in after <==> key in before) && (key in after ==> after[key] == before[key])
    {
      assert !KeyAmong(tail, key);
      assert key != head.key;
    }
  }

  lemma {:induction false} EntriesFill(render: TimeText, entries: seq<Entry>, ms: seq<Member>)
    requires DistinctEntries(entries) && NormalizeEntries(render, entries, ms).Some?
    ensures Filled(render, entries, Fields(ms), Fields(NormalizeEntries(render, entries, ms).value))
    decreases entries
  {
    if entries != [] {
      var next := Assign(ms, entries[0].key, Normalize(render, entries[0].item).value);
      AssignFields(ms, entries[0].key, Normalize(render, entries[0].item).value);
      EntriesFill(render, entries[1..], next);
      FilledFromHead(render, entries, Fields(ms), Fields(NormalizeEntries(render, entries, ms).value));
    }
  }

  lemma SameKeys(a: seq<Entry>, b: seq<Entry>, key: string)
    requires forall e :: e in a ==> e in b
    ensures KeyAmong(a, key) ==> KeyAmong(b, key)
  {
    if i :| 0 <= i < |a| && a[i].Keyed? && a[i].key == key {
      var e := a[i];
      assert e in b;
    }
  }

  lemma SameEntriesFillAlike(render: TimeText, a: seq<Entry>, b: seq<Entry>,
                             x: map<string, Datum>, y: map<string, Datum>)
    requires Filled(render, a, map[], x) && Filled(render, b, map[], y)
    requires forall e :: e in a <==> e in b
    ensures x == y
  {
    forall key ensures (key in x <==> key in y) && (key in x ==> x[key] == y[key]) {
      if KeyAmong(a, key) {
        var i :| 0 <= i < |a| && a[i].Keyed? && a[i].key == key;
        var e := a[i];
        assert e in b;
        var j :| 0 <= j < |b| && b[j] == e;
        assert Holds(render, x, a[i]) && Holds(render, y, b[j]);
      } else {
        SameKeys(b, a, key);
      }
    }
  }

  lemma SameEntriesRefusedAlike(render: TimeText, a: seq<Entry>, b: seq<Entry>)
    requires forall e :: e in a <==> e in b
    ensures NormalizeEntries(render, a, []).None? ==> NormalizeEntries(render, b, []).None?
  {
    EntriesRefused(render, a, []);
    EntriesRefused(render, b, []);
    if i :| 0 <= i < |a| && (a[i].Unkeyed? || Unrepresentable(a[i].item)) {
      var e := a[i];
      assert e in b;
    }
  }

  /**
   The insertion order of a dict never shows: all orders of the same entries, under distinct keys, have one text or
   none.
   */
  lemma InsertionOrderDoesNotShow(render: TimeText, a: seq<Entry>, b: seq<Entry>)
    requires DistinctEntries(a) && DistinctEntries(b) && forall e :: e in a <==> e in b
    ensures CanonicalText(render, VMap(a)) == CanonicalText(render, VMap(b))
  {
    SameEntriesRefusedAlike(render, a, b);
    SameEntriesRefusedAlike(render, b, a);
    if NormalizeEntries(render, a, []).Some? {
      EntriesFill(render, a, []);
      EntriesFill(render, b, []);
      SameEntriesFillAlike(render, a, b, Fields(NormalizeEntries(render, a, []).value),
          Fields(NormalizeEntries(render, b, []).value));
      CanonicalTextDeterminesValue(render, VMap(a), VMap(b));
    }
  }

  // ----- What the text says of the value -----

  // A dataclass field is left out exactly when it is marked canonical_omit_none and its value is None.
  predicate LeftOut(f: Field) {
    f.omitNone && f.content == VNone
  }

  predicate NameKept(fields: seq<Field>, name: string) {
    exists i :: 0 <= i < |fields| && !LeftOut(fields[i]) && fields[i].name == name
  }

  /** The dictionary, list or scalar a value stands for, given part by part and without any text. */
  ghost predicate Stands(render: TimeText, v: Value, d: Datum)
    decreases v
  {
    match v
    case VNone => d == DNull
    case VBool(b) => d == DBool(b)
    case VInt(n) => d == DInt(n)
    case VStr(s) => d == DStr(s)
    case VEnum(value) => Stands(render, value, d)
    case VTime(aware, at) => aware && d == DStr(render(at))
    case VRecord(fields) =>
      && d.DObj?
      && (forall name :: name in d.fields <==> NameKept(fields, name))
      && (forall i :: 0 <= i < |fields| && !LeftOut(fields[i]) && fields[i].name in d.fields ==>
            Stands(render, fields[i].content, d.fields[fields[i].name]))
    case VMap(entries) =>
      && d.DObj?
      && (forall i :: 0 <= i < |entries| ==> entries[i].Keyed?)
      && (forall key :: key in d.fields <==> KeyAmong(entries, key))
      && (forall i :: 0 <= i < |entries| && entries[i].Keyed? && entries[i].key in d.fields ==>
            Stands(render, entries[i].item, d.fields[entries[i].key]))
    case VSeq(items) =>
      && d.DArr? && |d.items| == |items|
      && (forall i :: 0 <= i < |items| && i < |d.items| ==> Stands(render, items[i], d.items[i]))
    case VFloat => false
    case VForeign => false
  }

  predicate DistinctNames(fields: seq<Field>) {
    forall i, j :: 0 <= i < j < |fields| ==> fields[i].name != fields[j].name
  }

  /** What a Python value is: no two fields of a dataclass share a name, no two entries of a mapping share a key. */
  predicate Proper(v: Value)
    decreases v
  {
    match v
    case VEnum(value) => Proper(value)
    case VRecord(fields) => DistinctNames(fields) && forall i :: 0 <= i < |fields| ==> Proper(fields[i].content)
    case VMap(entries) => DistinctEntries(entries) && forall i :: 0 <= i < |entries| ==> Proper(entries[i].item)
    case VSeq(items) => forall i :: 0 <= i < |items| ==> Proper(items[i])
    case _ => true
  }

  // The fields that are written, as entries.
  function KeptEntries(fields: seq<Field>): seq<Entry> {
    if fields == [] then []
    else (if LeftOut(fields[0]) then [] else [Keyed(fields[0].name, fields[0].content)]) + KeptEntries(fields[1..])
  }

  lemma {:induction false} FieldsAreEntries(render: TimeText, fields: seq<Field>, ms: seq<Member>)
    ensures NormalizeFields(render, fields, ms) == NormalizeEntries(render, KeptEntries(fields), ms)
    decreases fields
  {
    if fields != [] {
      var head, kept := fields[0], KeptEntries(fields[1..]);
      if LeftOut(head) {
        FieldsAreEntries(render, fields[1..], ms);
        assert KeptEntries(fields) == kept;
      } else {
        assert KeptEntries(fields) == [Keyed(head.name, head.content)] + kept;
        assert ([Keyed(head.name, head.content)] + kept)[1..] == kept;
        var value := Normalize(render, head.content);
        if value.Some? {
          FieldsAreEntries(render, fields[1..], Assign(ms, head.name, value.value));
        }
      }
    }
  }

  // An entry is kept for exactly the fields that are not left out.
  lemma {:induction false} KeptEntriesAre(fields: seq<Field>)
    ensures forall e :: e in KeptEntries(fields) ==>
              exists i :: 0 <= i < |fields| && !LeftOut(fields[i]) && e == Keyed(fields[i].name, fields[i].content)
    ensures forall i :: 0 <= i < |fields| && !LeftOut(fields[i]) ==>
              Keyed(fields[i].name, fields[i].content) in KeptEntries(fields)
  {
    if fields != [] {
      var tail := fields[1..];
      KeptEntriesAre(tail);
      assert forall i :: 0 <= i < |tail| ==> tail[i] == fields[i + 1];
      forall e | e in KeptEntries(fields)
        ensures exists i :: 0 <= i < |fields| && !LeftOut(fields[i]) && e == Keyed(fields[i].name, fields[i].content)
      {
        if e in KeptEntries(tail) {
          var i :| 0 <= i < |tail| && !LeftOut(tail[i]) && e == Keyed(tail[i].name, tail[i].content);
          assert tail[i] == fields[i + 1];
        }
      }
      forall i | 0 <= i < |fields| && !LeftOut(fields[i])
        ensures Keyed(fields[i].name, fields[i].content) in KeptEntries(fields)
      {
        if i > 0 {
          assert fields[i] == tail[i - 1];
        }
      }
    }
  }

  lemma {:induction false} KeptEntriesAreDistinct(fields: seq<Field>)
    requires DistinctNames(fields)
    ensures DistinctEntries(KeptEntries(fields))
  {
    if fields != [] {
      var tail := fields[1..];
      assert forall i :: 0 <= i < |tail| ==> tail[i] == fields[i + 1];
      KeptEntriesAreDistinct(tail);
      KeptEntriesAre(tail);
      var kept := KeptEntries(tail);
      forall k | 0 <= k < |kept| ensures kept[k].Keyed? && kept[k].key != fields[0].name {
        var e := kept[k];
        assert e in kept;
        var i :| 0 <= i < |tail| && !LeftOut(tail[i]) && e == Keyed(tail[i].name, tail[i].content);
        assert tail[i] == fields[i + 1];
      }
    }
  }

  lemma KeptKeys(fields: seq<Field>, name: string)
    ensures KeyAmong(KeptEntries(fields), name) <==> NameKept(fields, name)
  {
    var kept := KeptEntries(fields);
    KeptEntriesAre(fields);
    if KeyAmong(kept, name) {
      var k :| 0 <= k < |kept| && kept[k].Keyed? && kept[k].key == name;
      var e := kept[k];
      assert e in kept;
      var i :| 0 <= i < |fields| && !LeftOut(fields[i]) && e == Keyed(fields[i].name, fields[i].content);
    }
    if NameKept(fields, name) {
      var i :| 0 <= i < |fields| && !LeftOut(fields[i]) && fields[i].name == name;
      var e := Keyed(fields[i].name, fields[i].content);
      assert e in kept;
      var k :| 0 <= k < |kept| && kept[k] == e;
    }
  }

  // The normalised dict of a record holds the meaning of every field that is not left out, and nothing else.
  lemma RecordHoldsItsFields(render: TimeText, fields: seq<Field>)
    requires DistinctNames(fields) && NormalizeFields(render, fields, []).Some?
    ensures var dict := Fields(NormalizeFields(render, fields, []).value);
            && (forall name :: name in dict <==> NameKept(fields, name))
            && forall i :: 0 <= i < |fields| && !LeftOut(fields[i]) ==>
                 Holds(render, dict, Keyed(fields[i].name, fields[i].content))
  {
    var kept := KeptEntries(fields);
    FieldsAreEntries(render, fields, []);
    KeptEntriesAreDistinct(fields);
    KeptEntriesAre(fields);
    EntriesFill(render, kept, []);
    var dict := Fields(NormalizeFields(render, fields, []).value);
    forall name ensures name in dict <==> NameKept(fields, name) {
      KeptKeys(fields, name);
      KeyHeld(render, kept, dict, name);
    }
    forall i | 0 <= i < |fields| && !LeftOut(fields[i])
      ensures Holds(render, dict, Keyed(fields[i].name, fields[i].content))
    {
      var e := Keyed(fields[i].name, fields[i].content);
      assert e in kept;
      var k :| 0 <= k < |kept| && kept[k] == e;
      assert Holds(render, dict, kept[k]);
    }
  }

  lemma KeyHeld(render: TimeText, entries: seq<Entry>, dict: map<string, Datum>, key: string)
    requires Filled(render, entries, map[], dict)
    ensures key in dict <==> KeyAmong(entries, key)
  {
    if KeyAmong(entries, key) {
      var i :| 0 <= i < |entries| && entries[i].Keyed? && entries[i].key == key;
      assert Holds(render, dict, entries[i]);
    }
  }

  lemma {:induction false} ItemsNormalized(render: TimeText, items: seq<Value>)
    requires NormalizeItems(render, items).Some?
    ensures var js := NormalizeItems(render, items).value;
            && |ItemMeanings(js)| == |items|
            && forall i :: 0 <= i < |items| ==>
                 Normalize(render, items[i]).Some? && ItemMeanings(js)[i] == Meaning(Normalize(render, items[i]).value)
    decreases items
  {
    if items != [] {
      var js := NormalizeItems(render, items).value;
      var tail := items[1..];
      ItemsNormalized(render, tail);
      assert js[1..] == NormalizeItems(render, tail).value;
      forall i | 0 <= i < |items|
        ensures Normalize(render, items[i]).Some? && ItemMeanings(js)[i] == Meaning(Normalize(render, items[i]).value)
      {
        if i > 0 {
          assert items[i] == tail[i - 1];
        }
      }
    }
  }

  /** Whatever is serialised stands for the dictionary, list or scalar its parts say. */
  lemma {:induction false} NormalizedStands(render: TimeText, v: Value)
    requires Proper(v) && Normalize(render, v).Some?
    ensures Stands(render, v, Meaning(Normalize(render, v).value))
    decreases v
  {
    match v
    case VEnum(value) => NormalizedStands(render, value);
    case VRecord(fields) =>
      RecordHoldsItsFields(render, fields);
      forall i | 0 <= i < |fields| && !LeftOut(fields[i])
        ensures Stands(render, fields[i].content, Meaning(Normalize(render, fields[i].content).value))
      {
        assert Holds(render, Fields(NormalizeFields(render, fields, []).value),
                     Keyed(fields[i].name, fields[i].content));
        NormalizedStands(render, fields[i].content);
      }
    case VMap(entries) =>
      EntriesFill(render, entries, []);
      var dict := Fields(NormalizeEntries(render, entries, []).value);
      forall key ensures key in dict <==> KeyAmong(entries, key) {
        KeyHeld(render, entries, dict, key);
      }
      forall i | 0 <= i < |entries|
        ensures Holds(render, dict, entries[i]) && Stands(render, entries[i].item, dict[entries[i].key])
      {
        assert Holds(render, dict, entries[i]);
        NormalizedStands(render, entries[i].item);
      }
    case VSeq(items) =>
      ItemsNormalized(render, items);
      forall i | 0 <= i < |items| ensures Stands(render, items[i], Meaning(Normalize(render, items[i]).value)) {
        NormalizedStands(render, items[i]);
      }
    case _ =>
  }

  /** A value stands for one thing only. */
  lemma {:induction false} StandsForOne(render: TimeText, v: Value, d: Datum, e: Datum)
    requires Stands(render, v, d) && Stands(render, v, e)
    ensures d == e
    decreases v
  {
    match v
    case VEnum(value) => StandsForOne(render, value, d, e);
    case VRecord(fields) =>
      forall name | name in d.fields ensures d.fields[name] == e.fields[name] {
        assert NameKept(fields, name);
        var i :| 0 <= i < |fields| && !LeftOut(fields[i]) && fields[i].name == name;
        StandsForOne(render, fields[i].content, d.fields[name], e.fields[name]);
      }
    case VMap(entries) =>
      forall key | key in d.fields ensures d.fields[key] == e.fields[key] {
        assert KeyAmong(entries, key);
        var i :| 0 <= i < |entries| && entries[i].Keyed? && entries[i].key == key;
        StandsForOne(render, entries[i].item, d.fields[key], e.fields[key]);
      }
    case VSeq(items) =>
      forall i | 0 <= i < |items| ensures d.items[i] == e.items[i] {
        StandsForOne(render, items[i], d.items[i], e.items[i]);
      }
    case _ =>
  }

  lemma {:induction false} StandsNeedsRepresentable(render: TimeText, v: Value, d: Datum)
    requires Stands(render, v, d)
    ensures !Unrepresentable(v)
    decreases v
  {
    match v
    case VEnum(value) => StandsNeedsRepresentable(render, value, d);
    case VRecord(fields) =>
      forall i | 0 <= i < |fields| ensures !Unrepresentable(fields[i].content) {
        if !LeftOut(fields[i]) {
          assert NameKept(fields, fields[i].name);
          StandsNeedsRepresentable(render, fields[i].content, d.fields[fields[i].name]);
        }
      }
    case VMap(entries) =>
      forall i | 0 <= i < |entries| ensures entries[i].Keyed? && !Unrepresentable(entries[i].item) {
        assert KeyAmong(entries, entries[i].key);
        StandsNeedsRepresentable(render, entries[i].item, d.fields[entries[i].key]);
      }
    case VSeq(items) =>
      forall i | 0 <= i < |items| ensures !Unrepresentable(items[i]) {
        StandsNeedsRepresentable(render, items[i], d.items[i]);
      }
    case _ =>
  }

  /** A program value stands for something exactly when its text exists and parses to that. */
  lemma TextSaysTheValue(render: TimeText, v: Value, d: Datum)
    requires Proper(v)
    ensures Stands(render, v, d) <==>
              && CanonicalText(render, v).Some?
              && Parse(CanonicalText(render, v).value).Some?
              && Meaning(Parse(CanonicalText(render, v).value).value) == d
  {
    RefusesExactlyUnrepresentable(render, v);
    if Normalize(render, v).Some? {
      NormalizedStands(render, v);
      CanonicalTextDeterminesValue(render, v, v);
      if Stands(render, v, d) {
        StandsForOne(render, v, d, Meaning(Normalize(render, v).value));
      }
    } else if Stands(render, v, d) {
      StandsNeedsRepresentable(render, v, d);
    }
  }

  /** Values that stand for the same, and no others, have the same text. */
  lemma SameTextExactlyWhenSame(render: TimeText, v: Value, w: Value, d: Datum)
    requires Proper(v) && Proper(w) && Stands(render, v, d)
    ensures Stands(render, w, d) <==> CanonicalText(render, w) == CanonicalText(render, v)
  {
    TextSaysTheValue(render, v, d);
    TextSaysTheValue(render, w, d);
    if Stands(render, w, d) {
      CanonicalTextDeterminesValue(render, v, w);
      CanonicalTextDeterminesValue(render, w, v);
    }
  }
}
