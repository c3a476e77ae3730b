/** JSON trees, the dictionaries they stand for, and their compact text. */
module Json {
  import opened Wrappers
  import Decimal

  // A normalised value. Obj keeps the insertion order of a Python dict.
  datatype Json =
    | Null
    | Bool(b: bool)
    | Int(n: int)
    | Str(s: string)
    | Arr(items: seq<Json>)
    | Obj(members: seq<Member>)

  datatype Member = Member(key: string, value: Json)

  // The value with dicts as maps, whatever their insertion order. Unlike Python's ==, it keeps True and 1 apart, as
  // JSON does.
  datatype Datum =
    | DNull
    | DBool(b: bool)
    | DInt(n: int)
    | DStr(s: string)
    | DArr(items: seq<Datum>)
    | DObj(fields: map<string, Datum>)

  function Meaning(j: Json): Datum {
    match j
    case Null => DNull
    case Bool(b) => DBool(b)
    case Int(n) => DInt(n)
    case Str(s) => DStr(s)
    case Arr(items) => DArr(ItemMeanings(items))
    case Obj(members) => DObj(Fields(members))
  }

  function ItemMeanings(items: seq<Json>): seq<Datum> {
    if items == [] then [] else [Meaning(items[0])] + ItemMeanings(items[1..])
  }

  function Fields(ms: seq<Member>): map<string, Datum> {
    if ms == [] then map[] else Fields(ms[1..])[ms[0].key := Meaning(ms[0].value)]
  }

  predicate HasKey(ms: seq<Member>, key: string) {
    exists i :: 0 <= i < |ms| && ms[i].key == key
  }

  predicate DistinctKeys(ms: seq<Member>) {
    forall i, j :: 0 <= i < j < |ms| ==> ms[i].key != ms[j].key
  }

  // Every object in the tree could be a dict.
  predicate DictTree(j: Json) {
    match j
    case Arr(items) => forall i :: 0 <= i < |items| ==> DictTree(items[i])
    case Obj(members) => DistinctKeys(members) && forall i :: 0 <= i < |members| ==> DictTree(members[i].value)
    case _ => true
  }

  lemma {:induction false} FieldsHoldMembers(ms: seq<Member>)
    requires DistinctKeys(ms)
    ensures forall key :: key in Fields(ms) <==> HasKey(ms, key)
    ensures forall i :: 0 <= i < |ms| ==> ms[i].key in Fields(ms) && Fields(ms)[ms[i].key] == Meaning(ms[i].value)
  {
    if ms != [] {
      var tail := ms[1..];
      FieldsHoldMembers(tail);
      forall key ensures key in Fields(ms) <==> HasKey(ms, key) {
        if HasKey(ms, key) && key != ms[0].key {
          var i :| 0 <= i < |ms| && ms[i].key == key;
          assert tail[i - 1].key == key;
        }
        if HasKey(tail, key) {
          var i :| 0 <= i < |tail| && tail[i].key == key;
          assert ms[i + 1].key == key;
        }
        assert ms[0].key == key ==> HasKey(ms, key);
      }
      forall i | 0 <= i < |ms| ensures ms[i].key in Fields(ms) && Fields(ms)[ms[i].key] == Meaning(ms[i].value) {
        if i > 0 {
          assert ms[i] == tail[i - 1];
        }
      }
    }
  }

  // ----- Key order -----

  /** Code point order, Python's order of str. */
  predicate Less(a: string, b: string) {
    b != "" && (a == "" || a[0] < b[0] || (a[0] == b[0] && Less(a[1..], b[1..])))
  }

  lemma {:induction false} LessIsStrict(a: string)
    ensures !Less(a, a)
  {
    if a != "" {
      LessIsStrict(a[1..]);
    }
  }

  lemma {:induction false} LessIsTransitive(a: string, b: string, c: string)
    requires Less(a, b) && Less(b, c)
    ensures Less(a, c)
  {
    if a != "" && a[0] == b[0] == c[0] {
      LessIsTransitive(a[1..], b[1..], c[1..]);
    }
  }

  lemma {:induction false} LessIsTotal(a: string, b: string)
    ensures Less(a, b) || a == b || Less(b, a)
  {
    if a != "" && b != "" && a[0] == b[0] {
      LessIsTotal(a[1..], b[1..]);
      assert a == [a[0]] + a[1..] && b == [b[0]] + b[1..];
    }
  }

  predicate SortedKeys(ms: seq<Member>) {
    forall i, j :: 0 <= i < j < |ms| ==> Less(ms[i].key, ms[j].key)
  }

  function Insert(m: Member, ms: seq<Member>): seq<Member> {
    if ms == [] || Less(m.key, ms[0].key) then [m] + ms else [ms[0]] + Insert(m, ms[1..])
  }

  /** sorted() over the items of a dict. */
  function SortMembers(ms: seq<Member>): seq<Member> {
    if ms == [] then [] else Insert(ms[0], SortMembers(ms[1..]))
  }

  lemma {:induction false} InsertMembers(m: Member, ms: seq<Member>)
    ensures forall x :: x in Insert(m, ms) <==> x == m || x in ms
  {
    if ms != [] && !Less(m.key, ms[0].key) {
      assert ms == [ms[0]] + ms[1..];
      InsertMembers(m, ms[1..]);
    }
  }

  lemma {:induction false} InsertFields(m: Member, ms: seq<Member>)
    requires forall i :: 0 <= i < |ms| ==> ms[i].key != m.key
    ensures Fields(Insert(m, ms)) == Fields(ms)[m.key := Meaning(m.value)]
  {
    if ms != [] && !Less(m.key, ms[0].key) {
      InsertFields(m, ms[1..]);
      assert ([ms[0]] + Insert(m, ms[1..]))[1..] == Insert(m, ms[1..]);
    } else {
      assert ([m] + ms)[1..] == ms;
    }
  }

  lemma {:induction false} InsertSorts(m: Member, ms: seq<Member>)
    requires SortedKeys(ms) && forall i :: 0 <= i < |ms| ==> ms[i].key != m.key
    ensures SortedKeys(Insert(m, ms))
  {
    if ms == [] {
    } else if Less(m.key, ms[0].key) {
      forall j | 0 <= j < |ms| ensures Less(m.key, ms[j].key) {
        if j > 0 {
          LessIsTransitive(m.key, ms[0].key, ms[j].key);
        }
      }
    } else {
      LessIsTotal(m.key, ms[0].key);
      InsertSorts(m, ms[1..]);
      InsertMembers(m, ms[1..]);
      forall x | x in Insert(m, ms[1..]) ensures Less(ms[0].key, x.key) {
      }
    }
  }

  lemma {:induction false} SortSpec(ms: seq<Member>)
    requires DistinctKeys(ms)
    ensures SortedKeys(SortMembers(ms))
    ensures forall x :: x in SortMembers(ms) <==> x in ms
    ensures Fields(SortMembers(ms)) == Fields(ms)
  {
    if ms != [] {
      var tail := SortMembers(ms[1..]);
      SortSpec(ms[1..]);
      forall i | 0 <= i < |tail| ensures tail[i].key != ms[0].key {
        assert tail[i] in ms[1..];
      }
      InsertMembers(ms[0], tail);
      InsertFields(ms[0], tail);
      InsertSorts(ms[0], tail);
      assert ms == [ms[0]] + ms[1..];
    }
  }

  // ----- Canonical trees -----

  /** The tree with every object's members in key order. */
  function Canon(j: Json): Json {
    match j
    case Arr(items) => Arr(CanonItems(items))
    case Obj(members) => Obj(SortMembers(CanonMembers(members)))
    case _ => j
  }

  function CanonItems(items: seq<Json>): (r: seq<Json>)
    ensures |r| == |items|
  {
    if items == [] then [] else [Canon(items[0])] + CanonItems(items[1..])
  }

  function CanonMembers(ms: seq<Member>): (r: seq<Member>)
    ensures |r| == |ms|
    ensures forall i :: 0 <= i < |ms| ==> r[i].key == ms[i].key
  {
    if ms == [] then [] else [Member(ms[0].key, Canon(ms[0].value))] + CanonMembers(ms[1..])
  }

  predicate Canonical(j: Json) {
    match j
    case Arr(items) => forall i :: 0 <= i < |items| ==> Canonical(items[i])
    case Obj(members) => SortedKeys(members) && forall i :: 0 <= i < |members| ==> Canonical(members[i].value)
    case _ => true
  }

  lemma {:induction false} CanonSpec(j: Json)
    requires DictTree(j)
    ensures Canonical(Canon(j)) && Meaning(Canon(j)) == Meaning(j)
    decreases j, 0
  {
    match j
    case Arr(items) => CanonItemsSpec(items);
    case Obj(members) =>
      CanonMembersSpec(members);
      var ms := CanonMembers(members);
      assert DistinctKeys(ms);
      SortSpec(ms);
      forall i | 0 <= i < |SortMembers(ms)| ensures Canonical(SortMembers(ms)[i].value) {
        assert SortMembers(ms)[i] in ms;
      }
    case _ =>
  }

  lemma {:induction false} CanonItemsSpec(items: seq<Json>)
    requires forall i :: 0 <= i < |items| ==> DictTree(items[i])
    ensures forall i :: 0 <= i < |items| ==> Canonical(CanonItems(items)[i])
    ensures ItemMeanings(CanonItems(items)) == ItemMeanings(items)
    decreases items
  {
    if items != [] {
      CanonSpec(items[0]);
      CanonItemsSpec(items[1..]);
      assert CanonItems(items)[1..] == CanonItems(items[1..]);
    }
  }

  lemma {:induction false} CanonMembersSpec(ms: seq<Member>)
    requires forall i :: 0 <= i < |ms| ==> DictTree(ms[i].value)
    ensures forall i :: 0 <= i < |ms| ==> Canonical(CanonMembers(ms)[i].value)
    ensures Fields(CanonMembers(ms)) == Fields(ms)
    decreases ms
  {
    if ms != [] {
      CanonSpec(ms[0].value);
      CanonMembersSpec(ms[1..]);
      assert CanonMembers(ms)[1..] == CanonMembers(ms[1..]);
    }
  }

  lemma SortedKeysAreDistinct(ms: seq<Member>)
    requires SortedKeys(ms)
    ensures DistinctKeys(ms)
  {
    forall i, j | 0 <= i < j < |ms| ensures ms[i].key != ms[j].key {
      LessIsStrict(ms[i].key);
    }
  }

  lemma {:induction false} CanonicalIsDictTree(j: Json)
    requires Canonical(j)
    ensures DictTree(j)
  {
    match j
    case Arr(items) =>
      forall i | 0 <= i < |items| ensures DictTree(items[i]) {
        CanonicalIsDictTree(items[i]);
      }
    case Obj(members) =>
      SortedKeysAreDistinct(members);
      forall i | 0 <= i < |members| ensures DictTree(members[i].value) {
        CanonicalIsDictTree(members[i].value);
      }
    case _ =>
  }

  // The first of sorted members holds the least key of the dict.
  lemma SameFirstKey(a: seq<Member>, b: seq<Member>)
    requires SortedKeys(a) && SortedKeys(b) && Fields(a) == Fields(b) && a != []
    ensures b != [] && a[0].key == b[0].key
  {
    SortedKeysAreDistinct(a);
    SortedKeysAreDistinct(b);
    FieldsHoldMembers(a);
    FieldsHoldMembers(b);
    assert a[0].key in Fields(b);
    var j :| 0 <= j < |b| && b[j].key == a[0].key;
    assert b[0].key in Fields(a);
    var i :| 0 <= i < |a| && a[i].key == b[0].key;
    if i > 0 && j > 0 {
      LessIsTransitive(a[0].key, b[0].key, a[0].key);
      LessIsStrict(a[0].key);
    }
  }

  lemma FirstKeyOnce(ms: seq<Member>)
    requires DistinctKeys(ms) && ms != []
    ensures ms[0].key !in Fields(ms[1..])
  {
    var tail := ms[1..];
    FieldsHoldMembers(tail);
    forall i | 0 <= i < |tail| ensures tail[i].key != ms[0].key {
      assert tail[i] == ms[i + 1];
    }
    assert !HasKey(tail, ms[0].key);
  }

  lemma RemoveAdded<K, V>(m: map<K, V>, k: K, v: V)
    requires k !in m
    ensures m[k := v] - {k} == m
  {
  }

  lemma TailFields(ms: seq<Member>)
    requires DistinctKeys(ms) && ms != []
    ensures Fields(ms[1..]) == Fields(ms) - {ms[0].key}
  {
    FirstKeyOnce(ms);
    RemoveAdded(Fields(ms[1..]), ms[0].key, Meaning(ms[0].value));
  }

  /** A canonical tree is determined by the value it stands for. */
  lemma {:induction false} CanonicalIsUnique(a: Json, b: Json)
    requires Canonical(a) && Canonical(b) && Meaning(a) == Meaning(b)
    ensures a == b
    decreases a, 0
  {
    match a
    case Arr(items) => UniqueItems(items, b.items);
    case Obj(members) => UniqueMembers(members, b.members);
    case _ =>
  }

  lemma {:induction false} UniqueItems(a: seq<Json>, b: seq<Json>)
    requires forall i :: 0 <= i < |a| ==> Canonical(a[i])
    requires forall i :: 0 <= i < |b| ==> Canonical(b[i])
    requires ItemMeanings(a) == ItemMeanings(b)
    ensures a == b
    decreases a
  {
    if a != [] && b != [] {
      assert ItemMeanings(a)[0] == Meaning(a[0]) && ItemMeanings(b)[0] == Meaning(b[0]);
      assert ItemMeanings(a)[1..] == ItemMeanings(a[1..]) && ItemMeanings(b)[1..] == ItemMeanings(b[1..]);
      CanonicalIsUnique(a[0], b[0]);
      UniqueItems(a[1..], b[1..]);
      assert a == [a[0]] + a[1..] && b == [b[0]] + b[1..];
    }
  }

  lemma {:induction false} UniqueMembers(a: seq<Member>, b: seq<Member>)
    requires SortedKeys(a) && forall i :: 0 <= i < |a| ==> Canonical(a[i].value)
    requires SortedKeys(b) && forall i :: 0 <= i < |b| ==> Canonical(b[i].value)
    requires Fields(a) == Fields(b)
    ensures a == b
    decreases a
  {
    if a != [] {
      SameFirstKey(a, b);
      SortedKeysAreDistinct(a);
      SortedKeysAreDistinct(b);
      FieldsHoldMembers(a);
      FieldsHoldMembers(b);
      CanonicalIsUnique(a[0].value, b[0].value);
      TailFields(a);
      TailFields(b);
      UniqueMembers(a[1..], b[1..]);
      assert a == [a[0]] + a[1..] && b == [b[0]] + b[1..];
    } else if b != [] {
      SameFirstKey(b, a);
    }
  }

  /** Two dict trees have one canonical form exactly when they are the same value up to the order of their members. */
  lemma SameCanonExactlyWhenEqual(a: Json, b: Json)
    requires DictTree(a) && DictTree(b)
    ensures Canon(a) == Canon(b) <==> Meaning(a) == Meaning(b)
  {
    CanonSpec(a);
    CanonSpec(b);
    if Meaning(a) == Meaning(b) {
      CanonicalIsUnique(Canon(a), Canon(b));
    }
  }

  // ----- Text -----

  function HexDigit(d: nat): (c: char)
    requires d < 16
    ensures c >= ' '
  {
    if d < 10 then '0' + d as char else 'a' + (d - 10) as char
  }

  function Escape(c: char): (r: string)
    ensures r != "" && forall i :: 0 <= i < |r| ==> r[i] >= ' '
  {
    if c == '"' then "\\\""
    else if c == '\\' then "\\\\"
    else if c == '\n' then "\\n"
    else if c == '\r' then "\\r"
    else if c == '\t' then "\\t"
    else if c == 8 as char then "\\b"
    else if c == 12 as char then "\\f"
    else if c < ' ' then "\\u00" + [HexDigit(c as nat / 16), HexDigit(c as nat % 16)]
    else [c]
  }

  function EscapeAll(s: string): (r: string)
    ensures forall i :: 0 <= i < |r| ==> r[i] >= ' '
  {
    if s == "" then "" else Escape(s[0]) + EscapeAll(s[1..])
  }

  function Quote(s: string): (r: string)
    ensures |r| >= 2 && forall i :: 0 <= i < |r| ==> r[i] >= ' '
  {
    "\"" + EscapeAll(s) + "\""
  }

  /** Compact text: no white space, ',' and ':' as separators, members in the order they stand. */
  function Print(j: Json): (r: string)
    ensures r != "" && forall i :: 0 <= i < |r| ==> r[i] >= ' '
  {
    match j
    case Null => "null"
    case Bool(b) => if b then "true" else "false"
    case Int(n) => Decimal.OfInt(n)
    case Str(s) => Quote(s)
    case Arr(items) => "[" + PrintItems(items) + "]"
    case Obj(members) => "{" + PrintMembers(members) + "}"
  }

  function PrintItems(items: seq<Json>): (r: string)
    ensures forall i :: 0 <= i < |r| ==> r[i] >= ' '
  {
    if items == [] then ""
    else if |items| == 1 then Print(items[0])
    else Print(items[0]) + "," + PrintItems(items[1..])
  }

  function PrintMembers(ms: seq<Member>): (r: string)
    ensures forall i :: 0 <= i < |r| ==> r[i] >= ' '
  {
    if ms == [] then ""
    else if |ms| == 1 then Quote(ms[0].key) + ":" + Print(ms[0].value)
    else Quote(ms[0].key) + ":" + Print(ms[0].value) + "," + PrintMembers(ms[1..])
  }
}
