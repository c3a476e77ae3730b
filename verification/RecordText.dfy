/** The text of a dataclass: its written fields in the order of their names, each a name and the text of its value. */
module RecordText {
  import opened Wrappers
  import opened Json
  import opened JsonParser
  import opened CanonicalJson
  import Decimal

  // The text of the one canonical tree with this meaning.
  lemma TextOf(render: TimeText, v: Value, t: Json)
    requires Normalize(render, v).Some? && Canonical(t) && Meaning(t) == Meaning(Normalize(render, v).value)
    ensures CanonicalText(render, v) == Some(Print(t))
  {
    NormalizedIsDictTree(render, v);
    CanonSpec(Normalize(render, v).value);
    CanonicalIsUnique(Canon(Normalize(render, v).value), t);
  }

  // The member a field is written as, if it is.
  function MemberOf(render: TimeText, f: Field): Member
    requires Normalize(render, f.content).Some?
  {
    Member(f.name, Canon(Normalize(render, f.content).value))
  }

  predicate AllWritable(render: TimeText, fields: seq<Field>) {
    forall i :: 0 <= i < |fields| ==> CanonicalText(render, fields[i].content).Some?
  }

  // The fields at these positions are the written ones, in the order of their names.
  ghost predicate WrittenInOrder(fields: seq<Field>, order: seq<nat>) {
    && (forall k :: 0 <= k < |order| ==> order[k] < |fields| && !LeftOut(fields[order[k]]))
    && (forall i :: 0 <= i < |fields| && !LeftOut(fields[i]) ==> i in order)
    && (forall j, k :: 0 <= j < k < |order| && order[j] < |fields| && order[k] < |fields| ==>
          Less(fields[order[j]].name, fields[order[k]].name))
  }

  // A name and its text.
  function Item(name: string, text: string): string {
    Quote(name) + ":" + text
  }

  // Texts one after the other, a comma between two of them.
  function Joined(parts: seq<string>): string {
    if parts == [] then "" else if |parts| == 1 then parts[0] else parts[0] + "," + Joined(parts[1..])
  }

  // The texts of the written fields, in this order.
  function Written(render: TimeText, fields: seq<Field>, order: seq<nat>): (parts: seq<string>)
    requires forall k :: 0 <= k < |order| ==> order[k] < |fields|
    requires AllWritable(render, fields)
    ensures |parts| == |order|
    ensures forall k :: 0 <= k < |order| ==>
              parts[k] == Item(fields[order[k]].name, CanonicalText(render, fields[order[k]].content).value)
  {
    seq(|order|, k requires 0 <= k < |order| =>
      Item(fields[order[k]].name, CanonicalText(render, fields[order[k]].content).value))
  }

  function MembersOf(render: TimeText, fields: seq<Field>, order: seq<nat>): (ms: seq<Member>)
    requires forall k :: 0 <= k < |order| ==> order[k] < |fields|
    requires AllWritable(render, fields)
    ensures |ms| == |order| && forall k :: 0 <= k < |order| ==> ms[k] == MemberOf(render, fields[order[k]])
  {
    seq(|order|, k requires 0 <= k < |order| => MemberOf(render, fields[order[k]]))
  }

  lemma {:induction false} WrittenIsPrinted(render: TimeText, fields: seq<Field>, order: seq<nat>)
    requires forall k :: 0 <= k < |order| ==> order[k] < |fields|
    requires AllWritable(render, fields)
    ensures PrintMembers(MembersOf(render, fields, order)) == Joined(Written(render, fields, order))
  {
    if |order| > 0 {
      var ms := MembersOf(render, fields, order);
      assert ms[1..] == MembersOf(render, fields, order[1..]);
      assert Written(render, fields, order)[1..] == Written(render, fields, order[1..]);
      WrittenIsPrinted(render, fields, order[1..]);
    }
  }

  lemma MembersAreCanonical(render: TimeText, fields: seq<Field>, order: seq<nat>)
    requires AllWritable(render, fields)
    requires WrittenInOrder(fields, order)
    ensures Canonical(Obj(MembersOf(render, fields, order))) && DistinctKeys(MembersOf(render, fields, order))
  {
    var ms := MembersOf(render, fields, order);
    forall k | 0 <= k < |ms| ensures Canonical(ms[k].value) {
      var content := fields[order[k]].content;
      NormalizedIsDictTree(render, content);
      CanonSpec(Normalize(render, content).value);
    }
    forall j, k | 0 <= j < k < |ms| ensures Less(ms[j].key, ms[k].key) && ms[j].key != ms[k].key {
      LessIsStrict(ms[j].key);
    }
  }

  lemma FieldMeans(render: TimeText, fields: seq<Field>, i: nat, dict: map<string, Datum>)
    requires i < |fields| && Holds(render, dict, Keyed(fields[i].name, fields[i].content))
    ensures fields[i].name in dict && dict[fields[i].name] == Meaning(MemberOf(render, fields[i]).value)
  {
    NormalizedIsDictTree(render, fields[i].content);
    CanonSpec(Normalize(render, fields[i].content).value);
  }

  lemma MemberIsHeld(render: TimeText, fields: seq<Field>, order: seq<nat>, ms: seq<Member>, dict: map<string, Datum>,
                     k: nat)
    requires WrittenInOrder(fields, order) && AllWritable(render, fields) && ms == MembersOf(render, fields, order)
    requires forall i :: 0 <= i < |fields| && !LeftOut(fields[i]) ==>
               Holds(render, dict, Keyed(fields[i].name, fields[i].content))
    requires k < |ms|
    ensures ms[k].key in dict && dict[ms[k].key] == Meaning(ms[k].value)
  {
    var i := order[k];
    assert Holds(render, dict, Keyed(fields[i].name, fields[i].content));
    FieldMeans(render, fields, i, dict);
  }

  lemma KeptIsMember(render: TimeText, fields: seq<Field>, order: seq<nat>, ms: seq<Member>, name: string)
    requires WrittenInOrder(fields, order) && AllWritable(render, fields) && ms == MembersOf(render, fields, order)
    requires NameKept(fields, name)
    ensures HasKey(ms, name)
  {
    var i :| 0 <= i < |fields| && !LeftOut(fields[i]) && fields[i].name == name;
    assert i in order;
    var k :| 0 <= k < |order| && order[k] == i;
    assert ms[k].key == name;
  }

  // The dict of the members, under one name.
  lemma NameMeans(ms: seq<Member>, dict: map<string, Datum>, name: string)
    requires DistinctKeys(ms)
    requires forall k :: 0 <= k < |ms| ==> ms[k].key in dict && dict[ms[k].key] == Meaning(ms[k].value)
    requires name in dict ==> HasKey(ms, name)
    ensures name in Fields(ms) <==> name in dict
    ensures name in dict ==> Fields(ms)[name] == dict[name]
  {
    FieldsHoldMembers(ms);
    if HasKey(ms, name) {
      var k :| 0 <= k < |ms| && ms[k].key == name;
    }
  }

  lemma MembersMean(render: TimeText, fields: seq<Field>, order: seq<nat>, ms: seq<Member>, dict: map<string, Datum>)
    requires WrittenInOrder(fields, order) && AllWritable(render, fields) && ms == MembersOf(render, fields, order)
    requires forall name :: name in dict <==> NameKept(fields, name)
    requires forall i :: 0 <= i < |fields| && !LeftOut(fields[i]) ==>
               Holds(render, dict, Keyed(fields[i].name, fields[i].content))
    ensures Fields(ms) == dict
  {
    MembersAreCanonical(render, fields, order);
    forall k: nat | k < |ms| ensures ms[k].key in dict && dict[ms[k].key] == Meaning(ms[k].value) {
      MemberIsHeld(render, fields, order, ms, dict, k);
    }
    forall name ensures name in dict ==> HasKey(ms, name) {
      if name in dict {
        KeptIsMember(render, fields, order, ms, name);
      }
    }
    DictsAgree(ms, dict);
  }

  lemma DictsAgree(ms: seq<Member>, dict: map<string, Datum>)
    requires DistinctKeys(ms)
    requires forall k :: 0 <= k < |ms| ==> ms[k].key in dict && dict[ms[k].key] == Meaning(ms[k].value)
    requires forall name :: name in dict ==> HasKey(ms, name)
    ensures Fields(ms) == dict
  {
    forall name
      ensures name in Fields(ms) <==> name in dict
      ensures name in dict ==> Fields(ms)[name] == dict[name]
    {
      NameMeans(ms, dict, name);
    }
  }

  lemma PartsAreRepresentable(render: TimeText, fields: seq<Field>)
    requires AllWritable(render, fields)
    ensures NormalizeFields(render, fields, []).Some?
  {
    FieldsRefused(render, fields, []);
    forall i | 0 <= i < |fields| ensures !Unrepresentable(fields[i].content) {
      RefusesExactlyUnrepresentable(render, fields[i].content);
    }
  }

  /** The text of a record, whatever the order its fields are declared in. */
  lemma RecordReads(render: TimeText, fields: seq<Field>, order: seq<nat>)
    requires DistinctNames(fields) && WrittenInOrder(fields, order)
    requires AllWritable(render, fields)
    ensures CanonicalText(render, VRecord(fields)) == Some("{" + Joined(Written(render, fields, order)) + "}")
  {
    PartsAreRepresentable(render, fields);
    RecordHoldsItsFields(render, fields);
    MembersMean(render, fields, order, MembersOf(render, fields, order),
                Fields(NormalizeFields(render, fields, []).value));
    MembersAreCanonical(render, fields, order);
    TextOf(render, VRecord(fields), Obj(MembersOf(render, fields, order)));
    WrittenIsPrinted(render, fields, order);
  }

  // A character that JSON writes as it is.
  predicate Plain(c: char) {
    c >= ' ' && c != '"' && c != '\\'
  }

  /** A text of plain characters is written between two quotation marks. */
  lemma {:induction false} PlainQuote(s: string)
    requires forall i :: 0 <= i < |s| ==> Plain(s[i])
    ensures Quote(s) == "\"" + s + "\""
  {
    PlainEscapes(s);
  }

  lemma {:induction false} PlainEscapes(s: string)
    requires forall i :: 0 <= i < |s| ==> Plain(s[i])
    ensures EscapeAll(s) == s
  {
    if s != "" {
      PlainEscapes(s[1..]);
      assert Plain(s[0]);
      assert s == [s[0]] + s[1..];
    }
  }

  lemma {:induction false} LessAt(a: string, b: string, k: nat)
    requires k < |a| && k < |b| && a[..k] == b[..k] && a[k] < b[k]
    ensures Less(a, b)
  {
    if k > 0 {
      assert a[0] == a[..k][0] == b[..k][0] == b[0];
      assert a[1..][..k - 1] == a[..k][1..] && b[1..][..k - 1] == b[..k][1..];
      LessAt(a[1..], b[1..], k - 1);
    }
  }

  // The names of a mandate's hard constraints, in declaration order.
  const CONSTRAINT_NAMES: seq<string> :=
    [ "max_total_minor", "max_quantity", "recurring_allowed", "merchant_allowlist", "sku_allowlist",
      "product_family_allowlist" ]

  // Its fields; only the last is omitted when None.
  function Constraints(names: seq<string>, total: int, quantity: int, recurring: bool, merchants: Value, skus: Value,
                       families: Value): seq<Field>
    requires |names| == 6
  {
    [ Field(names[0], false, VInt(total)),
      Field(names[1], false, VInt(quantity)),
      Field(names[2], false, VBool(recurring)),
      Field(names[3], false, merchants),
      Field(names[4], false, skus),
      Field(names[5], true, families) ]
  }

  function HardConstraints(total: int, quantity: int, recurring: bool, merchants: Value, skus: Value, families: Value)
    : seq<Field>
  {
    Constraints(CONSTRAINT_NAMES, total, quantity, recurring, merchants, skus, families)
  }

  lemma NamesInOrder()
    ensures Less("max_quantity", "max_total_minor") && Less("max_total_minor", "merchant_allowlist")
    ensures Less("merchant_allowlist", "product_family_allowlist")
    ensures Less("product_family_allowlist", "recurring_allowed") && Less("merchant_allowlist", "recurring_allowed")
    ensures Less("recurring_allowed", "sku_allowlist")
  {
    LessAt("max_quantity", "max_total_minor", 4);
    LessAt("max_total_minor", "merchant_allowlist", 1);
    LessAt("merchant_allowlist", "product_family_allowlist", 0);
    LessAt("product_family_allowlist", "recurring_allowed", 0);
    LessAt("merchant_allowlist", "recurring_allowed", 0);
    LessAt("recurring_allowed", "sku_allowlist", 0);
  }

  predicate AscendingNames(names: seq<string>) {
    forall k :: 0 < k < |names| ==> Less(names[k - 1], names[k])
  }

  lemma {:induction false} AscendingIsOrdered(names: seq<string>, j: nat, k: nat)
    requires AscendingNames(names) && j < k < |names|
    ensures Less(names[j], names[k])
  {
    if j + 1 < k {
      AscendingIsOrdered(names, j, k - 1);
      LessIsTransitive(names[j], names[k - 1], names[k]);
    }
  }

  lemma InOrder(fields: seq<Field>, order: seq<nat>, names: seq<string>)
    requires |names| == |order| && AscendingNames(names)
    requires forall k :: 0 <= k < |order| ==>
               order[k] < |fields| && !LeftOut(fields[order[k]]) && fields[order[k]].name == names[k]
    requires forall i :: 0 <= i < |fields| && !LeftOut(fields[i]) ==> i in order
    ensures WrittenInOrder(fields, order)
  {
    forall j, k | 0 <= j < k < |order| ensures Less(fields[order[j]].name, fields[order[k]].name) {
      AscendingIsOrdered(names, j, k);
    }
  }

  lemma ScalarTexts(render: TimeText, n: int, b: bool)
    ensures CanonicalText(render, VInt(n)) == Some(Decimal.OfInt(n))
    ensures CanonicalText(render, VBool(b)) == Some(if b then "true" else "false")
    ensures CanonicalText(render, VNone) == Some("null")
  {
  }

  // Six names, the second first and the last between the fourth and the third.
  predicate ConstraintOrder(names: seq<string>) {
    && |names| == 6 && Less(names[1], names[0]) && Less(names[0], names[3]) && Less(names[3], names[5])
    && Less(names[5], names[2]) && Less(names[3], names[2]) && Less(names[2], names[4])
  }

  lemma ConstraintNamesInOrder()
    ensures ConstraintOrder(CONSTRAINT_NAMES)
  {
    NamesInOrder();
  }

  lemma NamesDiffer(names: seq<string>, fields: seq<Field>)
    requires ConstraintOrder(names) && |fields| == 6 && forall i :: 0 <= i < 6 ==> fields[i].name == names[i]
    ensures DistinctNames(fields)
  {
    var sorted := [names[1], names[0], names[3], names[5], names[2], names[4]];
    forall j, k | 0 <= j < k < 6 ensures sorted[j] != sorted[k] {
      AscendingIsOrdered(sorted, j, k);
      LessIsStrict(sorted[j]);
    }
    assert sorted[0] == names[1] && sorted[1] == names[0] && sorted[2] == names[3];
    assert sorted[3] == names[5] && sorted[4] == names[2] && sorted[5] == names[4];
  }

  lemma WithoutFamilies(fields: seq<Field>, names: seq<string>, order: seq<nat>)
    requires ConstraintOrder(names) && |fields| == 6 && order == [1, 0, 3, 2, 4]
    requires forall i :: 0 <= i < 6 ==> fields[i].name == names[i] && (LeftOut(fields[i]) <==> i == 5)
    ensures WrittenInOrder(fields, order)
  {
    assert order[0] == 1 && order[1] == 0 && order[2] == 3 && order[3] == 2 && order[4] == 4;
    InOrder(fields, order, [names[1], names[0], names[3], names[2], names[4]]);
  }

  lemma WithFamilies(fields: seq<Field>, names: seq<string>, order: seq<nat>)
    requires ConstraintOrder(names) && |fields| == 6 && order == [1, 0, 3, 5, 2, 4]
    requires forall i :: 0 <= i < 6 ==> fields[i].name == names[i] && !LeftOut(fields[i])
    ensures WrittenInOrder(fields, order)
  {
    assert order[0] == 1 && order[1] == 0 && order[2] == 3 && order[3] == 5 && order[4] == 2 && order[5] == 4;
    InOrder(fields, order, [names[1], names[0], names[3], names[5], names[2], names[4]]);
  }

  // The texts at these positions.
  function Picked(items: seq<string>, order: seq<nat>): (parts: seq<string>)
    requires forall k :: 0 <= k < |order| ==> order[k] < |items|
  {
    seq(|order|, k requires 0 <= k < |order| => items[order[k]])
  }

  predicate Writes(render: TimeText, f: Field, item: string) {
    CanonicalText(render, f.content).Some? && item == Item(f.name, CanonicalText(render, f.content).value)
  }

  lemma PicksWritten(render: TimeText, fields: seq<Field>, items: seq<string>, order: seq<nat>)
    requires |fields| == |items| && DistinctNames(fields) && WrittenInOrder(fields, order)
    requires forall i :: 0 <= i < |fields| ==> Writes(render, fields[i], items[i])
    ensures CanonicalText(render, VRecord(fields)) == Some("{" + Joined(Picked(items, order)) + "}")
  {
    assert AllWritable(render, fields);
    RecordReads(render, fields, order);
    forall k | 0 <= k < |order| ensures Written(render, fields, order)[k] == items[order[k]] {
      assert Writes(render, fields[order[k]], items[order[k]]);
    }
    assert Written(render, fields, order) == Picked(items, order);
  }

  lemma PickedItems(items: seq<string>, order: seq<nat>)
    requires |items| == 6 && (order == [1, 0, 3, 2, 4] || order == [1, 0, 3, 5, 2, 4])
    ensures Picked(items, order)
            == [items[1], items[0], items[3]] + (if |order| == 5 then [] else [items[5]]) + [items[2], items[4]]
  {
    assert order[0] == 1 && order[1] == 0 && order[2] == 3;
  }

  lemma ConstraintsOrdered(fields: seq<Field>, names: seq<string>, families: Value, order: seq<nat>)
    requires ConstraintOrder(names) && |fields| == 6
    requires forall i :: 0 <= i < 6 ==> fields[i].name == names[i] && (fields[i].omitNone <==> i == 5)
    requires fields[5].content == families
    requires order == if families == VNone then [1, 0, 3, 2, 4] else [1, 0, 3, 5, 2, 4]
    ensures DistinctNames(fields) && WrittenInOrder(fields, order)
  {
    NamesDiffer(names, fields);
    if families == VNone {
      WithoutFamilies(fields, names, order);
    } else {
      WithFamilies(fields, names, order);
    }
  }

  lemma ConstraintsWrite(render: TimeText, fields: seq<Field>, names: seq<string>, total: int, quantity: int,
                         recurring: bool, merchants: string, skus: string, families: string, items: seq<string>)
    requires |names| == |fields| == 6 && forall i :: 0 <= i < 6 ==> fields[i].name == names[i]
    requires fields[0].content == VInt(total) && fields[1].content == VInt(quantity)
    requires fields[2].content == VBool(recurring)
    requires CanonicalText(render, fields[3].content) == Some(merchants)
    requires CanonicalText(render, fields[4].content) == Some(skus)
    requires CanonicalText(render, fields[5].content) == Some(families)
    requires items == [ Item(names[0], Decimal.OfInt(total)), Item(names[1], Decimal.OfInt(quantity)),
                        Item(names[2], if recurring then "true" else "false"), Item(names[3], merchants),
                        Item(names[4], skus), Item(names[5], families) ]
    ensures forall i :: 0 <= i < 6 ==> Writes(render, fields[i], items[i])
  {
    ScalarTexts(render, total, recurring);
    ScalarTexts(render, quantity, recurring);
  }

  lemma ConstraintsRead(render: TimeText, names: seq<string>, fields: seq<Field>, families: Value, items: seq<string>)
    requires ConstraintOrder(names) && |items| == |fields| == 6
    requires forall i :: 0 <= i < 6 ==> Writes(render, fields[i], items[i])
    requires forall i :: 0 <= i < 6 ==> fields[i].name == names[i] && (fields[i].omitNone <==> i == 5)
    requires fields[5].content == families
    ensures CanonicalText(render, VRecord(fields))
            == Some("{" + Joined([items[1], items[0], items[3]] + (if families == VNone then [] else [items[5]])
                                 + [items[2], items[4]]) + "}")
  {
    var order: seq<nat> := if families == VNone then [1, 0, 3, 2, 4] else [1, 0, 3, 5, 2, 4];
    ConstraintsOrdered(fields, names, families, order);
    PicksWritten(render, fields, items, order);
    PickedItems(items, order);
  }

  lemma FieldsSay(render: TimeText, fields: seq<Field>, names: seq<string>, total: int, quantity: int, recurring: bool,
                  merchants: string, skus: string, families: string, items: seq<string>)
    requires ConstraintOrder(names) && |fields| == 6
    requires forall i :: 0 <= i < 6 ==> fields[i].name == names[i] && (fields[i].omitNone <==> i == 5)
    requires fields[0].content == VInt(total) && fields[1].content == VInt(quantity)
    requires fields[2].content == VBool(recurring)
    requires CanonicalText(render, fields[3].content) == Some(merchants)
    requires CanonicalText(render, fields[4].content) == Some(skus)
    requires CanonicalText(render, fields[5].content) == Some(families)
    requires items == [ Item(names[0], Decimal.OfInt(total)), Item(names[1], Decimal.OfInt(quantity)),
                        Item(names[2], if recurring then "true" else "false"), Item(names[3], merchants),
                        Item(names[4], skus), Item(names[5], families) ]
    ensures CanonicalText(render, VRecord(fields))
            == Some("{" + Joined([items[1], items[0], items[3]]
                                 + (if fields[5].content == VNone then [] else [items[5]])
                                 + [items[2], items[4]]) + "}")
  {
    ConstraintsWrite(render, fields, names, total, quantity, recurring, merchants, skus, families, items);
    ConstraintsRead(render, names, fields, fields[5].content, items);
  }

  lemma ConstraintFields(names: seq<string>, total: int, quantity: int, recurring: bool, merchants: Value, skus: Value,
                         families: Value, fields: seq<Field>)
    requires |names| == 6 && fields == Constraints(names, total, quantity, recurring, merchants, skus, families)
    ensures |fields| == 6
    ensures forall i :: 0 <= i < 6 ==> fields[i].name == names[i] && (fields[i].omitNone <==> i == 5)
    ensures fields[0].content == VInt(total) && fields[1].content == VInt(quantity)
    ensures fields[2].content == VBool(recurring) && fields[3].content == merchants
    ensures fields[4].content == skus && fields[5].content == families
  {
  }

  lemma ConstraintsSay(render: TimeText, names: seq<string>, fields: seq<Field>, total: int, quantity: int,
                       recurring: bool, merchants: Value, skus: Value, families: Value,
                       merchantText: string, skuText: string, familyText: string)
    requires ConstraintOrder(names)
    requires fields == Constraints(names, total, quantity, recurring, merchants, skus, families)
    requires CanonicalText(render, merchants) == Some(merchantText) && CanonicalText(render, skus) == Some(skuText)
    requires CanonicalText(render, families) == Some(familyText)
    ensures CanonicalText(render, VRecord(fields))
            == Some("{" + Joined(
                 [ Item(names[1], Decimal.OfInt(quantity)), Item(names[0], Decimal.OfInt(total)),
                   Item(names[3], merchantText) ]
                 + (if families == VNone then [] else [Item(names[5], familyText)])
                 + [ Item(names[2], if recurring then "true" else "false"), Item(names[4], skuText) ]) + "}")
  {
    var items := [ Item(names[0], Decimal.OfInt(total)), Item(names[1], Decimal.OfInt(quantity)),
                   Item(names[2], if recurring then "true" else "false"), Item(names[3], merchantText),
                   Item(names[4], skuText), Item(names[5], familyText) ];
    ConstraintFields(names, total, quantity, recurring, merchants, skus, families, fields);
    FieldsSay(render, fields, names, total, quantity, recurring, merchantText, skuText, familyText, items);
  }

  /**
   The text of a mandate's hard constraints: an absent merchant or SKU allowlist is written as null, an absent product
   family allowlist is not written, and the names stand in order whatever the order of declaration.
   */
  lemma HardConstraintsRead(render: TimeText, total: int, quantity: int, recurring: bool, merchants: Value, skus: Value,
                            families: Value, merchantText: string, skuText: string, familyText: string)
    requires CanonicalText(render, merchants) == Some(merchantText) && CanonicalText(render, skus) == Some(skuText)
    requires CanonicalText(render, families) == Some(familyText)
    ensures CanonicalText(render, VRecord(HardConstraints(total, quantity, recurring, merchants, skus, families)))
            == Some("{" + Joined(
                 [ Item("max_quantity", Decimal.OfInt(quantity)),
                   Item("max_total_minor", Decimal.OfInt(total)),
                   Item("merchant_allowlist", merchantText) ]
                 + (if families == VNone then [] else [Item("product_family_allowlist", familyText)])
                 + [ Item("recurring_allowed", if recurring then "true" else "false"),
                     Item("sku_allowlist", skuText) ]) + "}")
  {
    ConstraintNamesInOrder();
    ConstraintsSay(render, CONSTRAINT_NAMES,
        HardConstraints(total, quantity, recurring, merchants, skus, families), total, quantity, recurring, merchants,
        skus, families, merchantText, skuText, familyText);
  }

  // ----- Lists, numbers and escapes -----

  lemma {:induction false} ItemsArePrinted(render: TimeText, items: seq<Value>, js: seq<Json>, texts: seq<string>)
    requires |js| == |texts| == |items| && NormalizeItems(render, items) == Some(js)
    requires forall i :: 0 <= i < |items| ==> CanonicalText(render, items[i]) == Some(texts[i])
    ensures PrintItems(CanonItems(js)) == Joined(texts)
    decreases |items|
  {
    if items != [] {
      assert js[1..] == NormalizeItems(render, items[1..]).value;
      assert CanonItems(js)[1..] == CanonItems(js[1..]);
      ItemsArePrinted(render, items[1..], js[1..], texts[1..]);
    }
  }

  /** The text of a list is its items' texts between brackets, in order; an enum's text is its value's. */
  lemma ListReads(render: TimeText, items: seq<Value>, texts: seq<string>, value: Value)
    requires |texts| == |items| && forall i :: 0 <= i < |items| ==> CanonicalText(render, items[i]) == Some(texts[i])
    ensures CanonicalText(render, VSeq(items)) == Some("[" + Joined(texts) + "]")
    ensures CanonicalText(render, VEnum(value)) == CanonicalText(render, value)
  {
    ItemsAreRepresentable(render, items);
    var js := NormalizeItems(render, items).value;
    ItemsPrintTexts(render, items, js, texts);
    ListPrints(render, items, js, Joined(texts));
  }

  lemma ItemsPrintTexts(render: TimeText, items: seq<Value>, js: seq<Json>, texts: seq<string>)
    requires |texts| == |items| && forall i :: 0 <= i < |items| ==> CanonicalText(render, items[i]) == Some(texts[i])
    requires NormalizeItems(render, items) == Some(js)
    ensures PrintItems(CanonItems(js)) == Joined(texts)
  {
    ItemsNormalized(render, items);
    ItemCount(js);
    ItemsArePrinted(render, items, js, texts);
  }

  lemma ListPrints(render: TimeText, items: seq<Value>, js: seq<Json>, text: string)
    requires NormalizeItems(render, items) == Some(js) && PrintItems(CanonItems(js)) == text
    ensures CanonicalText(render, VSeq(items)) == Some("[" + text + "]")
  {
  }

  lemma ItemsAreRepresentable(render: TimeText, items: seq<Value>)
    requires forall i :: 0 <= i < |items| ==> CanonicalText(render, items[i]).Some?
    ensures NormalizeItems(render, items).Some?
  {
    ItemsRefused(render, items);
    forall i | 0 <= i < |items| ensures !Unrepresentable(items[i]) {
      RefusesExactlyUnrepresentable(render, items[i]);
    }
  }

  lemma {:induction false} ItemCount(js: seq<Json>)
    ensures |ItemMeanings(js)| == |js|
  {
    if js != [] {
      ItemCount(js[1..]);
    }
  }

  /** Numbers are decimal, most significant digit first. */
  lemma DecimalDigits()
    ensures Decimal.OfInt(1234567890) == "1234567890" && Decimal.OfInt(-50) == "-50"
  {
    assert Decimal.OfNat(12) == "12";
    assert Decimal.OfNat(1234) == Decimal.OfNat(123) + "4" == "1234";
    assert Decimal.OfNat(123456) == Decimal.OfNat(12345) + "6" == "123456";
    assert Decimal.OfNat(12345678) == Decimal.OfNat(1234567) + "8" == "12345678";
    assert Decimal.OfNat(1234567890) == Decimal.OfNat(123456789) + "0";
  }

  // Four hexadecimal digits as a number.
  function HexValue(c: char): int {
    if '0' <= c <= '9' then c as int - '0' as int else c as int - 'a' as int + 10
  }

  /**
   What is escaped and how: quotation mark, backslash and five control characters by a letter, the other control
   characters by four lower-case hexadecimal digits, nothing else.
   */
  lemma EscapedAs(c: char)
    ensures Plain(c) ==> Escape(c) == [c]
    ensures c == '"' ==> Escape(c) == ['\\', '"']
    ensures c == '\\' ==> Escape(c) == ['\\', '\\']
    ensures c as int == 8 ==> Escape(c) == ['\\', 'b']
    ensures c as int == 9 ==> Escape(c) == ['\\', 't']
    ensures c as int == 10 ==> Escape(c) == ['\\', 'n']
    ensures c as int == 12 ==> Escape(c) == ['\\', 'f']
    ensures c as int == 13 ==> Escape(c) == ['\\', 'r']
    ensures c < ' ' && c as int !in {8, 9, 10, 12, 13} ==>
              var e := Escape(c);
              && |e| == 6 && e[..4] == ['\\', 'u', '0', '0']
              && (e[4] == '0' || e[4] == '1') && ('0' <= e[5] <= '9' || 'a' <= e[5] <= 'f')
              && 16 * HexValue(e[4]) + HexValue(e[5]) == c as int
  {
  }
}
