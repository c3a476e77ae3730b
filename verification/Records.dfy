/** Records with a fixed list of field names, written to dicts and read back strictly. */
module Records {
  import opened Wrappers
  import opened Strings
  import opened Json
  import opened CanonicalJson

  // {key: value, ...} in the order of the field names.
  function Zip(keys: seq<string>, values: seq<Json>): (ms: seq<Member>)
    requires |keys| == |values|
    ensures |ms| == |keys| && forall i :: 0 <= i < |ms| ==> ms[i] == Member(keys[i], values[i])
  {
    if keys == [] then [] else [Member(keys[0], values[0])] + Zip(keys[1..], values[1..])
  }

  function Lookup(ms: seq<Member>, key: string): Option<Json> {
    if ms == [] then None
    else if ms[0].key == key then Some(ms[0].value)
    else Lookup(ms[1..], key)
  }

  // No field is missing and none is extra.
  predicate ExactFields(ms: seq<Member>, keys: seq<string>) {
    && (forall i :: 0 <= i < |keys| ==> Lookup(ms, keys[i]).Some?)
    && (forall i :: 0 <= i < |ms| ==> ms[i].key in keys)
  }

  // The values of the named fields, in the order of the names.
  function Pick(ms: seq<Member>, keys: seq<string>): (values: seq<Json>)
    requires ExactFields(ms, keys)
    ensures |values| == |keys|
  {
    seq(|keys|, i requires 0 <= i < |keys| => Lookup(ms, keys[i]).value)
  }

  lemma {:induction false} LookupMember(ms: seq<Member>, i: nat)
    requires DistinctKeys(ms) && i < |ms|
    ensures Lookup(ms, ms[i].key) == Some(ms[i].value)
  {
    if i > 0 {
      assert ms[0].key != ms[i].key;
      assert ms[1..][i - 1] == ms[i];
      LookupMember(ms[1..], i - 1);
    }
  }

  /** Whatever order the members are sorted into, a record reads back field by field. */
  lemma CanonRecordReads(keys: seq<string>, values: seq<Json>)
    requires |keys| == |values| && Distinct(keys)
    ensures Canon(Obj(Zip(keys, values))).Obj?
    ensures var ms := Canon(Obj(Zip(keys, values))).members;
            && DistinctKeys(ms)
            && ExactFields(ms, keys)
            && Pick(ms, keys) == CanonItems(values)
  {
    CanonItemAt(values);
    var zipped := CanonMembers(Zip(keys, values));
    var ms := SortMembers(zipped);
    CanonMemberAt(Zip(keys, values));
    SortSpec(zipped);
    SortedKeysAreDistinct(ms);
    forall i | 0 <= i < |keys| ensures Lookup(ms, keys[i]) == Some(Canon(values[i])) {
      assert zipped[i] == Member(keys[i], Canon(values[i])) && zipped[i] in ms;
      var k :| 0 <= k < |ms| && ms[k] == zipped[i];
      LookupMember(ms, k);
    }
    forall k | 0 <= k < |ms| ensures ms[k].key in keys {
      assert ms[k] in zipped;
      var i :| 0 <= i < |zipped| && zipped[i] == ms[k];
      assert zipped[i].key == keys[i];
    }
  }

  lemma {:induction false} CanonMemberAt(ms: seq<Member>)
    ensures forall i :: 0 <= i < |ms| ==> CanonMembers(ms)[i] == Member(ms[i].key, Canon(ms[i].value))
  {
    if ms != [] {
      CanonMemberAt(ms[1..]);
    }
  }

  lemma {:induction false} CanonItemAt(items: seq<Json>)
    ensures forall i :: 0 <= i < |items| ==> CanonItems(items)[i] == Canon(items[i])
  {
    if items != [] {
      CanonItemAt(items[1..]);
    }
  }

  /** Sorting a canonical tree again changes nothing. */
  lemma CanonIsIdempotent(j: Json)
    requires Canonical(j)
    ensures Canon(j) == j
  {
    CanonicalIsDictTree(j);
    CanonSpec(j);
    CanonicalIsUnique(Canon(j), j);
  }

  lemma ZipIsDict(keys: seq<string>, values: seq<Json>)
    requires |keys| == |values| && Distinct(keys) && forall i :: 0 <= i < |values| ==> DictTree(values[i])
    ensures DictTree(Obj(Zip(keys, values)))
  {
  }

  /** Records of one shape with one canonical text have the same values. */
  lemma SameTextSameValues(keys: seq<string>, a: seq<Json>, b: seq<Json>)
    requires |keys| == |a| == |b| && Distinct(keys)
    requires DictTree(Obj(Zip(keys, a))) && DictTree(Obj(Zip(keys, b)))
    requires Text(Obj(Zip(keys, a))) == Text(Obj(Zip(keys, b)))
    ensures CanonItems(a) == CanonItems(b)
  {
    TextParsesBack(Obj(Zip(keys, a)));
    TextParsesBack(Obj(Zip(keys, b)));
    CanonRecordReads(keys, a);
    CanonRecordReads(keys, b);
  }

  // ----- Arrays of records -----

  /** Reads every element, or nothing if one is refused. */
  function ReadEach<T>(reader: Json -> Option<T>, js: seq<Json>): Option<seq<T>> {
    if js == [] then Some([])
    else
      var first, others := reader(js[0]), ReadEach(reader, js[1..]);
      if first.None? || others.None? then None else Some([first.value] + others.value)
  }

  lemma {:induction false} ReadsEach<T>(reader: Json -> Option<T>, js: seq<Json>, values: seq<T>)
    requires |js| == |values| && forall i :: 0 <= i < |js| ==> reader(js[i]) == Some(values[i])
    ensures ReadEach(reader, js) == Some(values)
  {
    if js != [] {
      ReadsEach(reader, js[1..], values[1..]);
      assert values == [values[0]] + values[1..];
    }
  }

  // ----- The same records as program values -----

  function ZipValues(keys: seq<string>, values: seq<Value>): (entries: seq<Entry>)
    requires |keys| == |values|
    ensures |entries| == |keys|
  {
    seq(|keys|, i requires 0 <= i < |keys| => Keyed(keys[i], values[i]))
  }

  lemma {:induction false} AssignNewKey(ms: seq<Member>, key: string, value: Json)
    requires forall i :: 0 <= i < |ms| ==> ms[i].key != key
    ensures Assign(ms, key, value) == ms + [Member(key, value)]
  {
    if ms != [] {
      AssignNewKey(ms[1..], key, value);
      assert ms + [Member(key, value)] == [ms[0]] + (ms[1..] + [Member(key, value)]);
    }
  }

  lemma NormalizeOneMore(render: TimeText, init: seq<Entry>, ms: seq<Member>, key: string, value: Value, j: Json)
    requires NormalizeEntries(render, init, []) == Some(ms) && Normalize(render, value) == Some(j)
    requires forall i :: 0 <= i < |ms| ==> ms[i].key != key
    ensures NormalizeEntries(render, init + [Keyed(key, value)], []) == Some(ms + [Member(key, j)])
  {
    EntriesInTwoParts(render, init, [Keyed(key, value)], []);
    AssignNewKey(ms, key, j);
    assert [Keyed(key, value)][1..] == [];
  }

  predicate NormalizesAt(render: TimeText, values: seq<Value>, js: seq<Json>, i: nat)
    requires i < |values| == |js|
  {
    Normalize(render, values[i]) == Some(js[i])
  }

  lemma ZipGrows(keys: seq<string>, js: seq<Json>, n: nat)
    requires |keys| == |js| && Distinct(keys) && n < |keys|
    ensures Zip(keys, js)[..n + 1] == Zip(keys, js)[..n] + [Member(keys[n], js[n])]
    ensures forall i :: 0 <= i < n ==> Zip(keys, js)[..n][i].key != keys[n]
  {
    var all := Zip(keys, js);
    forall i | 0 <= i < n ensures all[..n][i].key != keys[n] {
      assert all[..n][i] == Member(keys[i], js[i]);
    }
  }

  lemma ZipValuesGrows(keys: seq<string>, values: seq<Value>, n: nat)
    requires |keys| == |values| && n < |keys|
    ensures ZipValues(keys, values)[..n + 1] == ZipValues(keys, values)[..n] + [Keyed(keys[n], values[n])]
  {
  }

  lemma {:induction false} NormalizePrefix(render: TimeText, keys: seq<string>, values: seq<Value>, js: seq<Json>,
                                           k: nat)
    requires |keys| == |values| == |js| && Distinct(keys) && k <= |keys|
    requires forall i :: 0 <= i < |keys| ==> NormalizesAt(render, values, js, i)
    ensures NormalizeEntries(render, ZipValues(keys, values)[..k], []) == Some(Zip(keys, js)[..k])
  {
    if k > 0 {
      var n := k - 1;
      NormalizePrefix(render, keys, values, js, n);
      assert NormalizesAt(render, values, js, n);
      ZipGrows(keys, js, n);
      ZipValuesGrows(keys, values, n);
      NormalizeOneMore(render, ZipValues(keys, values)[..n], Zip(keys, js)[..n], keys[n], values[n], js[n]);
    }
  }

  /** Normalising a dict display gives the record of the normalised fields, in the order written. */
  lemma NormalizeZip(render: TimeText, keys: seq<string>, values: seq<Value>, js: seq<Json>)
    requires |keys| == |values| == |js| && Distinct(keys)
    requires forall i :: 0 <= i < |keys| ==> NormalizesAt(render, values, js, i)
    ensures NormalizeEntries(render, ZipValues(keys, values), []) == Some(Zip(keys, js))
  {
    NormalizePrefix(render, keys, values, js, |keys|);
    assert ZipValues(keys, values)[..|keys|] == ZipValues(keys, values);
    assert Zip(keys, js)[..|keys|] == Zip(keys, js);
  }

  // A JSON tree as the plain Python value it is.
  function Embed(j: Json): Value
    decreases j
  {
    match j
    case Null => VNone
    case Bool(b) => VBool(b)
    case Int(n) => VInt(n)
    case Str(s) => VStr(s)
    case Arr(items) => VSeq(EmbedItems(items))
    case Obj(members) => VMap(EmbedMembers(members))
  }

  function EmbedItems(items: seq<Json>): seq<Value>
    decreases items
  {
    if items == [] then [] else [Embed(items[0])] + EmbedItems(items[1..])
  }

  function EmbedMembers(ms: seq<Member>): seq<Entry>
    decreases ms
  {
    if ms == [] then [] else [Keyed(ms[0].key, Embed(ms[0].value))] + EmbedMembers(ms[1..])
  }

  /** A dict tree normalises to itself. */
  lemma {:induction false} EmbedNormalizes(render: TimeText, j: Json)
    requires DictTree(j)
    ensures Normalize(render, Embed(j)) == Some(j)
    decreases j, 0
  {
    match j
    case Arr(items) => EmbedItemsNormalize(render, items);
    case Obj(members) =>
      assert [] + members == members;
      EmbedMembersNormalize(render, [], members);
    case _ =>
  }

  lemma {:induction false} EmbedItemsNormalize(render: TimeText, items: seq<Json>)
    requires forall i :: 0 <= i < |items| ==> DictTree(items[i])
    ensures NormalizeItems(render, EmbedItems(items)) == Some(items)
    decreases items
  {
    if items != [] {
      EmbedNormalizes(render, items[0]);
      EmbedItemsNormalize(render, items[1..]);
      assert EmbedItems(items)[1..] == EmbedItems(items[1..]);
      assert items == [items[0]] + items[1..];
    }
  }

  lemma HeadIsNew(done: seq<Member>, ms: seq<Member>)
    requires DistinctKeys(done + ms) && ms != []
    ensures forall i :: 0 <= i < |done| ==> done[i].key != ms[0].key
    ensures done + ms == (done + [ms[0]]) + ms[1..]
  {
    var all := done + ms;
    forall i | 0 <= i < |done| ensures done[i].key != ms[0].key {
      assert all[i] == done[i] && all[|done|] == ms[0];
    }
  }

  lemma EmbedOneMember(render: TimeText, done: seq<Member>, ms: seq<Member>)
    requires ms != [] && Normalize(render, Embed(ms[0].value)) == Some(ms[0].value)
    ensures NormalizeEntries(render, EmbedMembers(ms), done)
         == NormalizeEntries(render, EmbedMembers(ms[1..]), Assign(done, ms[0].key, ms[0].value))
  {
    assert EmbedMembers(ms)[1..] == EmbedMembers(ms[1..]);
  }

  lemma {:induction false} EmbedMembersNormalize(render: TimeText, done: seq<Member>, ms: seq<Member>)
    requires DistinctKeys(done + ms) && forall i :: 0 <= i < |ms| ==> DictTree(ms[i].value)
    ensures NormalizeEntries(render, EmbedMembers(ms), done) == Some(done + ms)
    decreases ms
  {
    if ms == [] {
      assert done + ms == done;
    } else {
      var head := ms[0];
      EmbedNormalizes(render, head.value);
      EmbedOneMember(render, done, ms);
      HeadIsNew(done, ms);
      AssignNewKey(done, head.key, head.value);
      assert Member(head.key, head.value) == head;
      EmbedMembersNormalize(render, done + [head], ms[1..]);
    }
  }
}
