/** A strict JSON reader (RFC 8259, sections 2 to 7) that refuses floats and duplicate keys, and its inverse law. */
module JsonParser {
  import opened Wrappers
  import opened Strings
  import opened Json
  import Decimal

  datatype Scan<T> = Scan(value: T, rest: string)

  // ----- Scanning -----

  function SkipSpace(s: string): (r: string)
    ensures |r| <= |s|
  {
    if s != "" && (s[0] == ' ' || s[0] == '\t' || s[0] == '\n' || s[0] == '\r') then SkipSpace(s[1..]) else s
  }

  function HexValue(c: char): Option<nat> {
    if '0' <= c <= '9' then Some((c - '0') as nat)
    else if 'a' <= c <= 'f' then Some((c - 'a') as nat + 10)
    else if 'A' <= c <= 'F' then Some((c - 'A') as nat + 10)
    else None
  }

  // Four hexadecimal digits.
  function ScanHex(s: string): (r: Option<nat>)
    ensures r.Some? ==> |s| >= 4 && r.value < 0x1_0000
  {
    if |s| < 4 then None
    else
      var a, b, c, d := HexValue(s[0]), HexValue(s[1]), HexValue(s[2]), HexValue(s[3]);
      if a.None? || b.None? || c.None? || d.None? then None
      else
        assert a.value < 16 && b.value < 16 && c.value < 16 && d.value < 16;
        Some(a.value * 4096 + b.value * 256 + c.value * 16 + d.value)
  }

  // After \u. A surrogate pair is one character; a lone surrogate has no character.
  function ScanUnicode(s: string): (r: Option<Scan<char>>)
    ensures r.Some? ==> |r.value.rest| < |s|
  {
    var high := ScanHex(s);
    if high.None? then None
    else if high.value < 0xD800 || high.value >= 0xE000 then Some(Scan(high.value as char, s[4..]))
    else if high.value >= 0xDC00 || !StartsWith(s[4..], "\\u") then None
    else
      var low := ScanHex(s[6..]);
      if low.None? || low.value < 0xDC00 || low.value >= 0xE000 then None
      else Some(Scan((0x1_0000 + (high.value - 0xD800) * 0x400 + (low.value - 0xDC00)) as char, s[10..]))
  }

  // After a backslash.
  function ScanEscape(s: string): (r: Option<Scan<char>>)
    ensures r.Some? ==> |r.value.rest| < |s|
  {
    if s == "" then None
    else if s[0] == 'u' then ScanUnicode(s[1..])
    else if s[0] == '"' || s[0] == '\\' || s[0] == '/' then Some(Scan(s[0], s[1..]))
    else if s[0] == 'b' then Some(Scan(8 as char, s[1..]))
    else if s[0] == 'f' then Some(Scan(12 as char, s[1..]))
    else if s[0] == 'n' then Some(Scan('\n', s[1..]))
    else if s[0] == 'r' then Some(Scan('\r', s[1..]))
    else if s[0] == 't' then Some(Scan('\t', s[1..]))
    else None
  }

  function Prepend(c: char, scanned: Option<Scan<string>>): Option<Scan<string>> {
    if scanned.None? then None else Some(Scan([c] + scanned.value.value, scanned.value.rest))
  }

  // After the opening quote. A raw control character is refused.
  function ScanString(s: string): (r: Option<Scan<string>>)
    ensures r.Some? ==> |r.value.rest| < |s|
    decreases |s|
  {
    if s == "" || s[0] < ' ' then None
    else if s[0] == '"' then Some(Scan("", s[1..]))
    else if s[0] != '\\' then Prepend(s[0], ScanString(s[1..]))
    else
      var escaped := ScanEscape(s[1..]);
      if escaped.None? then None else Prepend(escaped.value.value, ScanString(escaped.value.rest))
  }

  function DigitRun(s: string): (n: nat)
    ensures n <= |s| && Decimal.AllDigits(s[..n])
  {
    if s == "" || !Decimal.IsDigit(s[0]) then 0 else
      var n := DigitRun(s[1..]);
      assert s[..n + 1] == [s[0]] + s[1..][..n];
      n + 1
  }

  // What makes Python read a number as a float.
  predicate FloatTail(s: string) {
    || (|s| >= 2 && s[0] == '.' && Decimal.IsDigit(s[1]))
    || (|s| >= 2 && (s[0] == 'e' || s[0] == 'E') && Decimal.IsDigit(s[1]))
    || (|s| >= 3 && (s[0] == 'e' || s[0] == 'E') && (s[1] == '+' || s[1] == '-') && Decimal.IsDigit(s[2]))
  }

  function ScanNumber(s: string): (r: Option<Scan<int>>)
    ensures r.Some? ==> |r.value.rest| < |s|
  {
    var body := if s != "" && s[0] == '-' then s[1..] else s;
    var run := if body != "" && body[0] == '0' then 1 else DigitRun(body);
    if run == 0 || FloatTail(body[run..]) then None
    else
      var n: int := Decimal.ToNat(body[..run]);
      Some(Scan(if |body| < |s| then -n else n, body[run..]))
  }

  function ScanWord(s: string, word: string, value: Json): (r: Option<Scan<Json>>)
    requires word != ""
    ensures r.Some? ==> |r.value.rest| < |s|
  {
    if StartsWith(s, word) then Some(Scan(value, s[|word|..])) else None
  }

  // ----- Values -----

  function ScanValue(s: string): (r: Option<Scan<Json>>)
    ensures r.Some? ==> |r.value.rest| < |s|
    decreases |s|, 0
  {
    if s == "" then None
    else if s[0] == '"' then
      var text := ScanString(s[1..]);
      if text.None? then None else Some(Scan(Str(text.value.value), text.value.rest))
    else if s[0] == '[' then
      var after := SkipSpace(s[1..]);
      if after != "" && after[0] == ']' then Some(Scan(Arr([]), after[1..]))
      else
        var items := ScanItems(after);
        if items.None? then None else Some(Scan(Arr(items.value.value), items.value.rest))
    else if s[0] == '{' then
      var after := SkipSpace(s[1..]);
      if after != "" && after[0] == '}' then Some(Scan(Obj([]), after[1..]))
      else
        var members := ScanMembers(after);
        if members.None? || !DistinctKeys(members.value.value) then None
        else Some(Scan(Obj(members.value.value), members.value.rest))
    else if s[0] == 'n' then ScanWord(s, "null", Null)
    else if s[0] == 't' then ScanWord(s, "true", Bool(true))
    else if s[0] == 'f' then ScanWord(s, "false", Bool(false))
    else
      var number := ScanNumber(s);
      if number.None? then None else Some(Scan(Int(number.value.value), number.value.rest))
  }

  // A nonempty list of values up to and including ']'.
  function ScanItems(s: string): (r: Option<Scan<seq<Json>>>)
    ensures r.Some? ==> |r.value.rest| < |s|
    decreases |s|, 1
  {
    var first := ScanValue(s);
    if first.None? then None
    else
      var after := SkipSpace(first.value.rest);
      if after == "" then None
      else if after[0] == ']' then Some(Scan([first.value.value], after[1..]))
      else if after[0] != ',' then None
      else
        var others := ScanItems(SkipSpace(after[1..]));
        if others.None? then None else Some(Scan([first.value.value] + others.value.value, others.value.rest))
  }

  function ScanMember(s: string): (r: Option<Scan<Member>>)
    ensures r.Some? ==> |r.value.rest| < |s|
    decreases |s|, 1
  {
    if s == "" || s[0] != '"' then None
    else
      var key := ScanString(s[1..]);
      if key.None? then None
      else
        var after := SkipSpace(key.value.rest);
        if after == "" || after[0] != ':' then None
        else
          var value := ScanValue(SkipSpace(after[1..]));
          if value.None? then None else Some(Scan(Member(key.value.value, value.value.value), value.value.rest))
  }

  // A nonempty list of members up to and including '}'.
  function ScanMembers(s: string): (r: Option<Scan<seq<Member>>>)
    ensures r.Some? ==> |r.value.rest| < |s|
    decreases |s|, 2
  {
    var first := ScanMember(s);
    if first.None? then None
    else
      var after := SkipSpace(first.value.rest);
      if after == "" then None
      else if after[0] == '}' then Some(Scan([first.value.value], after[1..]))
      else if after[0] != ',' then None
      else
        var others := ScanMembers(SkipSpace(after[1..]));
        if others.None? then None else Some(Scan([first.value.value] + others.value.value, others.value.rest))
  }

  /** json.loads with the journal's hooks: one value and nothing else but white space. */
  function Parse(s: string): Option<Json> {
    var scanned := ScanValue(SkipSpace(s));
    if scanned.None? || SkipSpace(scanned.value.rest) != "" then None else Some(scanned.value.value)
  }

  // ----- Reading back what Print wrote -----

  lemma EscapeRoundTrip(c: char, rest: string)
    requires c < ' ' || c == '"' || c == '\\'
    ensures Escape(c)[0] == '\\' && ScanEscape((Escape(c) + rest)[1..]) == Some(Scan(c, rest))
  {
    var s := (Escape(c) + rest)[1..];
    if |Escape(c)| == 2 {
      assert s == [Escape(c)[1]] + rest;
    } else {
      var h, l := c as nat / 16, c as nat % 16;
      assert s == "u00" + [HexDigit(h), HexDigit(l)] + rest;
      assert s[1..] == ['0', '0', HexDigit(h), HexDigit(l)] + rest;
      assert ScanHex(s[1..]) == Some(c as nat);
    }
  }

  lemma CharacterRoundTrip(c: char, more: string, t: string, rest: string)
    requires ScanString(more) == Some(Scan(t, rest))
    ensures ScanString(Escape(c) + more) == Some(Scan([c] + t, rest))
  {
    if c < ' ' || c == '"' || c == '\\' {
      EscapeRoundTrip(c, more);
    } else {
      assert ([c] + more)[1..] == more;
    }
  }

  lemma Associate(a: string, b: string, c: string)
    ensures a + b + c == a + (b + c)
  {
  }

  lemma {:induction false} StringRoundTrip(t: string, rest: string)
    ensures ScanString(EscapeAll(t) + ("\"" + rest)) == Some(Scan(t, rest))
  {
    if t == "" {
      assert EscapeAll(t) + ("\"" + rest) == "\"" + rest;
    } else {
      var more := EscapeAll(t[1..]) + ("\"" + rest);
      StringRoundTrip(t[1..], rest);
      CharacterRoundTrip(t[0], more, t[1..], rest);
      Associate(Escape(t[0]), EscapeAll(t[1..]), "\"" + rest);
      assert t == [t[0]] + t[1..];
    }
  }

  lemma {:induction false} DigitRunStops(digits: string, rest: string)
    requires Decimal.AllDigits(digits) && (rest == "" || !Decimal.IsDigit(rest[0]))
    ensures DigitRun(digits + rest) == |digits|
  {
    if digits != "" {
      assert (digits + rest)[1..] == digits[1..] + rest;
      DigitRunStops(digits[1..], rest);
    } else {
      assert digits + rest == rest;
    }
  }

  // What may follow a value inside a document.
  predicate Closes(rest: string) {
    rest == "" || rest[0] == ',' || rest[0] == ']' || rest[0] == '}'
  }

  lemma NaturalRoundTrip(n: nat, rest: string)
    requires Closes(rest)
    ensures var body := Decimal.OfNat(n) + rest;
            && body != "" && Decimal.IsDigit(body[0])
            && (if body[0] == '0' then 1 else DigitRun(body)) == |Decimal.OfNat(n)|
            && body[..|Decimal.OfNat(n)|] == Decimal.OfNat(n) && body[|Decimal.OfNat(n)|..] == rest
  {
    DigitRunStops(Decimal.OfNat(n), rest);
  }

  lemma PositiveRoundTrip(n: nat, rest: string)
    requires Closes(rest)
    ensures ScanNumber(Decimal.OfNat(n) + rest) == Some(Scan(n as int, rest))
  {
    NaturalRoundTrip(n, rest);
    Decimal.NatRoundTrip(n);
  }

  lemma NegativeRoundTrip(n: nat, rest: string)
    requires Closes(rest)
    ensures ScanNumber("-" + (Decimal.OfNat(n) + rest)) == Some(Scan(-(n as int), rest))
  {
    NaturalRoundTrip(n, rest);
    Decimal.NatRoundTrip(n);
    assert ("-" + (Decimal.OfNat(n) + rest))[1..] == Decimal.OfNat(n) + rest;
  }

  lemma NumberRoundTrip(n: int, rest: string)
    requires Closes(rest)
    ensures ScanNumber(Decimal.OfInt(n) + rest) == Some(Scan(n, rest))
  {
    if n < 0 {
      SignedText(n, rest);
      NegativeRoundTrip(-n, rest);
    } else {
      assert Decimal.OfInt(n) == Decimal.OfNat(n);
      PositiveRoundTrip(n, rest);
    }
  }

  lemma SignedText(n: int, rest: string)
    requires n < 0
    ensures Decimal.OfInt(n) + rest == "-" + (Decimal.OfNat(-n) + rest)
  {
    Associate("-", Decimal.OfNat(-n), rest);
  }

  lemma ScansArray(body: string, items: seq<Json>, rest: string)
    requires SkipSpace(body) == body
    requires items == [] ==> body == "]" + rest
    requires items != [] ==> body != "" && body[0] != ']' && ScanItems(body) == Some(Scan(items, rest))
    ensures ScanValue("[" + body) == Some(Scan(Arr(items), rest))
  {
    assert ("[" + body)[1..] == body;
    assert ("]" + rest)[1..] == rest;
  }

  lemma ScansObject(body: string, members: seq<Member>, rest: string)
    requires SkipSpace(body) == body && DistinctKeys(members)
    requires members == [] ==> body == "}" + rest
    requires members != [] ==> body != "" && body[0] != '}' && ScanMembers(body) == Some(Scan(members, rest))
    ensures ScanValue("{" + body) == Some(Scan(Obj(members), rest))
  {
    assert ("{" + body)[1..] == body;
    assert ("}" + rest)[1..] == rest;
  }

  lemma LastItem(s: string, item: Json, rest: string)
    requires ScanValue(s) == Some(Scan(item, "]" + rest))
    ensures ScanItems(s) == Some(Scan([item], rest))
  {
    assert ("]" + rest)[1..] == rest;
  }

  lemma NextItem(s: string, item: Json, more: string, items: seq<Json>, rest: string)
    requires ScanValue(s) == Some(Scan(item, "," + more)) && SkipSpace(more) == more
    requires ScanItems(more) == Some(Scan(items, rest))
    ensures ScanItems(s) == Some(Scan([item] + items, rest))
  {
    assert ("," + more)[1..] == more;
  }

  lemma LastMember(s: string, m: Member, rest: string)
    requires ScanMember(s) == Some(Scan(m, "}" + rest))
    ensures ScanMembers(s) == Some(Scan([m], rest))
  {
    assert ("}" + rest)[1..] == rest;
  }

  lemma NextMember(s: string, m: Member, more: string, ms: seq<Member>, rest: string)
    requires ScanMember(s) == Some(Scan(m, "," + more)) && SkipSpace(more) == more
    requires ScanMembers(more) == Some(Scan(ms, rest))
    ensures ScanMembers(s) == Some(Scan([m] + ms, rest))
  {
    assert ("," + more)[1..] == more;
  }

  lemma ScansMember(key: string, value: Json, tail: string, rest: string)
    requires ScanValue(tail) == Some(Scan(value, rest)) && SkipSpace(tail) == tail
    ensures ScanMember(Quote(key) + (":" + tail)) == Some(Scan(Member(key, value), rest))
  {
    var s := Quote(key) + (":" + tail);
    Regroup("\"", EscapeAll(key), "\"", ":" + tail);
    assert s[1..] == EscapeAll(key) + ("\"" + (":" + tail));
    StringRoundTrip(key, ":" + tail);
    assert (":" + tail)[1..] == tail;
  }

  lemma WordRoundTrip(word: string, value: Json, rest: string)
    requires word != ""
    ensures ScanWord(word + rest, word, value) == Some(Scan(value, rest))
  {
    assert (word + rest)[..|word|] == word && (word + rest)[|word|..] == rest;
  }

  lemma ScalarRoundTrip(j: Json, rest: string)
    requires Closes(rest) && !j.Arr? && !j.Obj?
    ensures ScanValue(Print(j) + rest) == Some(Scan(j, rest))
  {
    match j
    case Null => WordRoundTrip("null", Null, rest);
    case Bool(b) => WordRoundTrip(Print(j), j, rest);
    case Int(n) => ScansInt(n, Decimal.OfInt(n) + rest, rest);
    case Str(t) => ScansString(t, EscapeAll(t) + ("\"" + rest), rest);
  }

  lemma ScansInt(n: int, s: string, rest: string)
    requires Closes(rest) && s == Decimal.OfInt(n) + rest
    ensures ScanValue(s) == Some(Scan(Int(n), rest))
  {
    NumberRoundTrip(n, rest);
    IntStarts(n, rest);
  }

  lemma ScansString(t: string, body: string, rest: string)
    requires body == EscapeAll(t) + ("\"" + rest)
    ensures ScanValue(Quote(t) + rest) == Some(Scan(Str(t), rest))
  {
    StringRoundTrip(t, rest);
    Regroup("\"", EscapeAll(t), "\"", rest);
    assert ("\"" + body)[1..] == body;
  }

  lemma IntStarts(n: int, rest: string)
    ensures var c := (Decimal.OfInt(n) + rest)[0]; Decimal.IsDigit(c) || c == '-'
  {
  }

  lemma Regroup(a: string, b: string, c: string, d: string)
    ensures a + b + c + d == a + (b + (c + d))
  {
  }

  lemma TextStartsVisibly(j: Json, rest: string)
    ensures SkipSpace(Print(j) + rest) == Print(j) + rest
    ensures Print(j)[0] != ']' && Print(j)[0] != '}'
  {
  }

  /** Scanning what Print wrote gives the tree back and stops at its end. */
  lemma {:induction false} ValueRoundTrip(j: Json, rest: string)
    requires DictTree(j) && Closes(rest)
    ensures ScanValue(Print(j) + rest) == Some(Scan(j, rest))
    decreases j, 0
  {
    match j
    case Arr(items) => ArrayRoundTrip(items, rest);
    case Obj(members) => ObjectRoundTrip(members, rest);
    case _ => ScalarRoundTrip(j, rest);
  }

  lemma ArrayRoundTrip(items: seq<Json>, rest: string)
    requires forall i :: 0 <= i < |items| ==> DictTree(items[i])
    ensures ScanValue(Print(Arr(items)) + rest) == Some(Scan(Arr(items), rest))
    decreases items, 1
  {
    if items == [] {
      ScansArray("]" + rest, [], rest);
    } else {
      ItemsRoundTrip(items, rest);
      ScansArray(PrintItems(items) + ("]" + rest), items, rest);
    }
    Regroup("[", PrintItems(items), "]", rest);
  }

  lemma ObjectRoundTrip(members: seq<Member>, rest: string)
    requires DistinctKeys(members) && forall i :: 0 <= i < |members| ==> DictTree(members[i].value)
    ensures ScanValue(Print(Obj(members)) + rest) == Some(Scan(Obj(members), rest))
    decreases members, 1
  {
    if members == [] {
      ScansObject("}" + rest, [], rest);
    } else {
      MembersRoundTrip(members, rest);
      ScansObject(PrintMembers(members) + ("}" + rest), members, rest);
    }
    Regroup("{", PrintMembers(members), "}", rest);
  }

  lemma LastItemRoundTrip(item: Json, rest: string)
    requires DictTree(item)
    ensures var s := Print(item) + ("]" + rest);
            SkipSpace(s) == s && s[0] != ']' && ScanItems(s) == Some(Scan([item], rest))
    decreases item, 1
  {
    TextStartsVisibly(item, "]" + rest);
    ValueRoundTrip(item, "]" + rest);
    LastItem(Print(item) + ("]" + rest), item, rest);
  }

  lemma NextItemRoundTrip(item: Json, more: string, items: seq<Json>, rest: string)
    requires DictTree(item) && SkipSpace(more) == more && ScanItems(more) == Some(Scan(items, rest))
    ensures var s := Print(item) + ("," + more);
            SkipSpace(s) == s && s[0] != ']' && ScanItems(s) == Some(Scan([item] + items, rest))
    decreases item, 1
  {
    TextStartsVisibly(item, "," + more);
    ValueRoundTrip(item, "," + more);
    NextItem(Print(item) + ("," + more), item, more, items, rest);
  }

  lemma {:induction false} ItemsRoundTrip(items: seq<Json>, rest: string)
    requires items != [] && forall i :: 0 <= i < |items| ==> DictTree(items[i])
    ensures var s := PrintItems(items) + ("]" + rest);
            SkipSpace(s) == s && s[0] != ']' && ScanItems(s) == Some(Scan(items, rest))
    decreases items, 0
  {
    if |items| == 1 {
      LastItemRoundTrip(items[0], rest);
      assert items == [items[0]];
    } else {
      var more := PrintItems(items[1..]) + ("]" + rest);
      ItemsRoundTrip(items[1..], rest);
      NextItemRoundTrip(items[0], more, items[1..], rest);
      Regroup(Print(items[0]), ",", PrintItems(items[1..]), "]" + rest);
      assert items == [items[0]] + items[1..];
    }
  }

  lemma MemberRoundTrip(m: Member, rest: string)
    requires DictTree(m.value) && Closes(rest)
    ensures var s := Quote(m.key) + (":" + (Print(m.value) + rest));
            ScanMember(s) == Some(Scan(m, rest)) && SkipSpace(s) == s && s[0] != '}'
    decreases m, 1
  {
    TextStartsVisibly(m.value, rest);
    ValueRoundTrip(m.value, rest);
    ScansMember(m.key, m.value, Print(m.value) + rest, rest);
  }

  lemma LastMemberRoundTrip(m: Member, rest: string)
    requires DictTree(m.value)
    ensures var s := Quote(m.key) + (":" + (Print(m.value) + ("}" + rest)));
            SkipSpace(s) == s && s[0] != '}' && ScanMembers(s) == Some(Scan([m], rest))
    decreases m, 2
  {
    MemberRoundTrip(m, "}" + rest);
    LastMember(Quote(m.key) + (":" + (Print(m.value) + ("}" + rest))), m, rest);
  }

  lemma NextMemberRoundTrip(m: Member, others: string, ms: seq<Member>, rest: string)
    requires DictTree(m.value) && SkipSpace(others) == others && ScanMembers(others) == Some(Scan(ms, rest))
    ensures var s := Quote(m.key) + (":" + (Print(m.value) + ("," + others)));
            SkipSpace(s) == s && s[0] != '}' && ScanMembers(s) == Some(Scan([m] + ms, rest))
    decreases m, 2
  {
    MemberRoundTrip(m, "," + others);
    NextMember(Quote(m.key) + (":" + (Print(m.value) + ("," + others))), m, others, ms, rest);
  }

  lemma {:induction false} MembersRoundTrip(ms: seq<Member>, rest: string)
    requires ms != [] && forall i :: 0 <= i < |ms| ==> DictTree(ms[i].value)
    ensures var s := PrintMembers(ms) + ("}" + rest);
            SkipSpace(s) == s && s[0] != '}' && ScanMembers(s) == Some(Scan(ms, rest))
    decreases ms, 0
  {
    if |ms| == 1 {
      LastMemberRoundTrip(ms[0], rest);
      Regroup(Quote(ms[0].key), ":", Print(ms[0].value), "}" + rest);
      assert ms == [ms[0]];
    } else {
      var others := PrintMembers(ms[1..]) + ("}" + rest);
      MembersRoundTrip(ms[1..], rest);
      NextMemberRoundTrip(ms[0], others, ms[1..], rest);
      RegroupMember(Quote(ms[0].key), Print(ms[0].value), PrintMembers(ms[1..]), "}" + rest);
      assert ms == [ms[0]] + ms[1..];
    }
  }

  lemma RegroupMember(key: string, value: string, others: string, rest: string)
    ensures key + ":" + value + "," + others + rest == key + (":" + (value + ("," + (others + rest))))
  {
    Regroup(value, ",", others, rest);
    Regroup(key, ":", value, "," + (others + rest));
    assert key + ":" + value + "," + others + rest == key + ":" + value + ("," + (others + rest));
  }

  /** Parsing inverts printing on every dict tree, members in any order. */
  lemma ParseInvertsPrint(j: Json)
    requires DictTree(j)
    ensures Parse(Print(j)) == Some(j)
  {
    ValueRoundTrip(j, "");
    TextStartsVisibly(j, "");
    assert Print(j) + "" == Print(j);
  }

  // ----- What a parsed document always is -----

  /** Whatever the text, what Parse returns is a dict tree: duplicate keys are refused at every depth. */
  lemma {:induction false} ScannedIsDictTree(s: string)
    ensures ScanValue(s).Some? ==> DictTree(ScanValue(s).value.value)
    decreases |s|, 0
  {
    if s != "" && s[0] == '[' {
      ScannedItems(SkipSpace(s[1..]));
    } else if s != "" && s[0] == '{' {
      ScannedMembers(SkipSpace(s[1..]));
    }
  }

  lemma {:induction false} ScannedItems(s: string)
    ensures ScanItems(s).Some? ==> forall i :: 0 <= i < |ScanItems(s).value.value| ==>
            DictTree(ScanItems(s).value.value[i])
    decreases |s|, 1
  {
    ScannedIsDictTree(s);
    var first := ScanValue(s);
    if first.Some? {
      var after := SkipSpace(first.value.rest);
      if after != "" && after[0] == ',' {
        ScannedItems(SkipSpace(after[1..]));
      }
    }
  }

  lemma ScannedMember(s: string)
    ensures ScanMember(s).Some? ==> DictTree(ScanMember(s).value.value.value)
    decreases |s|, 1
  {
    if s != "" && ScanString(s[1..]).Some? {
      var after := SkipSpace(ScanString(s[1..]).value.rest);
      if after != "" {
        ScannedIsDictTree(SkipSpace(after[1..]));
      }
    }
  }

  lemma {:induction false} ScannedMembers(s: string)
    ensures ScanMembers(s).Some? ==> forall i :: 0 <= i < |ScanMembers(s).value.value| ==>
            DictTree(ScanMembers(s).value.value[i].value)
    decreases |s|, 2
  {
    ScannedMember(s);
    var first := ScanMember(s);
    if first.Some? {
      var after := SkipSpace(first.value.rest);
      if after != "" && after[0] == ',' {
        ScannedMembers(SkipSpace(after[1..]));
      }
    }
  }

  // ----- Floats -----

  // A fraction or an exponent with at least one digit.
  predicate Fractional(rest: string) {
    || (|rest| > 1 && rest[0] in ".eE" && '0' <= rest[1] <= '9')
    || (|rest| > 2 && rest[0] in "eE" && rest[1] in "+-" && '0' <= rest[2] <= '9')
  }

  /** A run of digits is read as an integer exactly when no fraction or exponent follows, and then the rest is left. */
  lemma IntegerExactlyWhen(n: nat, rest: string)
    requires rest == "" || !Decimal.IsDigit(rest[0])
    ensures ScanNumber(Decimal.OfNat(n) + rest) == if Fractional(rest) then None else Some(Scan(n as int, rest))
  {
    var digits := Decimal.OfNat(n);
    var body := digits + rest;
    DigitRunStops(digits, rest);
    Decimal.NatRoundTrip(n);
    assert body[..|digits|] == digits && body[|digits|..] == rest;
    assert Fractional(rest) <==> FloatTail(rest);
  }
}
