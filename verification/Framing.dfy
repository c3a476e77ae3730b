/** Newline-terminated records: what a reader of lines accepts, for any strict line format. */
module Framing {
  import opened Wrappers

  datatype LineFormat<!T> = LineFormat(write: T -> string, read: string -> Option<T>)

  predicate OneLine(line: string) {
    '\n' !in line
  }

  // Written lines are single, nonempty and read back; what is read is valid and rewrites to its own line.
  ghost predicate Strict<T(!new)>(f: LineFormat<T>, valid: T -> bool) {
    && (forall e :: valid(e) ==> OneLine(f.write(e)) && f.read(f.write(e)) == Some(e))
    && (forall line :: f.read(line).Some? ==> valid(f.read(line).value) && f.write(f.read(line).value) == line)
  }

  ghost predicate AllOf<T>(valid: T -> bool, records: seq<T>) {
    forall i :: 0 <= i < |records| ==> valid(records[i])
  }

  // ----- Lines -----

  // str.split("\n").
  function Split(s: string): (lines: seq<string>)
    ensures lines != []
  {
    if s == "" then [""]
    else if s[0] == '\n' then [""] + Split(s[1..])
    else
      var others := Split(s[1..]);
      [[s[0]] + others[0]] + others[1..]
  }

  function Terminate(lines: seq<string>): string {
    if lines == [] then "" else lines[0] + "\n" + Terminate(lines[1..])
  }

  lemma {:induction false} SplitLosesNothing(s: string)
    ensures Terminate(Split(s)) == s + "\n"
  {
    if s == "" {
      assert Terminate([""]) == "\n";
    } else {
      var others := Split(s[1..]);
      SplitLosesNothing(s[1..]);
      assert s == [s[0]] + s[1..];
      if s[0] == '\n' {
        assert ([""] + others)[1..] == others;
        assert Terminate(Split(s)) == "\n" + (s[1..] + "\n");
      } else {
        assert Split(s)[1..] == others[1..];
        assert Terminate(Split(s)) == [s[0]] + (others[0] + "\n" + Terminate(others[1..]));
      }
    }
  }

  lemma {:induction false} SplitLast(line: string)
    requires OneLine(line)
    ensures Split(line) == [line]
  {
    if line != "" {
      SplitLast(line[1..]);
      assert line == [line[0]] + line[1..];
    }
  }

  lemma {:induction false} SplitLine(line: string, rest: string)
    requires OneLine(line)
    ensures Split(line + "\n" + rest) == [line] + Split(rest)
  {
    if line == "" {
      assert ("\n" + rest)[1..] == rest;
      assert line + "\n" + rest == "\n" + rest;
    } else {
      var s, others := line + "\n" + rest, [line[1..]] + Split(rest);
      SplitLine(line[1..], rest);
      assert line == [line[0]] + line[1..];
      assert s[1..] == line[1..] + "\n" + rest;
      assert others[1..] == Split(rest);
    }
  }

  // ----- Texts of records -----

  function Lines<T>(f: LineFormat<T>, records: seq<T>): (lines: seq<string>)
    ensures |lines| == |records|
  {
    if records == [] then [] else [f.write(records[0])] + Lines(f, records[1..])
  }

  /** One line per record, each ended by a newline. */
  function TextOf<T>(f: LineFormat<T>, records: seq<T>): string {
    if records == [] then "" else f.write(records[0]) + "\n" + TextOf(f, records[1..])
  }

  function ReadLines<T>(f: LineFormat<T>, lines: seq<string>): Option<seq<T>> {
    if lines == [] then Some([])
    else
      var first, others := f.read(lines[0]), ReadLines(f, lines[1..]);
      if first.None? || others.None? then None else Some([first.value] + others.value)
  }

  lemma {:induction false} ReadLinesGrow<T>(f: LineFormat<T>, lines: seq<string>, line: string)
    ensures ReadLines(f, lines + [line])
            == if ReadLines(f, lines).None? || f.read(line).None? then None
               else Some(ReadLines(f, lines).value + [f.read(line).value])
  {
    if lines == [] {
      assert lines + [line] == [line];
      var nothing: seq<T> := [];
      assert ReadLines(f, [line][1..]) == Some(nothing);
      assert f.read(line).Some? ==> [f.read(line).value] + nothing == nothing + [f.read(line).value];
    } else {
      assert (lines + [line])[1..] == lines[1..] + [line];
      ReadLinesGrow(f, lines[1..], line);
      if ReadLines(f, lines).Some? && f.read(line).Some? {
        assert ReadLines(f, lines + [line]).value == ReadLines(f, lines).value + [f.read(line).value];
      }
    }
  }

  lemma {:induction false} UnreadableLine<T>(f: LineFormat<T>, lines: seq<string>, i: nat)
    requires i < |lines| && f.read(lines[i]).None?
    ensures ReadLines(f, lines).None?
  {
    if i > 0 {
      UnreadableLine(f, lines[1..], i - 1);
    }
  }

  /** The read loop: one record per line, stopping at the first refused line. */
  method ReadEach<T>(f: LineFormat<T>, lines: seq<string>) returns (records: Option<seq<T>>)
    ensures records == ReadLines(f, lines)
  {
    var done: seq<T> := [];
    for i := 0 to |lines|
      invariant ReadLines(f, lines[..i]) == Some(done)
    {
      var record := f.read(lines[i]);
      if record.None? {
        UnreadableLine(f, lines, i);
        return None;
      }
      ReadLinesGrow(f, lines[..i], lines[i]);
      assert lines[..i + 1] == lines[..i] + [lines[i]];
      done := done + [record.value];
    }
    assert lines[..|lines|] == lines;
    return Some(done);
  }

  /** Reads a whole text; a last line without its newline is refused. */
  function ReadText<T>(f: LineFormat<T>, text: string): Option<seq<T>> {
    if text == "" then Some([])
    else if text[|text| - 1] != '\n' then None
    else ReadLines(f, Split(text[..|text| - 1]))
  }

  lemma {:induction false} TextSplits<T(!new)>(f: LineFormat<T>, valid: T -> bool, records: seq<T>)
    requires Strict(f, valid) && AllOf(valid, records) && records != []
    ensures var text := TextOf(f, records);
            |text| > 0 && text[|text| - 1] == '\n' && Split(text[..|text| - 1]) == Lines(f, records)
  {
    var line := f.write(records[0]);
    var text := TextOf(f, records);
    if |records| == 1 {
      assert TextOf(f, records[1..]) == "";
      assert text == line + "\n";
      assert text[..|text| - 1] == line;
      SplitLast(line);
    } else {
      var rest := TextOf(f, records[1..]);
      TextSplits(f, valid, records[1..]);
      assert text == line + "\n" + rest;
      assert text[..|text| - 1] == line + "\n" + rest[..|rest| - 1];
      SplitLine(line, rest[..|rest| - 1]);
    }
  }

  lemma {:induction false} TerminatedLines<T>(f: LineFormat<T>, records: seq<T>)
    ensures Terminate(Lines(f, records)) == TextOf(f, records)
  {
    if records != [] {
      TerminatedLines(f, records[1..]);
      assert Lines(f, records)[1..] == Lines(f, records[1..]);
    }
  }

  lemma {:induction false} LinesReadBack<T(!new)>(f: LineFormat<T>, valid: T -> bool, records: seq<T>)
    requires Strict(f, valid) && AllOf(valid, records)
    ensures ReadLines(f, Lines(f, records)) == Some(records)
  {
    if records != [] {
      LinesReadBack(f, valid, records[1..]);
      assert Lines(f, records)[1..] == Lines(f, records[1..]);
      assert records == [records[0]] + records[1..];
    }
  }

  lemma {:induction false} ReadLinesAreLines<T(!new)>(f: LineFormat<T>, valid: T -> bool, lines: seq<string>)
    requires Strict(f, valid)
    ensures var r := ReadLines(f, lines); r.Some? ==> AllOf(valid, r.value) && Lines(f, r.value) == lines
  {
    if lines != [] && f.read(lines[0]).Some? && ReadLines(f, lines[1..]).Some? {
      ReadLinesAreLines(f, valid, lines[1..]);
      var records := ReadLines(f, lines).value;
      assert records[1..] == ReadLines(f, lines[1..]).value;
      assert lines == [lines[0]] + lines[1..];
    }
  }

  /** A text is accepted exactly when it is the text of valid records, and reads as those records. */
  lemma ReadsExactlyTexts<T(!new)>(f: LineFormat<T>, valid: T -> bool, text: string, records: seq<T>)
    requires Strict(f, valid)
    ensures ReadText(f, text) == Some(records) <==> AllOf(valid, records) && text == TextOf(f, records)
  {
    if ReadText(f, text) == Some(records) && text != "" {
      ReadLinesAreLines(f, valid, Split(text[..|text| - 1]));
      SplitLosesNothing(text[..|text| - 1]);
      TerminatedLines(f, records);
      assert text == text[..|text| - 1] + "\n";
    }
    if AllOf(valid, records) && text == TextOf(f, records) && records != [] {
      TextSplits(f, valid, records);
      LinesReadBack(f, valid, records);
    }
  }

  lemma {:induction false} TextOfGrown<T>(f: LineFormat<T>, records: seq<T>, e: T)
    ensures TextOf(f, records + [e]) == TextOf(f, records) + (f.write(e) + "\n")
  {
    if records == [] {
      assert records + [e] == [e];
      assert [e][1..] == [];
    } else {
      assert (records + [e])[1..] == records[1..] + [e];
      TextOfGrown(f, records[1..], e);
    }
  }

  // ----- Truncation -----

  function NewlineAt(s: string): nat {
    if s == "" || s[0] == '\n' then 0 else 1 + NewlineAt(s[1..])
  }

  lemma {:induction false} FirstNewline(line: string, rest: string)
    requires OneLine(line)
    ensures NewlineAt(line + "\n" + rest) == |line|
  {
    if line != "" {
      assert (line + "\n" + rest)[1..] == line[1..] + "\n" + rest;
      FirstNewline(line[1..], rest);
    } else {
      assert line + "\n" + rest == "\n" + rest;
    }
  }

  lemma SameFirstLine(a: string, s: string, b: string, t: string)
    requires OneLine(a) && OneLine(b) && a + "\n" + s <= b + "\n" + t
    ensures a == b && s <= t
  {
    var x, y := a + "\n" + s, b + "\n" + t;
    var more := y[|x|..];
    assert y == a + "\n" + (s + more);
    FirstNewline(a, s + more);
    FirstNewline(b, t);
    assert a == y[..|a|] && b == y[..|b|];
    assert t == y[|b| + 1..] && s + more == y[|a| + 1..];
  }

  lemma {:induction false} PrefixOfText<T(!new)>(f: LineFormat<T>, valid: T -> bool, a: seq<T>, b: seq<T>)
    requires Strict(f, valid) && AllOf(valid, a) && AllOf(valid, b) && TextOf(f, a) <= TextOf(f, b)
    ensures a <= b
  {
    if a != [] {
      SameFirstLine(f.write(a[0]), TextOf(f, a[1..]), f.write(b[0]), TextOf(f, b[1..]));
      assert f.read(f.write(a[0])) == Some(a[0]) && f.read(f.write(b[0])) == Some(b[0]);
      PrefixOfText(f, valid, a[1..], b[1..]);
      assert a == [a[0]] + a[1..] && b == [b[0]] + b[1..];
    }
  }

  /** A prefix of an accepted text is refused or reads as a prefix of the records. */
  lemma PrefixReadsAsPrefix<T(!new)>(f: LineFormat<T>, valid: T -> bool, text: string, cut: string)
    requires Strict(f, valid) && ReadText(f, text).Some? && ReadText(f, cut).Some? && cut <= text
    ensures ReadText(f, cut).value <= ReadText(f, text).value
  {
    ReadsExactlyTexts(f, valid, text, ReadText(f, text).value);
    ReadsExactlyTexts(f, valid, cut, ReadText(f, cut).value);
    PrefixOfText(f, valid, ReadText(f, cut).value, ReadText(f, text).value);
  }
}
