/**
 The append-only JSONL journal: reading accepts exactly the texts that appending can write. The file is a
 text; bytes that are not UTF-8 are not part of this model.
 */
module Journal {
  import opened Wrappers
  import opened Json
  import opened CanonicalJson
  import opened DecisionEvents
  import opened EventText
  import opened Framing
  import opened HashChain

  // What the journal needs from outside: time text both ways and the hash.
  datatype Codec = Codec(render: TimeText, read: TimeReader, sha: string -> string)

  ghost predicate Faithful(codec: Codec) {
    Readable(codec.render, codec.read)
  }

  function Format(codec: Codec): LineFormat<Event> {
    LineFormat(e => RecordText(codec.render, e), line => ReadRecord(codec.render, codec.read, line))
  }

  function Digesting(codec: Codec): Digester {
    Digester(e => BodyText(codec.render, e), codec.sha)
  }

  function Valid(): Event -> bool {
    e => ValidEvent(e)
  }

  /** The text of a history, one line per event. */
  function JournalText(codec: Codec, events: seq<Event>): string {
    TextOf(Format(codec), events)
  }

  ghost predicate ValidHistory(codec: Codec, events: seq<Event>) {
    AllOf(Valid(), events) && ValidChain(Digesting(codec), events)
  }

  lemma EventLinesAreStrict(codec: Codec)
    requires Faithful(codec)
    ensures Strict(Format(codec), Valid())
  {
    var f := Format(codec);
    forall e | ValidEvent(e) ensures OneLine(f.write(e)) && f.read(f.write(e)) == Some(e) {
      RecordTextReadsBack(codec.render, codec.read, e);
    }
  }

  lemma BodiesAreDetermined(codec: Codec)
    requires Faithful(codec)
    ensures Determining(Digesting(codec), Valid())
  {
    forall a, b | ValidEvent(a) && ValidEvent(b) && BodyText(codec.render, a) == BodyText(codec.render, b)
      ensures a == b.(sha := a.sha)
    {
      BodyTextDeterminesBody(codec.render, codec.read, a, b);
    }
  }

  /** DecisionEvent.create: the event it returns carries the hash of its own body. */
  lemma CreatedIsSelfHashed(codec: Codec, e: Event)
    ensures SelfHashed(Digesting(codec), e.(sha := codec.sha(BodyText(codec.render, e))))
  {
    BodyIgnoresSha(codec.render, e, codec.sha(BodyText(codec.render, e)));
  }

  /** read_all on the text of the file; None is a JournalError. */
  function ReadAll(codec: Codec, text: string): Option<seq<Event>> {
    var events := ReadText(Format(codec), text);
    if events.Some? && ValidChain(Digesting(codec), events.value) then events else None
  }

  /** Reading accepts a text exactly when it is the text of a valid history, and returns that history. */
  lemma AcceptsExactlyHistories(codec: Codec, text: string, events: seq<Event>)
    requires Faithful(codec)
    ensures ReadAll(codec, text) == Some(events) <==> ValidHistory(codec, events) && text == JournalText(codec, events)
  {
    EventLinesAreStrict(codec);
    ReadsExactlyTexts(Format(codec), Valid(), text, events);
  }

  /** Appending a linked event to a readable journal is read back as the old history plus the event. */
  lemma AppendThenRead(codec: Codec, text: string, events: seq<Event>, e: Event)
    requires Faithful(codec) && ReadAll(codec, text) == Some(events) && Valid()(e) && Links(Digesting(codec), events, e)
    ensures ReadAll(codec, text + (Format(codec).write(e) + "\n")) == Some(events + [e])
  {
    AcceptsExactlyHistories(codec, text, events);
    TextOfGrown(Format(codec), events, e);
    ChainGrows(Digesting(codec), events, e);
    AcceptsExactlyHistories(codec, text + (Format(codec).write(e) + "\n"), events + [e]);
  }

  /** A truncated journal is refused or read as a prefix of the history, never as anything else. */
  lemma TruncationLosesOnlyTheTail(codec: Codec, text: string, cut: string, events: seq<Event>)
    requires Faithful(codec) && ReadAll(codec, text) == Some(events) && cut <= text
    ensures ReadAll(codec, cut).Some? ==> ReadAll(codec, cut).value <= events
  {
    EventLinesAreStrict(codec);
    if ReadAll(codec, cut).Some? {
      PrefixReadsAsPrefix(Format(codec), Valid(), text, cut);
    }
  }

  /** Two accepted journals whose last events carry one hash are the same text, or exhibit a collision. */
  lemma HeadCommitsToText(codec: Codec, s: string, t: string)
    requires Faithful(codec) && ReadAll(codec, s).Some? && ReadAll(codec, t).Some?
    requires HeadSha(ReadAll(codec, s).value) == HeadSha(ReadAll(codec, t).value)
    ensures s == t || Collides(Digesting(codec), ReadAll(codec, s).value, ReadAll(codec, t).value)
  {
    var a, b := ReadAll(codec, s).value, ReadAll(codec, t).value;
    AcceptsExactlyHistories(codec, s, a);
    AcceptsExactlyHistories(codec, t, b);
    BodiesAreDetermined(codec);
    HeadCommitsToHistory(Digesting(codec), Valid(), a, b);
  }

  // ----- The journal object -----

  datatype JournalError = Unreadable | WrongSequence | WrongLink | WrongHash

  // The duplicate-key hook: None is its ValueError.
  method ObjectWithoutDuplicateKeys(pairs: seq<Member>) returns (result: Option<seq<Member>>)
    ensures result == if DistinctKeys(pairs) then Some(pairs) else None
  {
    var members: seq<Member> := [];
    for i := 0 to |pairs|
      invariant members == pairs[..i] && DistinctKeys(members)
    {
      if exists k :: 0 <= k < |members| && members[k].key == pairs[i].key {
        ghost var k :| 0 <= k < i && members[k].key == pairs[i].key;
        assert pairs[k].key == pairs[i].key;
        return None;
      }
      members := members + [pairs[i]];
    }
    assert pairs[..|pairs|] == pairs;
    return Some(members);
  }

  class DecisionJournal {
    const codec: Codec
    // None until the file exists.
    var file: Option<string>

    constructor (codec: Codec)
      ensures this.codec == codec && file.None?
    {
      this.codec := codec;
      file := None;
    }

    function Content(): string
      reads this
    {
      if file.None? then "" else file.value
    }

    method Read() returns (result: Option<seq<Event>>)
      ensures result == ReadAll(codec, Content())
    {
      if file.None? || file.value == "" {
        return Some([]);
      }
      var raw := file.value;
      if raw[|raw| - 1] != '\n' {
        return None;
      }
      var events := ReadEach(Format(codec), Split(raw[..|raw| - 1]));
      if events.None? {
        return None;
      }
      var valid := VerifyHashChain(Digesting(codec), events.value);
      return if valid then events else None;
    }

    /** Validates the whole file, then writes one line; any refusal leaves the file as it was. */
    method Append(event: Event) returns (error: Option<JournalError>)
      requires Valid()(event) && Faithful(codec)
      modifies this
      ensures var before := ReadAll(codec, old(Content()));
              if before.None? then error == Some(Unreadable)
              else error.None? <==> Links(Digesting(codec), before.value, event)
      ensures error.Some? ==> file == old(file)
      ensures error.None? ==> ReadAll(codec, Content()) == Some(ReadAll(codec, old(Content())).value + [event])
    {
      var existing := Read();
      if existing.None? {
        return Some(Unreadable);
      }
      error := Check(Digesting(codec), existing.value, event);
      if error.Some? {
        return;
      }
      AppendThenRead(codec, Content(), existing.value, event);
      file := Some(Content() + (Format(codec).write(event) + "\n"));
    }
  }

  method Check(d: Digester, existing: seq<Event>, event: Event) returns (error: Option<JournalError>)
    ensures error.None? <==> Links(d, existing, event)
    ensures error != Some(Unreadable)
  {
    if event.sequence != |existing| + 1 {
      return Some(WrongSequence);
    }
    if event.previousSha != HeadSha(existing) {
      return Some(WrongLink);
    }
    return if event.sha == d.sha(d.body(event)) then None else Some(WrongHash);
  }
}
