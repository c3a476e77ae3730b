/** The hash chain over decision events, for any hash of any body text. */
module HashChain {
  import opened Wrappers
  import opened DecisionEvents
  import opened Framing

  // body is canonical_event_body_bytes and sha is SHA-256 in the program.
  datatype Digester = Digester(body: Event -> string, sha: string -> string)

  predicate SelfHashed(d: Digester, e: Event) {
    e.sha == d.sha(d.body(e))
  }

  function HeadSha(events: seq<Event>): Option<string> {
    if events == [] then None else Some(events[|events| - 1].sha)
  }

  predicate Links(d: Digester, before: seq<Event>, e: Event) {
    e.sequence == |before| + 1 && e.previousSha == HeadSha(before) && SelfHashed(d, e)
  }

  predicate LinkAt(d: Digester, events: seq<Event>, i: nat)
    requires i < |events|
  {
    && events[i].sequence == i + 1
    && events[i].previousSha == (if i == 0 then None else Some(events[i - 1].sha))
    && SelfHashed(d, events[i])
  }

  predicate ValidChain(d: Digester, events: seq<Event>) {
    forall i :: 0 <= i < |events| ==> LinkAt(d, events, i)
  }

  /** A chain grows exactly by events that link to its head. */
  lemma ChainGrows(d: Digester, events: seq<Event>, e: Event)
    ensures ValidChain(d, events + [e]) <==> ValidChain(d, events) && Links(d, events, e)
  {
    var grown := events + [e];
    assert Links(d, events, e) <==> LinkAt(d, grown, |events|);
    forall i | 0 <= i < |events| ensures LinkAt(d, grown, i) <==> LinkAt(d, events, i) {
    }
  }

  /** verify_hash_chain: false is a HashChainError. */
  method VerifyHashChain(d: Digester, events: seq<Event>) returns (valid: bool)
    ensures valid <==> ValidChain(d, events)
  {
    var previous: Option<Event> := None;
    for i := 0 to |events|
      invariant ValidChain(d, events[..i])
      invariant previous == if i == 0 then None else Some(events[i - 1])
    {
      var event := events[i];
      var expectedPrevious := if previous.None? then None else Some(previous.value.sha);
      if event.sequence != i + 1 || event.previousSha != expectedPrevious || event.sha != d.sha(d.body(event)) {
        assert !LinkAt(d, events, i);
        return false;
      }
      ChainGrows(d, events[..i], event);
      assert events[..i + 1] == events[..i] + [event];
      previous := Some(event);
    }
    assert events[..|events|] == events;
    return true;
  }

  // ----- The head commits to the history -----

  // The body text fixes every field but the event's own hash.
  ghost predicate Determining(d: Digester, valid: Event -> bool) {
    forall a, b :: valid(a) && valid(b) && d.body(a) == d.body(b) ==> a == b.(sha := a.sha)
  }

  // Two events of the histories whose bodies differ and hash alike.
  ghost predicate Collides(d: Digester, a: seq<Event>, b: seq<Event>) {
    exists i, j :: 0 <= i < |a| && 0 <= j < |b| && d.body(a[i]) != d.body(b[j])
        && d.sha(d.body(a[i])) == d.sha(d.body(b[j]))
  }

  lemma LastLinks(d: Digester, events: seq<Event>)
    requires ValidChain(d, events) && events != []
    ensures var n := |events| - 1; ValidChain(d, events[..n]) && Links(d, events[..n], events[n])
  {
    var n := |events| - 1;
    assert events == events[..n] + [events[n]];
    ChainGrows(d, events[..n], events[n]);
  }

  /**
   Two valid histories that end in the same event hash are equal event for event, or two of their own events
   exhibit a hash collision. Nothing is assumed of the hash.
   */
  lemma {:induction false} HeadCommitsToHistory(d: Digester, valid: Event -> bool, a: seq<Event>, b: seq<Event>)
    requires Determining(d, valid) && AllOf(valid, a) && AllOf(valid, b)
    requires ValidChain(d, a) && ValidChain(d, b) && HeadSha(a) == HeadSha(b)
    ensures a == b || Collides(d, a, b)
    decreases |a|
  {
    if a != [] {
      var m, n := |a| - 1, |b| - 1;
      LastLinks(d, a);
      LastLinks(d, b);
      if d.body(a[m]) == d.body(b[n]) {
        HeadCommitsToHistory(d, valid, a[..m], b[..n]);
        assert a == a[..m] + [a[m]] && b == b[..n] + [b[n]];
        if a[..m] != b[..n] {
          CollisionCarries(d, a[..m], b[..n], a, b);
        }
      }
    }
  }

  lemma CollisionCarries(d: Digester, a: seq<Event>, b: seq<Event>, c: seq<Event>, e: seq<Event>)
    requires a <= c && b <= e && Collides(d, a, b)
    ensures Collides(d, c, e)
  {
    var i, j :| 0 <= i < |a| && 0 <= j < |b|
      && d.body(a[i]) != d.body(b[j]) && d.sha(d.body(a[i])) == d.sha(d.body(b[j]));
    assert c[i] == a[i] && e[j] == b[j];
  }
}
