/**
 What every run of the registry keeps: the shape of the rows under one mandate,
 the finality of terminal rows, the hash chain of each audit log, and the fact that
 replaying a log rebuilds the rows it was written beside.
 */
module ConsentHistory {
  import opened Wrappers
  import opened Consent

  // ----- Shape -----

  type Rows = map<Key, State>
  type Pointers = map<MandateId, int>

  ghost predicate RowsKeyed(rows: Rows) {
    forall k :: k in rows ==> rows[k].WellFormed() && rows[k].id == k.id && rows[k].version == k.version
  }

  ghost predicate PointerIsGreatest(rows: Rows, current: Pointers) {
    && (forall k :: k in rows ==> k.id in current && k.version <= current[k.id])
    && (forall id :: id in current ==> Key(id, current[id]) in rows)
  }

  // The pointer's row is never SUPERSEDED, and no other row is ACTIVE.
  ghost predicate OnlyPointerLive(rows: Rows, current: Pointers) {
    forall k :: k in rows && k.id in current ==>
      if k.version == current[k.id] then !rows[k].status.Superseded? else !rows[k].status.Active?
  }

  ghost predicate TimesFollowVersions(rows: Rows) {
    forall k, l :: k in rows && l in rows && k.id == l.id && k.version <= l.version ==>
      rows[k].updatedAt <= rows[l].updatedAt
  }

  // A SUPERSEDED row names the next version that exists.
  ghost predicate SupersededNamesNext(rows: Rows) {
    forall k :: k in rows && rows[k].supersededBy.Some? ==>
      && Key(k.id, rows[k].supersededBy.value) in rows
      && forall l :: l in rows && l.id == k.id && l.version > k.version ==> l.version >= rows[k].supersededBy.value
  }

  ghost predicate ShapedRows(rows: Rows, current: Pointers) {
    && RowsKeyed(rows)
    && PointerIsGreatest(rows, current)
    && OnlyPointerLive(rows, current)
    && TimesFollowVersions(rows)
    && SupersededNamesNext(rows)
  }

  ghost predicate Shaped(r: Registry) {
    ShapedRows(r.states, r.current)
  }

  // A new greatest version of the mandate, no earlier than its pointer's row.
  ghost predicate Newest(rows: Rows, current: Pointers, id: MandateId, version: int, at: Time) {
    id in current ==>
      Key(id, current[id]) in rows && version > current[id] && at >= rows[Key(id, current[id])].updatedAt
  }

  lemma InsertKeepsTimes(rows: Rows, current: Pointers, id: MandateId, version: int, at: Time)
    requires PointerIsGreatest(rows, current) && TimesFollowVersions(rows) && Newest(rows, current, id, version, at)
    ensures TimesFollowVersions(rows[Key(id, version) := ActiveState(id, version, at)])
  {
    forall k | k in rows && k.id == id ensures rows[k].updatedAt <= at && k.version < version {
    }
  }

  lemma InsertKeepsNames(rows: Rows, current: Pointers, id: MandateId, version: int, at: Time)
    requires PointerIsGreatest(rows, current) && SupersededNamesNext(rows) && Newest(rows, current, id, version, at)
    ensures SupersededNamesNext(rows[Key(id, version) := ActiveState(id, version, at)])
  {
    var rows' := rows[Key(id, version) := ActiveState(id, version, at)];
    forall k | k in rows' && rows'[k].supersededBy.Some?
      ensures Key(k.id, rows'[k].supersededBy.value) in rows'
      ensures forall l :: l in rows' && l.id == k.id && l.version > k.version ==>
              l.version >= rows'[k].supersededBy.value
    {
      assert k in rows && rows[k] == rows'[k];
      assert Key(k.id, rows[k].supersededBy.value) in rows;
    }
  }

  lemma InsertKeepsShape(rows: Rows, current: Pointers, id: MandateId, version: int, at: Time)
    requires ShapedRows(rows, current) && id.Uuid? && version >= 1
    requires id in current ==>
               var row := rows[Key(id, current[id])];
               version > current[id] && !row.status.Active? && at >= row.updatedAt
    ensures ShapedRows(rows[Key(id, version) := ActiveState(id, version, at)], current[id := version])
  {
    InsertKeepsTimes(rows, current, id, version, at);
    InsertKeepsNames(rows, current, id, version, at);
  }

  lemma RetireKeepsTimes(rows: Rows, current: Pointers, p: Key, row: State)
    requires PointerIsGreatest(rows, current) && TimesFollowVersions(rows) && p in rows && current[p.id] == p.version
    requires row.updatedAt >= rows[p].updatedAt
    ensures TimesFollowVersions(rows[p := row])
  {
    forall k | k in rows && k.id == p.id ensures rows[k].updatedAt <= rows[p].updatedAt {
    }
  }

  lemma RevokeKeepsNames(rows: Rows, p: Key, row: State)
    requires SupersededNamesNext(rows) && p in rows && row.supersededBy.None?
    ensures SupersededNamesNext(rows[p := row])
  {
    var rows' := rows[p := row];
    forall k | k in rows' && rows'[k].supersededBy.Some?
      ensures Key(k.id, rows'[k].supersededBy.value) in rows'
      ensures forall l :: l in rows' && l.id == k.id && l.version > k.version ==>
              l.version >= rows'[k].supersededBy.value
    {
      assert k in rows && rows[k] == rows'[k];
    }
  }

  lemma RevokeKeepsLive(rows: Rows, current: Pointers, p: Key, row: State)
    requires OnlyPointerLive(rows, current) && p.id in current && p.version == current[p.id] && row.status.Revoked?
    ensures OnlyPointerLive(rows[p := row], current)
  {
  }

  // Replacing the pointer's ACTIVE row by a terminal one, later in time.
  lemma RetireRow(rows: Rows, current: Pointers, id: MandateId, row: State)
    requires ShapedRows(rows, current) && id in current
    requires row.WellFormed() && row.id == id && row.version == current[id]
    requires rows[Key(id, current[id])].status.Active? && !row.status.Active?
    requires row.updatedAt >= rows[Key(id, current[id])].updatedAt
    ensures RowsKeyed(rows[Key(id, row.version) := row])
    ensures PointerIsGreatest(rows[Key(id, row.version) := row], current)
    ensures TimesFollowVersions(rows[Key(id, row.version) := row])
    ensures row.status.Revoked? ==> ShapedRows(rows[Key(id, row.version) := row], current)
  {
    RetireKeepsTimes(rows, current, Key(id, row.version), row);
    if row.status.Revoked? {
      RevokeKeepsNames(rows, Key(id, row.version), row);
      RevokeKeepsLive(rows, current, Key(id, row.version), row);
    }
  }

  lemma RetimeKeepsTimes(rows: Rows, k: Key, row: State)
    requires TimesFollowVersions(rows) && k in rows && row.updatedAt == rows[k].updatedAt
    ensures TimesFollowVersions(rows[k := row])
  {
    var rows' := rows[k := row];
    forall x, y | x in rows' && y in rows' && x.id == y.id && x.version <= y.version
      ensures rows'[x].updatedAt <= rows'[y].updatedAt
    {
      assert rows[x].updatedAt <= rows[y].updatedAt;
    }
  }

  lemma NameKeepsNames(rows: Rows, k: Key, row: State)
    requires SupersededNamesNext(rows) && k in rows
    requires row.supersededBy.Some? && Key(k.id, row.supersededBy.value) in rows
    requires forall l :: l in rows && l.id == k.id && l.version > k.version ==> l.version == row.supersededBy.value
    ensures SupersededNamesNext(rows[k := row])
  {
    var rows' := rows[k := row];
    forall x | x in rows' && rows'[x].supersededBy.Some?
      ensures Key(x.id, rows'[x].supersededBy.value) in rows'
      ensures forall l :: l in rows' && l.id == x.id && l.version > x.version ==>
              l.version >= rows'[x].supersededBy.value
    {
      assert x == k || rows[x] == rows'[x];
    }
  }

  lemma TerminalKeepsLive(rows: Rows, current: Pointers, k: Key, row: State)
    requires OnlyPointerLive(rows, current) && k in rows && !row.status.Active? && k.id in current
             && k.version != current[k.id]
    ensures OnlyPointerLive(rows[k := row], current)
  {
  }

  lemma NameKeepsKeys(rows: Rows, current: Pointers, k: Key, row: State)
    requires RowsKeyed(rows) && PointerIsGreatest(rows, current) && k in rows
    requires row.WellFormed() && row.id == k.id && row.version == k.version
    ensures RowsKeyed(rows[k := row]) && PointerIsGreatest(rows[k := row], current)
  {
  }

  // A terminal row may name its successor instead of a revocation time.
  lemma NameSuccessor(rows: Rows, current: Pointers, k: Key, row: State)
    requires ShapedRows(rows, current) && k in rows && !rows[k].status.Active?
    requires row.WellFormed() && row.status.Superseded? && row.id == k.id && row.version == k.version
    requires row.updatedAt == rows[k].updatedAt
    requires k.version < current[k.id] == row.supersededBy.value
    requires forall l :: l in rows && l.id == k.id && l.version > k.version ==> l.version == current[k.id]
    ensures ShapedRows(rows[k := row], current)
  {
    NameKeepsKeys(rows, current, k, row);
    RetimeKeepsTimes(rows, k, row);
    assert Key(k.id, current[k.id]) in rows;
    NameKeepsNames(rows, k, row);
    TerminalKeepsLive(rows, current, k, row);
  }

  lemma LastWriteWins(rows: Rows, p: Key, first: State, q: Key, other: State, last: State)
    requires p != q
    ensures rows[p := first][q := other][p := last] == rows[p := last][q := other]
  {
  }

  lemma SupersedeKeepsShape(rows: Rows, current: Pointers, id: MandateId, next: int, at: Time)
    requires ShapedRows(rows, current) && id in current
    requires var row := rows[Key(id, current[id])]; row.status.Active? && next > row.version && at >= row.updatedAt
    ensures var row := rows[Key(id, current[id])];
            var retired := row.(status := Superseded, updatedAt := at, supersededBy := Some(next));
            ShapedRows(rows[Key(id, current[id]) := retired][Key(id, next) := ActiveState(id, next, at)],
                current[id := next])
  {
    var p := Key(id, current[id]);
    var revoked := rows[p].(status := Revoked, updatedAt := at, revokedAt := Some(at));
    var retired := rows[p].(status := Superseded, updatedAt := at, supersededBy := Some(next));
    var state := ActiveState(id, next, at);
    RetireRow(rows, current, id, revoked);
    InsertKeepsShape(rows[p := revoked], current, id, next, at);
    NameSuccessor(rows[p := revoked][Key(id, next) := state], current[id := next], p, retired);
    LastWriteWins(rows, p, revoked, Key(id, next), state, retired);
  }

  lemma RegisterKeepsShape(hash: EventHash, r: Registry, id: MandateId, version: int, at: Time)
    requires Shaped(r)
    ensures Shaped(ApplyRegister(hash, r, id, version, at).0)
  {
    var r' := ApplyRegister(hash, r, id, version, at).0;
    if r' != r {
      InsertKeepsShape(r.states, r.current, id, version, at);
    }
  }

  lemma RevokeKeepsShape(hash: EventHash, r: Registry, id: MandateId, version: int, at: Time)
    requires Shaped(r)
    ensures Shaped(ApplyRevoke(hash, r, id, version, at).0)
  {
    var r' := ApplyRevoke(hash, r, id, version, at).0;
    if r' != r {
      RetireRow(r.states, r.current, id, r'.states[Key(id, version)]);
    }
  }

  lemma ReplaceKeepsShape(hash: EventHash, r: Registry, id: MandateId, version: int, next: int, at: Time)
    requires Shaped(r)
    ensures Shaped(ApplySupersede(hash, r, id, version, next, at).0)
  {
    var r' := ApplySupersede(hash, r, id, version, next, at).0;
    if r' != r {
      SupersedeKeepsShape(r.states, r.current, id, next, at);
    }
  }

  /** Every call keeps the shape. */
  lemma ApplyKeepsShape(hash: EventHash, r: Registry, op: Op)
    requires Shaped(r)
    ensures Shaped(Apply(hash, r, op).0)
  {
    match op
    case RegisterActive(id, version, at) => RegisterKeepsShape(hash, r, id, version, at);
    case Revoke(id, version, at) => RevokeKeepsShape(hash, r, id, version, at);
    case Supersede(id, version, next, at) => ReplaceKeepsShape(hash, r, id, version, next, at);
    case RecordRefusal(_, _, _, _, _) =>
  }

  lemma RegisterKeepsTerminal(hash: EventHash, r: Registry, id: MandateId, version: int, at: Time, k: Key)
    requires PointerIsGreatest(r.states, r.current) && RowsKeyed(r.states) && k in r.states
             && !r.states[k].status.Active?
    ensures var r' := ApplyRegister(hash, r, id, version, at).0; k in r'.states && r'.states[k] == r.states[k]
  {
    assert k.version <= r.current[k.id] && Key(k.id, r.current[k.id]) in r.states;
  }

  lemma RevokeKeepsTerminal(hash: EventHash, r: Registry, id: MandateId, version: int, at: Time, k: Key)
    requires RowsKeyed(r.states) && k in r.states && !r.states[k].status.Active?
    ensures var r' := ApplyRevoke(hash, r, id, version, at).0; k in r'.states && r'.states[k] == r.states[k]
  {
  }

  lemma SupersedeKeepsTerminal(hash: EventHash, r: Registry, id: MandateId, version: int, next: int, at: Time, k: Key)
    requires PointerIsGreatest(r.states, r.current) && RowsKeyed(r.states) && k in r.states
             && !r.states[k].status.Active?
    ensures var r' := ApplySupersede(hash, r, id, version, next, at).0; k in r'.states && r'.states[k] == r.states[k]
  {
    assert k.version <= r.current[k.id] && Key(k.id, r.current[k.id]) in r.states;
  }

  /** No call changes or removes a terminal row. */
  lemma TerminalRowsAreFinal(hash: EventHash, r: Registry, op: Op, k: Key)
    requires Shaped(r)
    requires k in r.states && !r.states[k].status.Active?
    ensures k in Apply(hash, r, op).0.states && Apply(hash, r, op).0.states[k] == r.states[k]
  {
    match op
    case RegisterActive(id, version, at) => RegisterKeepsTerminal(hash, r, id, version, at, k);
    case Revoke(id, version, at) => RevokeKeepsTerminal(hash, r, id, version, at, k);
    case Supersede(id, version, next, at) => SupersedeKeepsTerminal(hash, r, id, version, next, at, k);
    case RecordRefusal(_, _, _, _, _) =>
  }

  lemma LastOfBoth(before: seq<Op>, after: seq<Op>)
    requires after != []
    ensures var all := before + after;
            all[..|all| - 1] == before + after[..|after| - 1] && all[|all| - 1] == after[|after| - 1]
  {
  }

  lemma RunEnds(hash: EventHash, ops: seq<Op>, init: seq<Op>, last: Op)
    requires ops != [] && ops[..|ops| - 1] == init && ops[|ops| - 1] == last
    ensures Run(hash, ops) == Apply(hash, Run(hash, init), last).0
  {
  }

  lemma RunExtends(hash: EventHash, before: seq<Op>, after: seq<Op>)
    requires after != []
    ensures var n := |after| - 1; Run(hash, before + after) == Apply(hash, Run(hash, before + after[..n]), after[n]).0
  {
    LastOfBoth(before, after);
    RunEnds(hash, before + after, before + after[..|after| - 1], after[|after| - 1]);
  }

  /** Over any continuation of a run a terminal row stays as it is: no version is ever reactivated. */
  lemma {:induction false} TerminalForever(hash: EventHash, before: seq<Op>, after: seq<Op>, k: Key)
    requires var r := Run(hash, before); k in r.states && !r.states[k].status.Active?
    ensures var r := Run(hash, before); var r' := Run(hash, before + after);
            Shaped(r) && k in r'.states && r'.states[k] == r.states[k]
    decreases |after|
  {
    ReachableIsShaped(hash, before);
    if after == [] {
      assert before + after == before;
    } else {
      var init := after[..|after| - 1];
      TerminalForever(hash, before, init, k);
      ReachableIsShaped(hash, before + init);
      RunExtends(hash, before, after);
      TerminalRowsAreFinal(hash, Run(hash, before + init), after[|after| - 1], k);
    }
  }

  // ----- Hash chain of one log -----

  ghost predicate ChainedLog(hash: EventHash, id: MandateId, log: seq<Event>) {
    && (forall i :: 0 <= i < |log| ==> log[i].body.entry.id == id)
    && ValidChain(hash, log)
  }

  ghost predicate Chained(hash: EventHash, r: Registry) {
    forall id :: id in r.audit ==> id.Uuid? && ChainedLog(hash, id, r.audit[id])
  }

  lemma ChainAppend(hash: EventHash, id: MandateId, log: seq<Event>, entry: Entry)
    requires ChainedLog(hash, id, log) && entry.id == id
    ensures ChainedLog(hash, id, Append(hash, log, entry))
  {
    var longer := Append(hash, log, entry);
    forall i | 0 <= i < |longer| ensures ValidLink(hash, longer, i) {
      if i < |log| {
        assert ValidLink(hash, log, i);
      } else if i == 0 {
        assert log == [];
      } else {
        assert longer[i - 1] == log[|log| - 1];
      }
    }
  }

  lemma ApplyKeepsChain(hash: EventHash, r: Registry, op: Op)
    requires Chained(hash, r)
    ensures Chained(hash, Apply(hash, r, op).0)
  {
    var r' := Apply(hash, r, op).0;
    var log := Log(r, op.id);
    assert ChainedLog(hash, op.id, log);
    if r' != r {
      match op {
        case RegisterActive(id, version, at) =>
          ChainAppend(hash, id, log, RegistrationEntry(id, version, StatusOf(Current(r, id)), at,
              "TRUSTED_SERVER_REGISTRATION"));
        case Revoke(id, version, at) =>
          ChainAppend(hash, id, log, RevocationEntry(id, version, at));
        case Supersede(id, version, next, at) =>
          var retirement := SupersessionEntry(id, version, next, at);
          ChainAppend(hash, id, log, retirement);
          ChainAppend(hash, id, Append(hash, log, retirement),
              RegistrationEntry(id, next, Some(Superseded), at, SuccessorReason(version)));
        case RecordRefusal(id, version, at, reason, evidence) =>
          ChainAppend(hash, id, log, RefusalEntry(id, version, StatusOf(Current(r, id)), at, reason, evidence));
      }
    }
  }

  /** The last hash of a valid log commits to all of it: logs with one head are the same log. */
  lemma {:induction false} HeadCommitsToLog(hash: EventHash, id: MandateId, a: seq<Event>, b: seq<Event>)
    requires CollisionFree(hash) && id.Uuid?
    requires ChainedLog(hash, id, a) && ChainedLog(hash, id, b)
    requires a != [] && b != [] && a[|a| - 1].sha == b[|b| - 1].sha
    ensures a == b
  {
    var i, j := |a| - 1, |b| - 1;
    assert ValidLink(hash, a, i) && ValidLink(hash, b, j);
    assert a[i].body == b[j].body;
    if i > 0 {
      forall k | 0 <= k < i ensures ValidLink(hash, a[..i], k) && ValidLink(hash, b[..j], k) {
        assert ValidLink(hash, a, k) && ValidLink(hash, b, k);
      }
      HeadCommitsToLog(hash, id, a[..i], b[..j]);
      assert a == a[..i] + [a[i]] && b == b[..j] + [b[j]];
    }
  }

  // ----- Replay -----

  // What a reader knows after replaying a log: rows by version, and the current version.
  datatype Replayed = Replayed(rows: map<int, State>, pointer: Option<int>)
  {
    function Status(): Option<Status> {
      if pointer.Some? && pointer.value in rows then Some(rows[pointer.value].status) else None
    }
  }

  const NOTHING_REPLAYED := Replayed(map[], None)

  // A superseded row learns its successor from the registration that follows it.
  function ReplayStep(seen: Replayed, e: Event): Replayed {
    var entry := e.body.entry;
    match entry.kind
    case ExecutionRefused => seen
    case MandateRevoked =>
      seen.(rows := seen.rows[entry.version :=
        State(entry.id, entry.version, Revoked, entry.recordedAt, Some(entry.recordedAt), None)])
    case MandateSuperseded =>
      seen.(rows := seen.rows[entry.version :=
        State(entry.id, entry.version, Superseded, entry.recordedAt, None, None)])
    case RegisteredActive =>
      var rows :=
        if seen.Status() == Some(Superseded)
        then seen.rows[seen.pointer.value := seen.rows[seen.pointer.value].(supersededBy := Some(entry.version))]
        else seen.rows;
      Replayed(rows[entry.version := ActiveState(entry.id, entry.version, entry.recordedAt)], Some(entry.version))
  }

  function Replay(log: seq<Event>): Replayed {
    if log == [] then NOTHING_REPLAYED else ReplayStep(Replay(log[..|log| - 1]), log[|log| - 1])
  }

  // The statuses an event records are those the replay has just before and just after it.
  ghost predicate StatusesMatchReplay(log: seq<Event>) {
    forall i :: 0 <= i < |log| ==>
      && log[i].body.entry.previousStatus == Replay(log[..i]).Status()
      && log[i].body.entry.currentStatus == Replay(log[..i + 1]).Status()
  }

  ghost predicate ReplayMatches(r: Registry, id: MandateId) {
    var seen := Replay(Log(r, id));
    && seen.pointer == (if id in r.current then Some(r.current[id]) else None)
    && (forall v :: v in seen.rows <==> Key(id, v) in r.states)
    && (forall v :: v in seen.rows ==> seen.rows[v] == r.states[Key(id, v)])
    && StatusesMatchReplay(Log(r, id))
  }

  ghost predicate Replays(r: Registry) {
    forall id :: ReplayMatches(r, id)
  }

  lemma ReplayAppend(hash: EventHash, log: seq<Event>, entry: Entry)
    requires StatusesMatchReplay(log)
    requires entry.previousStatus == Replay(log).Status()
    requires entry.currentStatus == ReplayStep(Replay(log), NextEvent(hash, log, entry)).Status()
    ensures Replay(Append(hash, log, entry)) == ReplayStep(Replay(log), NextEvent(hash, log, entry))
    ensures StatusesMatchReplay(Append(hash, log, entry))
  {
    var longer := Append(hash, log, entry);
    assert longer[..|log|] == log;
    assert longer[..|log| + 1] == longer;
    forall i | 0 <= i < |longer|
      ensures longer[i].body.entry.previousStatus == Replay(longer[..i]).Status()
      ensures longer[i].body.entry.currentStatus == Replay(longer[..i + 1]).Status()
    {
      if i < |log| {
        assert longer[..i] == log[..i] && longer[..i + 1] == log[..i + 1];
      }
    }
  }

  lemma RegisterReplays(hash: EventHash, r: Registry, id: MandateId, version: int, at: Time)
    requires Shaped(r) && ReplayMatches(r, id)
    ensures ReplayMatches(ApplyRegister(hash, r, id, version, at).0, id)
  {
    var r' := ApplyRegister(hash, r, id, version, at).0;
    if r' != r {
      var entry := RegistrationEntry(id, version, StatusOf(Current(r, id)), at, "TRUSTED_SERVER_REGISTRATION");
      ReplayAppend(hash, Log(r, id), entry);
    }
  }

  lemma RevokeReplays(hash: EventHash, r: Registry, id: MandateId, version: int, at: Time)
    requires Shaped(r) && ReplayMatches(r, id)
    ensures ReplayMatches(ApplyRevoke(hash, r, id, version, at).0, id)
  {
    var r' := ApplyRevoke(hash, r, id, version, at).0;
    if r' != r {
      assert RowsKeyed(r.states) && Key(id, version) in r.states;
      ReplayAppend(hash, Log(r, id), RevocationEntry(id, version, at));
    }
  }

  lemma SupersessionReplayed(hash: EventHash, log: seq<Event>, id: MandateId, version: int, next: int, at: Time)
    requires StatusesMatchReplay(log)
    requires var seen := Replay(log); seen.pointer == Some(version) && seen.Status() == Some(Active)
    ensures var entry := RegistrationEntry(id, next, Some(Superseded), at, SuccessorReason(version));
            var log' := Append(hash, Append(hash, log, SupersessionEntry(id, version, next, at)), entry);
            && StatusesMatchReplay(log')
            && Replay(log') == Replayed(
                 Replay(log).rows[version := State(id, version, Superseded, at, None, Some(next))]
                                 [next := ActiveState(id, next, at)],
                 Some(next))
  {
    var retirement := SupersessionEntry(id, version, next, at);
    var registration := RegistrationEntry(id, next, Some(Superseded), at, SuccessorReason(version));
    var mid := ReplayStep(Replay(log), NextEvent(hash, log, retirement));
    ReplayAppend(hash, log, retirement);
    var longer := Append(hash, log, retirement);
    var end := ReplayStep(mid, NextEvent(hash, longer, registration));
    var row := State(id, version, Superseded, at, None, Some(next));
    assert mid.rows[version := row] == Replay(log).rows[version := row];
    ReplayAppend(hash, longer, registration);
  }

  lemma SupersedeReplays(hash: EventHash, r: Registry, id: MandateId, version: int, next: int, at: Time)
    requires Shaped(r) && ReplayMatches(r, id)
    ensures ReplayMatches(ApplySupersede(hash, r, id, version, next, at).0, id)
  {
    var r' := ApplySupersede(hash, r, id, version, next, at).0;
    if r' != r {
      assert RowsKeyed(r.states) && Key(id, version) in r.states;
      SupersessionReplayed(hash, Log(r, id), id, version, next, at);
      SupersededRows(r, r', id, version, next, at);
    }
  }

  lemma SupersededRows(r: Registry, r': Registry, id: MandateId, version: int, next: int, at: Time)
    requires Shaped(r) && ReplayMatches(r, id)
    requires id in r.current && r.current[id] == version && r.states[Key(id, version)].status.Active?
    requires var row := r.states[Key(id, version)];
             var retired := row.(status := Superseded, updatedAt := at, supersededBy := Some(next));
             r'.states == r.states[Key(id, version) := retired]
                                  [Key(id, next) := ActiveState(id, next, at)]
    ensures var retired := State(id, version, Superseded, at, None, Some(next));
            var rows := Replay(Log(r, id)).rows[version := retired][next := ActiveState(id, next, at)];
            forall v :: (v in rows <==> Key(id, v) in r'.states) && (v in rows ==> rows[v] == r'.states[Key(id, v)])
  {
    assert RowsKeyed(r.states) && Key(id, version) in r.states;
  }

  lemma RefusalReplays(hash: EventHash, r: Registry, id: MandateId, version: int, at: Time, reason: string,
                       evidence: Evidence)
    requires Shaped(r) && ReplayMatches(r, id)
    ensures ReplayMatches(ApplyRefusal(hash, r, id, version, at, reason, evidence).0, id)
  {
    var entry := RefusalEntry(id, version, StatusOf(Current(r, id)), at, reason, evidence);
    RefusalSeesStatus(r, id);
    assert ReplayStep(Replay(Log(r, id)), NextEvent(hash, Log(r, id), entry)) == Replay(Log(r, id));
    ReplayAppend(hash, Log(r, id), entry);
  }

  lemma RefusalSeesStatus(r: Registry, id: MandateId)
    requires ReplayMatches(r, id)
    ensures Replay(Log(r, id)).Status() == StatusOf(Current(r, id))
  {
  }

  lemma ApplyKeepsReplay(hash: EventHash, r: Registry, op: Op)
    requires Shaped(r) && Replays(r)
    ensures Replays(Apply(hash, r, op).0)
  {
    var r' := Apply(hash, r, op).0;
    assert ReplayMatches(r, op.id);
    match op {
      case RegisterActive(id, version, at) => RegisterReplays(hash, r, id, version, at);
      case Revoke(id, version, at) => RevokeReplays(hash, r, id, version, at);
      case Supersede(id, version, next, at) => SupersedeReplays(hash, r, id, version, next, at);
      case RecordRefusal(id, version, at, reason, evidence) =>
        RefusalReplays(hash, r, id, version, at, reason, evidence);
    }
    forall id | id != op.id ensures ReplayMatches(r', id) {
      OtherMandatesUntouched(hash, r, op, id);
      assert ReplayMatches(r, id);
    }
  }

  lemma OtherMandatesUntouched(hash: EventHash, r: Registry, op: Op, id: MandateId)
    requires id != op.id
    ensures var r' := Apply(hash, r, op).0;
            && Log(r', id) == Log(r, id)
            && (id in r'.current <==> id in r.current)
            && (id in r.current ==> r'.current[id] == r.current[id])
            && (forall v :: Key(id, v) in r'.states <==> Key(id, v) in r.states)
            && (forall v :: Key(id, v) in r.states ==> r'.states[Key(id, v)] == r.states[Key(id, v)])
  {
  }

  // ----- Runs -----

  /** Registry shape in every reachable state. */
  lemma {:induction false} ReachableIsShaped(hash: EventHash, ops: seq<Op>)
    ensures Shaped(Run(hash, ops))
  {
    if ops != [] {
      ReachableIsShaped(hash, ops[..|ops| - 1]);
      ApplyKeepsShape(hash, Run(hash, ops[..|ops| - 1]), ops[|ops| - 1]);
    }
  }

  /** Every log the registry writes is a valid chain. */
  lemma {:induction false} ReachableIsChained(hash: EventHash, ops: seq<Op>)
    ensures Chained(hash, Run(hash, ops))
  {
    if ops != [] {
      ReachableIsChained(hash, ops[..|ops| - 1]);
      ApplyKeepsChain(hash, Run(hash, ops[..|ops| - 1]), ops[|ops| - 1]);
    }
  }

  /**
   Replaying a mandate's log from empty rebuilds exactly its rows and pointer, and the statuses
   in every event, refusals included, are the replayed ones around it.
   */
  lemma {:induction false} AuditLogRebuildsState(hash: EventHash, ops: seq<Op>)
    ensures Replays(Run(hash, ops))
  {
    if ops != [] {
      AuditLogRebuildsState(hash, ops[..|ops| - 1]);
      ReachableIsShaped(hash, ops[..|ops| - 1]);
      ApplyKeepsReplay(hash, Run(hash, ops[..|ops| - 1]), ops[|ops| - 1]);
    }
  }
}
