/** Each ledger row is in flight, left behind by a crash, or accounted for by one call or one refusal event. */
module ProtocolAccounting {
  import opened Wrappers
  import opened Consent
  import opened Capability
  import opened Gate
  import opened Ledger
  import opened Provider
  import opened Executor
  import opened Protocol
  import opened ProtocolInvariants

  // ----- Counting calls -----

  function CallCount(e: Observation, nonce: string): nat {
    if e.CallBegan? && e.input.capability.payload.nonce == nonce then 1 else 0
  }

  /** How many provider calls the log shows for a nonce. */
  function CallsOf(log: seq<Observation>, nonce: string): nat {
    if log == [] then 0 else CallsOf(log[..|log| - 1], nonce) + CallCount(log[|log| - 1], nonce)
  }

  lemma CallsAppend(log: seq<Observation>, e: Observation, nonce: string)
    ensures CallsOf(log + [e], nonce) == CallsOf(log, nonce) + CallCount(e, nonce)
  {
    assert (log + [e])[..|log|] == log;
  }

  // ----- Refusal events -----

  // Event i of the mandate's log carries the nonce: only refusal events do.
  predicate RefusalAt(r: Registry, nonce: string, id: MandateId, i: int) {
    && 0 <= i < |Log(r, id)|
    && Log(r, id)[i].body.entry.evidence.Some?
    && Log(r, id)[i].body.entry.evidence.value.nonce == nonce
  }

  ghost predicate NeverRefused(r: Registry, nonce: string) {
    forall id, i :: !RefusalAt(r, nonce, id, i)
  }

  ghost predicate RefusedOnce(r: Registry, nonce: string) {
    exists id, i :: RefusalAt(r, nonce, id, i) && forall id', i' :: RefusalAt(r, nonce, id', i') ==>
        id' == id && i' == i
  }

  ghost predicate SameRefusals(r: Registry, r': Registry, nonce: string) {
    forall id, i :: RefusalAt(r', nonce, id, i) <==> RefusalAt(r, nonce, id, i)
  }

  lemma SameRefusalsCarry(r: Registry, r': Registry, nonce: string)
    requires SameRefusals(r, r', nonce)
    ensures NeverRefused(r, nonce) ==> NeverRefused(r', nonce)
    ensures RefusedOnce(r, nonce) ==> RefusedOnce(r', nonce)
  {
    if RefusedOnce(r, nonce) {
      var id, i :| RefusalAt(r, nonce, id, i) && forall id', i' :: RefusalAt(r, nonce, id', i') ==>
          id' == id && i' == i;
      assert RefusalAt(r', nonce, id, i);
    }
  }

  // The log grows by events without evidence.
  ghost predicate GrowsPlainly(log: seq<Event>, log': seq<Event>) {
    && |log| <= |log'| && log'[..|log|] == log
    && forall i :: |log| <= i < |log'| ==> log'[i].body.entry.evidence.None?
  }

  lemma PlainGrowth(r: Registry, r': Registry, id: MandateId, nonce: string)
    requires r'.audit == r.audit[id := Log(r', id)] && GrowsPlainly(Log(r, id), Log(r', id))
    ensures SameRefusals(r, r', nonce)
  {
    forall other, i ensures RefusalAt(r', nonce, other, i) <==> RefusalAt(r, nonce, other, i) {
      if other == id && 0 <= i < |Log(r, id)| {
        assert Log(r', id)[i] == Log(r, id)[i];
      }
    }
  }

  lemma AppendsPlainly(hash: EventHash, log: seq<Event>, entry: Entry)
    requires entry.evidence.None?
    ensures GrowsPlainly(log, Append(hash, log, entry))
  {
  }

  lemma AppendsTwicePlainly(hash: EventHash, log: seq<Event>, first: Entry, second: Entry)
    requires first.evidence.None? && second.evidence.None?
    ensures GrowsPlainly(log, Append(hash, Append(hash, log, first), second))
  {
    var mid := Append(hash, log, first);
    assert Append(hash, mid, second)[..|log|] == mid[..|log|];
  }

  /** Registering, revoking and superseding write no refusal event. */
  lemma ConsentChangeRefusesNothing(hash: EventHash, r: Registry, op: Op, nonce: string)
    requires !op.RecordRefusal?
    ensures SameRefusals(r, Apply(hash, r, op).0, nonce)
  {
    var r' := Apply(hash, r, op).0;
    if r' != r {
      match op
      case RegisterActive(id, version, at) =>
        AppendsPlainly(hash, Log(r, id), RegistrationEntry(id, version, StatusOf(Current(r, id)), at,
            "TRUSTED_SERVER_REGISTRATION"));
        PlainGrowth(r, r', id, nonce);
      case Revoke(id, version, at) =>
        AppendsPlainly(hash, Log(r, id), RevocationEntry(id, version, at));
        PlainGrowth(r, r', id, nonce);
      case Supersede(id, version, next, at) =>
        AppendsTwicePlainly(hash, Log(r, id), SupersessionEntry(id, version, next, at),
                            RegistrationEntry(id, next, Some(Superseded), at, SuccessorReason(version)));
        PlainGrowth(r, r', id, nonce);
    }
  }

  lemma RecordAddsOne(hash: EventHash, r: Registry, op: Op, nonce: string)
    requires op.RecordRefusal? && op.id.Uuid? && op.version >= 1
    ensures nonce != op.evidence.nonce ==> SameRefusals(r, Apply(hash, r, op).0, nonce)
    ensures nonce == op.evidence.nonce && NeverRefused(r, nonce) ==> RefusedOnce(Apply(hash, r, op).0, nonce)
  {
    var r' := Apply(hash, r, op).0;
    var log := Log(r, op.id);
    assert Log(r', op.id)[..|log|] == log && |Log(r', op.id)| == |log| + 1;
    forall id, i
      ensures RefusalAt(r', nonce, id, i)
         <==> RefusalAt(r, nonce, id, i) || (nonce == op.evidence.nonce && id == op.id && i == |log|)
    {
      if id == op.id && 0 <= i < |log| {
        assert Log(r', id)[i] == log[i];
      }
    }
    if nonce == op.evidence.nonce && NeverRefused(r, nonce) {
      assert RefusalAt(r', nonce, op.id, |log|);
    }
  }

  // ----- The account of one nonce -----

  predicate Abandons(e: Observation, nonce: string) {
    e.Crashed? && e.midway && e.input.capability.payload.nonce == nonce
  }

  ghost predicate Abandoned(log: seq<Observation>, nonce: string) {
    exists i :: 0 <= i < |log| && Abandons(log[i], nonce)
  }

  predicate Reports(e: Observation, nonce: string, row: LedgerRow) {
    && e.CallReturned? && e.input.capability.payload.nonce == nonce
    && row == SettledRow(e.input.capability.payload.requestSha, e.outcome)
  }

  predicate Returns(e: Observation, nonce: string) {
    e.CallReturned? && e.input.capability.payload.nonce == nonce
  }

  // The client returned for this nonce, and every such return fixes this row.
  ghost predicate Reported(log: seq<Observation>, nonce: string, row: LedgerRow) {
    && (exists i :: 0 <= i < |log| && Reports(log[i], nonce, row))
    && (forall i :: 0 <= i < |log| && Returns(log[i], nonce) ==> Reports(log[i], nonce, row))
  }

  ghost predicate Unreported(log: seq<Observation>, nonce: string) {
    forall i :: 0 <= i < |log| ==> !Returns(log[i], nonce)
  }

  // Refused at the gate: REJECTED, no call, one refusal event.
  ghost predicate RefusedAccount(w: World, nonce: string) {
    && nonce in w.rows && w.rows[nonce].status.Rejected?
    && CallsOf(w.log, nonce) == 0 && Unreported(w.log, nonce)
    && RefusedOnce(w.registry, nonce)
  }

  // Granted: one call, no refusal event, the row its reported outcome leaves.
  ghost predicate CalledAccount(w: World, nonce: string) {
    && nonce in w.rows
    && CallsOf(w.log, nonce) == 1
    && NeverRefused(w.registry, nonce)
    && Reported(w.log, nonce, w.rows[nonce])
  }

  // Left behind by a crash: unsettled, at most one call, its refusal event rolled back.
  ghost predicate AbandonedAccount(w: World, nonce: string) {
    && nonce in w.rows && (w.rows[nonce].status.Reserved?
        || (w.rows[nonce].status.Rejected? && CallsOf(w.log, nonce) == 0))
    && Abandoned(w.log, nonce)
    && CallsOf(w.log, nonce) <= 1
    && NeverRefused(w.registry, nonce)
  }

  ghost predicate UntouchedAccount(w: World, nonce: string) {
    nonce !in w.rows && CallsOf(w.log, nonce) == 0 && Unreported(w.log, nonce) && NeverRefused(w.registry, nonce)
  }

  predicate InFlight(w: World, nonce: string) {
    && w.owner.Some? && w.owner.value in w.executions
    && Midway(w.executions[w.owner.value].phase)
    && w.executions[w.owner.value].Nonce() == nonce
  }

  // The account of the holder's own nonce, by phase.
  ghost predicate FlightAccount(env: Env, w: World, x: Execution) {
    && NeverRefused(w.registry, x.Nonce())
    && CallsOf(w.log, x.Nonce()) == (if x.phase.Calling? || x.phase.Settling? then 1 else 0)
    && (if x.phase.Settling? then Reported(w.log, x.Nonce(), SettledRow(x.RequestSha(), x.phase.outcome))
        else Unreported(w.log, x.Nonce()))
    && (x.phase.Leaving? ==>
          && x.phase.result.Refusal?
          && w.pending == Apply(env.hashEvent, w.registry, RefusalEvent(x.input, x.phase.result.reason)).0)
  }

  ghost predicate Accounted(env: Env, w: World, nonce: string) {
    if InFlight(w, nonce) then FlightAccount(env, w, w.executions[w.owner.value])
    else
      UntouchedAccount(w, nonce) || RefusedAccount(w, nonce) || CalledAccount(w, nonce) || AbandonedAccount(w, nonce)
  }

  // ----- Preservation, one nonce at a time -----

  // The facts other modules prove of every reachable world.
  ghost predicate Sound(env: Env, w: World) {
    GuardExclusive(w) && RowsCommitted(w) && RowHeld(w) && AllJustified(env, w)
  }

  // The observation shows neither a call nor a return for the nonce.
  predicate Silent(e: Observation, nonce: string) {
    CallCount(e, nonce) == 0 && !Returns(e, nonce)
  }

  // The log part of an account survives a step that shows nothing new about its nonce.
  lemma LogCarries(log: seq<Observation>, log': seq<Observation>, nonce: string)
    requires LogGrows(log, log') && (log' != log ==> Silent(log'[|log|], nonce))
    ensures CallsOf(log', nonce) == CallsOf(log, nonce)
    ensures Unreported(log, nonce) ==> Unreported(log', nonce)
    ensures Abandoned(log, nonce) ==> Abandoned(log', nonce)
    ensures forall row :: Reported(log, nonce, row) ==> Reported(log', nonce, row)
  {
    if log' != log {
      var e := log'[|log|];
      assert log' == log + [e];
      CallsAppend(log, e, nonce);
      assert forall i :: 0 <= i < |log| ==> log'[i] == log[i];
      forall row | Reported(log, nonce, row) ensures Reported(log', nonce, row) {
        var i :| 0 <= i < |log| && Reports(log[i], nonce, row);
        assert Reports(log'[i], nonce, row);
      }
      if Abandoned(log, nonce) {
        var i :| 0 <= i < |log| && Abandons(log[i], nonce);
        assert Abandons(log'[i], nonce);
      }
    }
  }

  // A settled or untouched account survives a step that shows nothing new about its nonce.
  lemma AccountCarries(w: World, w': World, nonce: string)
    requires nonce in w'.rows <==> nonce in w.rows
    requires nonce in w.rows ==> w'.rows[nonce] == w.rows[nonce]
    requires LogGrows(w.log, w'.log)
    requires w'.log != w.log ==> Silent(w'.log[|w.log|], nonce)
    requires SameRefusals(w.registry, w'.registry, nonce)
    ensures UntouchedAccount(w, nonce) ==> UntouchedAccount(w', nonce)
    ensures RefusedAccount(w, nonce) ==> RefusedAccount(w', nonce)
    ensures CalledAccount(w, nonce) ==> CalledAccount(w', nonce)
    ensures AbandonedAccount(w, nonce) ==> AbandonedAccount(w', nonce)
    ensures CallsOf(w'.log, nonce) == CallsOf(w.log, nonce)
    ensures NeverRefused(w.registry, nonce) ==> NeverRefused(w'.registry, nonce)
    ensures Unreported(w.log, nonce) ==> Unreported(w'.log, nonce)
    ensures forall row :: Reported(w.log, nonce, row) ==> Reported(w'.log, nonce, row)
  {
    SameRefusalsCarry(w.registry, w'.registry, nonce);
    LogCarries(w.log, w'.log, nonce);
  }

  // The holder neither moves nor, for a holder in mid-flight, loses what its account says.
  lemma FlightCarries(env: Env, w: World, w': World, who: nat)
    requires who in w.executions && who in w'.executions && w'.executions[who] == w.executions[who]
    requires w'.registry == w.registry && w'.pending == w.pending
    requires LogGrows(w.log, w'.log)
    requires w'.log != w.log ==> Silent(w'.log[|w.log|], w.executions[who].Nonce())
    requires FlightAccount(env, w, w.executions[who])
    ensures FlightAccount(env, w', w'.executions[who])
  {
    if w'.log != w.log {
      var x := w.executions[who];
      var e := w'.log[|w.log|];
      assert w'.log == w.log + [e];
      CallsAppend(w.log, e, x.Nonce());
      assert forall i :: 0 <= i < |w.log| ==> w'.log[i] == w.log[i];
      if x.phase.Settling? {
        var row := SettledRow(x.RequestSha(), x.phase.outcome);
        var i :| 0 <= i < |w.log| && Reports(w.log[i], x.Nonce(), row);
        assert Reports(w'.log[i], x.Nonce(), row);
      }
    }
  }

  // A step that is not the holder's: the ledger stands, the log shows no call, consent may change only while nobody
  // holds the guard.
  predicate Bystanding(w: World, step: Step) {
    Actor(step).None? || Actor(step) != w.owner
  }

  lemma BystandingEffect(w: World, step: Step, answer: Answer, nonce: string)
    requires GuardExclusive(w) && RowsCommitted(w) && Bystanding(w, step)
    ensures var w' := Act(w, step, answer);
            && w'.rows == w.rows
            && LogGrows(w.log, w'.log)
            && (w'.log != w.log ==> Silent(w'.log[|w.log|], nonce))
            && (w.owner.Some? ==> w'.owner == w.owner && w'.registry == w.registry && w'.pending == w.pending
                                  && w.owner.value in w'.executions
                                      && w'.executions[w.owner.value] == w.executions[w.owner.value])
            && (w.owner.None? ==> !InFlight(w', nonce))
            && (!step.ChangeConsent? ==> w'.registry == w.registry)
  {
  }

  lemma BystandingAccount(env: Env, w: World, step: Step, answer: Answer, nonce: string)
    requires Sound(env, w) && Bystanding(w, step) && RegistryAnswer(env, w, step, answer) && Accounted(env, w, nonce)
    ensures Accounted(env, Act(w, step, answer), nonce)
  {
    var w' := Act(w, step, answer);
    BystandingEffect(w, step, answer, nonce);
    if InFlight(w, nonce) {
      FlightCarries(env, w, w', w.owner.value);
    } else {
      if step.ChangeConsent? && w'.registry != w.registry {
        ConsentChangeRefusesNothing(env.hashEvent, w.registry, step.op, nonce);
      }
      AccountCarries(w, w', nonce);
    }
  }

  lemma CrashAccount(env: Env, w: World, who: nat, nonce: string)
    requires Sound(env, w) && Stands(w, who) && Accounted(env, w, nonce)
    ensures Accounted(env, Died(w, who), nonce)
  {
    var w' := Died(w, who);
    assert w'.log == w.log + [Crashed(w.executions[who].input, Midway(w.executions[who].phase))];
    CallsAppend(w.log, w'.log[|w.log|], nonce);
    if InFlight(w, nonce) {
      assert Abandons(w'.log[|w.log|], nonce);
    } else {
      AccountCarries(w, w', nonce);
    }
  }

  // Steps of the holder that touch neither ledger, log nor registry and leave it outside its flight.
  lemma QuietAccount(env: Env, w: World, w': World, nonce: string)
    requires w'.rows == w.rows && w'.log == w.log && w'.registry == w.registry
    requires !InFlight(w, nonce) && !InFlight(w', nonce)
    requires Accounted(env, w, nonce)
    ensures Accounted(env, w', nonce)
  {
    AccountCarries(w, w', nonce);
  }

  lemma ReserveAccount(env: Env, w: World, who: nat, next: Phase, nonce: string)
    requires Sound(env, w) && Stands(w, who) && Accounted(env, w, nonce)
    requires w.executions[who].phase.Refusing? || w.executions[who].phase.Granting?
    requires next.Consuming? || next.Holding?
    ensures Accounted(env, Reserving(w, who, next), nonce)
  {
    var w' := Reserving(w, who, next);
    if w.executions[who].Nonce() != nonce || nonce in w.rows {
      AccountCarries(w, w', nonce);
    }
  }

  lemma RejectAccount(env: Env, w: World, who: nat, reason: RefusalReason, nonce: string)
    requires Sound(env, w) && Stands(w, who) && Accounted(env, w, nonce)
    requires w.executions[who].phase == Consuming(reason)
    ensures Accounted(env, Rejecting(w, who, reason), nonce)
  {
    if w.executions[who].Nonce() != nonce {
      AccountCarries(w, Rejecting(w, who, reason), nonce);
    }
  }

  lemma RecordAccount(env: Env, w: World, who: nat, reason: RefusalReason, nonce: string)
    requires Sound(env, w) && Stands(w, who) && Accounted(env, w, nonce)
    requires w.executions[who].phase == Recording(reason)
    ensures var applied := Apply(env.hashEvent, w.pending, RefusalEvent(w.executions[who].input, reason));
            Accounted(env, Recorded(w, who, reason, applied.0, applied.1), nonce)
  {
    var x := w.executions[who];
    assert Justified(env, w.log, x);
    var applied := Apply(env.hashEvent, w.pending, RefusalEvent(x.input, reason));
    var w' := Recorded(w, who, reason, applied.0, applied.1);
    if x.Nonce() != nonce {
      AccountCarries(w, w', nonce);
    }
  }

  lemma CallAccount(env: Env, w: World, who: nat, request: OrderRequest, nonce: string)
    requires Sound(env, w) && Stands(w, who) && Accounted(env, w, nonce)
    requires w.executions[who].phase.Holding?
    ensures Accounted(env, Called(w, who, request), nonce)
  {
    var w' := Called(w, who, request);
    CallsAppend(w.log, w'.log[|w.log|], nonce);
    if w.executions[who].Nonce() != nonce {
      AccountCarries(w, w', nonce);
    }
  }

  lemma ReturnAccount(env: Env, w: World, who: nat, outcome: ClientOutcome, nonce: string)
    requires Sound(env, w) && Stands(w, who) && Accounted(env, w, nonce)
    requires w.executions[who].phase.Calling?
    ensures Accounted(env, CallDone(w, who, outcome), nonce)
  {
    var x := w.executions[who];
    var w' := CallDone(w, who, outcome);
    CallsAppend(w.log, w'.log[|w.log|], nonce);
    if x.Nonce() != nonce {
      AccountCarries(w, w', nonce);
    } else {
      assert Reports(w'.log[|w.log|], nonce, SettledRow(x.RequestSha(), outcome));
    }
  }

  lemma SettleAccount(env: Env, w: World, who: nat, outcome: ClientOutcome, nonce: string)
    requires Sound(env, w) && Stands(w, who) && Accounted(env, w, nonce)
    requires w.executions[who].phase == Settling(outcome)
    ensures Accounted(env, Settled(w, who, outcome), nonce)
  {
    var x := w.executions[who];
    var w' := Settled(w, who, outcome);
    SettledWorld(w, who, outcome);
    if x.Nonce() != nonce {
      AccountCarries(w, w', nonce);
    } else {
      assert InFlight(w, nonce);
    }
  }

  lemma SettledWorld(w: World, who: nat, outcome: ClientOutcome)
    requires Stands(w, who) && RowHeld(w) && w.executions[who].phase == Settling(outcome)
    ensures var x := w.executions[who]; var w' := Settled(w, who, outcome);
            && w'.rows == w.rows[x.Nonce() := SettledRow(x.RequestSha(), outcome)]
            && w'.log == w.log && w'.registry == w.registry && w'.pending == w.pending && w'.owner == w.owner
            && who in w'.executions && w'.executions[who].phase.Leaving? && w'.executions[who].phase.audited
  {
  }

  lemma LeaveAccount(env: Env, w: World, who: nat, nonce: string)
    requires Sound(env, w) && Stands(w, who) && Accounted(env, w, nonce)
    requires w.executions[who].phase.Leaving?
    requires Accounted(env, w, w.executions[who].Nonce())
    ensures Accounted(env, Released(w, who, w.executions[who].phase.result), nonce)
  {
    var x := w.executions[who];
    var w' := Released(w, who, x.phase.result);
    if x.phase.audited {
      assert w'.registry == w.registry;
      QuietAccount(env, w, w', nonce);
    } else {
      assert Justified(env, w.log, x);
      RecordAddsOne(env.hashEvent, w.registry, RefusalEvent(x.input, x.phase.result.reason), nonce);
      if x.Nonce() != nonce {
        AccountCarries(w, w', nonce);
      }
    }
  }

  predicate BeforeTheCall(step: Step) {
    step.Validate? || step.ReserveNonce? || step.RejectRow? || step.RecordEvent?
  }

  lemma ValidateAccount(env: Env, w: World, who: nat, verdict: Verdict, nonce: string)
    requires Sound(env, w) && Stands(w, who) && Accounted(env, w, nonce)
    requires w.executions[who].phase.Entered?
    ensures Accounted(env, Validated(w, who, verdict), nonce)
  {
    QuietAccount(env, w, Validated(w, who, verdict), nonce);
  }

  lemma DecidingAccount(env: Env, w: World, step: Step, answer: Answer, nonce: string)
    requires Sound(env, w) && RegistryAnswer(env, w, step, answer) && Accounted(env, w, nonce)
    requires BeforeTheCall(step) && Stands(w, step.who) && Act(w, step, answer) != w
    ensures Accounted(env, Act(w, step, answer), nonce)
  {
    var x := w.executions[step.who];
    match step
    case Validate(who) => ValidateAccount(env, w, who, answer.verdict, nonce);
    case ReserveNonce(who) =>
      var next := if x.phase.Refusing? then Consuming(x.phase.reason) else Holding;
      assert Act(w, step, answer) == Reserving(w, who, next);
      ReserveAccount(env, w, who, next, nonce);
    case RejectRow(who) => RejectAccount(env, w, who, x.phase.reason, nonce);
    case RecordEvent(who) => RecordAccount(env, w, who, x.phase.reason, nonce);
  }

  lemma CallingAccount(env: Env, w: World, step: Step, answer: Answer, nonce: string)
    requires Sound(env, w) && (forall n :: Accounted(env, w, n))
    requires Actor(step).Some? && !BeforeTheCall(step) && Stands(w, step.who) && Act(w, step, answer) != w
    ensures Accounted(env, Act(w, step, answer), nonce)
  {
    var x := w.executions[step.who];
    assert Accounted(env, w, nonce) && Accounted(env, w, x.Nonce());
    match step
    case BeginCall(who) => CallAccount(env, w, who, answer.request, nonce);
    case ReturnCall(who, _) => ReturnAccount(env, w, who, answer.order, nonce);
    case Settle(who) => SettleAccount(env, w, who, x.phase.outcome, nonce);
    case Leave(who) => LeaveAccount(env, w, who, nonce);
    case Crash(who) => CrashAccount(env, w, who, nonce);
    case _ =>
  }

  lemma HolderActs(w: World, step: Step, answer: Answer)
    requires GuardExclusive(w) && !Bystanding(w, step) && Act(w, step, answer) != w
    ensures Actor(step).Some? && Stands(w, step.who)
  {
  }

  /** Every step keeps every nonce accounted for. */
  lemma AccountStep(env: Env, w: World, step: Step, answer: Answer, nonce: string)
    requires Sound(env, w) && RegistryAnswer(env, w, step, answer)
    requires forall n :: Accounted(env, w, n)
    ensures Accounted(env, Act(w, step, answer), nonce)
  {
    assert Accounted(env, w, nonce);
    if Bystanding(w, step) {
      BystandingAccount(env, w, step, answer, nonce);
    } else if Act(w, step, answer) != w {
      HolderActs(w, step, answer);
      if BeforeTheCall(step) {
        DecidingAccount(env, w, step, answer, nonce);
      } else {
        CallingAccount(env, w, step, answer, nonce);
      }
    }
  }
}
