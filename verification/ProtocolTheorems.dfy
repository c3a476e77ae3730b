/** The guarantees of the execution kernel, over every schedule of any number of callers. */
module ProtocolTheorems {
  import opened Wrappers
  import opened Consent
  import opened ConsentHistory
  import opened ConsentOutcomes
  import opened Capability
  import opened Gate
  import opened Ledger
  import opened Provider
  import opened Executor
  import opened Protocol
  import opened ProtocolInvariants
  import opened ProtocolHistory
  import opened ProtocolAccounting

  ghost predicate Invariant(env: Env, w: World) {
    && Sound(env, w)
    && Shaped(w.registry)
    && ConsentHeld(w)
    && WithdrawnRowsTerminal(w.log, w.registry.states)
    && NoCallAfterWithdrawal(w.log)
    && LogTraced(env, w.log)
    && forall nonce :: Accounted(env, w, nonce)
  }

  lemma SafetyStep(env: Env, w: World, step: Step)
    requires Invariant(env, w)
    ensures var w' := Next(env, w, step);
            Sound(env, w') && Shaped(w'.registry) && ConsentHeld(w')
  {
    var answer := Consult(env, w, step);
    ConsultIsSound(env, w, step);
    GuardStep(w, step, answer);
    if step.RecordEvent? && Stands(w, step.who) && w.executions[step.who].phase.Recording? {
      RefusalIsEventOnly(env, w, step, answer);
    }
    RowsStep(w, step, answer);
    ShapeStep(env, w, step, answer);
    JustifiedStep(env, w, step, answer);
    LiveConsent(env, w, step, answer);
    ConsentHeldStep(w, step, answer);
    RowHeldStep(w, step, answer);
  }

  lemma LiveConsent(env: Env, w: World, step: Step, answer: Answer)
    requires answer == Consult(env, w, step) && GateAnswer(env, w, step, answer)
    ensures ProceedsOnLiveConsent(w, step, answer)
  {
  }

  lemma HistoryStep(env: Env, w: World, step: Step)
    requires Invariant(env, w)
    ensures var w' := Next(env, w, step);
            && WithdrawnRowsTerminal(w'.log, w'.registry.states)
            && NoCallAfterWithdrawal(w'.log)
            && LogTraced(env, w'.log)
            && forall nonce :: Accounted(env, w', nonce)
  {
    var answer := Consult(env, w, step);
    ConsultIsSound(env, w, step);
    WithdrawnStep(env, w, step, answer);
    LateCallStep(w, step, answer);
    TracedStep(env, w, step, answer);
    forall nonce ensures Accounted(env, Act(w, step, answer), nonce) {
      AccountStep(env, w, step, answer, nonce);
    }
  }

  /** Every world a schedule reaches satisfies the invariant. */
  lemma {:induction false} Reachable(env: Env, steps: seq<Step>)
    ensures Invariant(env, After(env, steps))
  {
    if steps != [] {
      var w := After(env, steps[..|steps| - 1]);
      Reachable(env, steps[..|steps| - 1]);
      SafetyStep(env, w, steps[|steps| - 1]);
      HistoryStep(env, w, steps[|steps| - 1]);
    }
  }

  /**
   From the gate's positive decision until the provider call has returned and the row is settled, the
   execution is the only one in the guard and the current row of its mandate is ACTIVE at exactly the
   bound version.
   */
  lemma ConsentHoldsThroughCall(env: Env, steps: seq<Step>, who: nat)
    requires var w := After(env, steps); who in w.executions && Admitted(w.executions[who].phase)
    ensures var w := After(env, steps); var x := w.executions[who];
            && ActiveAt(w.registry, x.Id(), x.BoundVersion())
            && forall other :: other in w.executions && InGuard(w.executions[other].phase) ==> other == who
  {
    Reachable(env, steps);
  }

  /** No provider call begins under a version whose revocation or supersession has committed. */
  lemma NoCallUnderWithdrawnConsent(env: Env, steps: seq<Step>, i: nat, j: nat, op: Op)
    requires var log := After(env, steps).log; i < j < |log| && log[i] == ConsentChanged(op) && log[j].CallBegan?
    requires op.Revoke? || op.Supersede?
    ensures var payload := After(env, steps).log[j].input.capability.payload;
            !(payload.mandateId == op.id && payload.mandateVersion == op.version)
  {
    Reachable(env, steps);
    var log := After(env, steps).log;
    assert Withdraws(log[i], op.id, op.version);
    assert !CallsUnder(log[j], op.id, op.version);
  }

  // The owner may withdraw this version now: revoke it again, or end it while it is ACTIVE at no earlier time.
  predicate MayWithdraw(r: Registry, op: Op) {
    && (op.Revoke? || op.Supersede?)
    && var current := Current(r, op.id);
       && current.Some? && current.value.version == op.version
       && if op.Revoke? then current.value.status.Revoked? || op.at >= current.value.updatedAt
          else current.value.status.Active? && op.next > op.version && op.at >= current.value.updatedAt
  }

  lemma RevocationWorks(hash: EventHash, r: Registry, id: MandateId, version: int, at: Time)
    requires Shaped(r) && MayWithdraw(r, Revoke(id, version, at))
    ensures var (r', answer) := Apply(hash, r, Revoke(id, version, at)); answer.Done? && !ActiveAt(r', id, version)
  {
    CurrentIsPointed(r, id);
    RevokesExactlyWhen(hash, r, id, version, at);
    RevocationLeaves(hash, r, id, version, at);
  }

  lemma SupersessionWorks(hash: EventHash, r: Registry, id: MandateId, version: int, next: int, at: Time)
    requires Shaped(r) && MayWithdraw(r, Supersede(id, version, next, at))
    ensures var (r', answer) := Apply(hash, r, Supersede(id, version, next, at));
            answer.Done? && !ActiveAt(r', id, version) && ActiveAt(r', id, next)
  {
    CurrentIsPointed(r, id);
    SupersedesExactlyWhen(hash, r, id, version, next, at);
    SupersessionLeaves(hash, r, id, version, next, at);
  }

  lemma WithdrawalWorks(hash: EventHash, r: Registry, op: Op)
    requires Shaped(r) && MayWithdraw(r, op)
    ensures var (r', answer) := Apply(hash, r, op);
            answer.Done? && !ActiveAt(r', op.id, op.version) && (op.Supersede? ==> ActiveAt(r', op.id, op.next))
  {
    if op.Revoke? {
      RevocationWorks(hash, r, op.id, op.version, op.at);
    } else {
      SupersessionWorks(hash, r, op.id, op.version, op.next, op.at);
    }
  }

  lemma FreeChangeCommits(env: Env, w: World, op: Op, registry: Registry)
    requires w.owner.None? && !op.RecordRefusal? && Apply(env.hashEvent, w.registry, op).1.Done?
    requires registry == Apply(env.hashEvent, w.registry, op).0
    ensures Next(env, w, ChangeConsent(op))
            == w.(registry := registry, pending := registry, log := w.log + [ConsentChanged(op)])
  {
  }

  /**
   With the guard free, a revocation or supersession that its conditions allow commits at once: the version is no
   longer ACTIVE, a successor is, and the log says so.
   */
  lemma WithdrawalTakesEffect(env: Env, steps: seq<Step>, op: Op)
    requires var w := After(env, steps); w.owner.None? && MayWithdraw(w.registry, op)
    ensures var w, w' := After(env, steps), After(env, steps + [ChangeConsent(op)]);
            && !ActiveAt(w'.registry, op.id, op.version)
            && (op.Supersede? ==> ActiveAt(w'.registry, op.id, op.next))
            && w'.log == w.log + [ConsentChanged(op)] && w'.rows == w.rows && w'.executions == w.executions
  {
    Reachable(env, steps);
    var w := After(env, steps);
    assert (steps + [ChangeConsent(op)])[..|steps|] == steps;
    WithdrawalWorks(env.hashEvent, w.registry, op);
    FreeChangeCommits(env, w, op, Apply(env.hashEvent, w.registry, op).0);
  }

  // A longer run only adds to the log.
  lemma {:induction false} LogOnlyGrows(env: Env, steps: seq<Step>, more: seq<Step>)
    ensures After(env, steps).log <= After(env, steps + more).log
    decreases |more|
  {
    if more == [] {
      assert steps + more == steps;
    } else {
      var most, step := more[..|more| - 1], more[|more| - 1];
      LogOnlyGrows(env, steps, most);
      assert (steps + more)[..|steps + more| - 1] == steps + most;
      var w := After(env, steps + most);
      LogStep(w, step, Consult(env, w, step));
    }
  }

  /**
   Withdrawn is withdrawn: once a permitted revocation or supersession was made with the guard free, the version is
   never ACTIVE again and no provider call begins under it, whatever is issued, presented and scheduled afterwards.
   */
  lemma WithdrawalStopsCalls(env: Env, steps: seq<Step>, op: Op, more: seq<Step>)
    requires var w := After(env, steps); w.owner.None? && MayWithdraw(w.registry, op)
    ensures var w, end := After(env, steps), After(env, steps + [ChangeConsent(op)] + more);
            && !ActiveAt(end.registry, op.id, op.version)
            && |w.log| <= |end.log|
            && forall j :: |w.log| <= j < |end.log| && end.log[j].CallBegan? ==>
                 var payload := end.log[j].input.capability.payload;
                 !(payload.mandateId == op.id && payload.mandateVersion == op.version)
  {
    WithdrawalTakesEffect(env, steps, op);
    LogOnlyGrows(env, steps + [ChangeConsent(op)], more);
    Reachable(env, steps + [ChangeConsent(op)] + more);
    var w, end := After(env, steps), After(env, steps + [ChangeConsent(op)] + more);
    assert end.log[|w.log|] == ConsentChanged(op);
    WithdrawnStays(end.registry, end.log, |w.log|, op);
  }

  lemma WithdrawnStays(r: Registry, log: seq<Observation>, i: nat, op: Op)
    requires Shaped(r) && WithdrawnRowsTerminal(log, r.states) && NoCallAfterWithdrawal(log)
    requires i < |log| && log[i] == ConsentChanged(op) && (op.Revoke? || op.Supersede?)
    ensures !ActiveAt(r, op.id, op.version)
    ensures forall j :: i <= j < |log| && log[j].CallBegan? ==>
              var payload := log[j].input.capability.payload;
              !(payload.mandateId == op.id && payload.mandateVersion == op.version)
  {
    assert Withdraws(log[i], op.id, op.version);
    CurrentIsPointed(r, op.id);
    forall j | i <= j < |log| && log[j].CallBegan?
      ensures var payload := log[j].input.capability.payload;
              !(payload.mandateId == op.id && payload.mandateVersion == op.version)
    {
      assert !CallsUnder(log[j], op.id, op.version);
    }
  }

  /**
   While an execution holds the guard, consent does not change and other executions can only give up, with nothing
   written.
   */
  lemma BusyChangesNothing(env: Env, w: World, step: Step)
    requires w.owner.Some? && (step.ChangeConsent? || step.GiveUp? || step.Acquire?)
    ensures var w' := Next(env, w, step);
            w'.registry == w.registry && w'.pending == w.pending && w'.rows == w.rows && w'.log == w.log
                && w'.owner == w.owner
    ensures !step.GiveUp? ==> Next(env, w, step) == w
  {
  }

  /** However often and in whatever order capabilities are presented, a nonce gets at most one provider call. */
  lemma NonceCalledAtMostOnce(env: Env, steps: seq<Step>, nonce: string)
    ensures CallsOf(After(env, steps).log, nonce) <= 1
  {
    Reachable(env, steps);
    assert Accounted(env, After(env, steps), nonce);
  }

  lemma RowsEvolveStep(w: World, step: Step, answer: Answer)
    ensures Evolves(w.rows, Act(w, step, answer).rows)
  {
  }

  lemma RowsEvolveOnce(env: Env, steps: seq<Step>, step: Step)
    ensures Evolves(After(env, steps).rows, After(env, steps + [step]).rows)
  {
    assert (steps + [step])[..|steps|] == steps;
    RowsEvolveStep(After(env, steps), step, Consult(env, After(env, steps), step));
  }

  /** A ledger row keeps its request hash for ever and leaves RESERVED at most once. */
  lemma {:induction false} RowsOnlySettle(env: Env, steps: seq<Step>, more: seq<Step>)
    ensures Evolves(After(env, steps).rows, After(env, steps + more).rows)
    decreases |more|
  {
    if more == [] {
      assert steps + more == steps;
    } else {
      var most := more[..|more| - 1];
      RowsOnlySettle(env, steps, most);
      RowsEvolveOnce(env, steps + most, more[|more| - 1]);
      assert steps + more == steps + most + [more[|more| - 1]];
      EvolvesTransitive(After(env, steps).rows, After(env, steps + most).rows, After(env, steps + more).rows);
    }
  }

  /**
   LEDGER_TRANSITION_FAILED is unreachable, and a receipt names the presented nonce and request hash and carries the
   presented transaction's total and currency and the nonce's receipt text.
   */
  lemma ResultsFit(env: Env, steps: seq<Step>, who: nat)
    requires var w := After(env, steps); who in w.executions && w.executions[who].phase.Finished?
    ensures var x := After(env, steps).executions[who];
            && (x.phase.result.Failure? ==> !x.phase.result.cause.LedgerTransitionFailed?)
            && (x.phase.result.Receipt? ==>
                  && x.phase.result.nonce == x.Nonce() && x.phase.result.requestSha == x.RequestSha()
                  && x.phase.result.order.amount == x.input.transaction.payload.totalMinor
                  && x.phase.result.order.currency == x.input.transaction.payload.orderCurrency
                  && x.phase.result.order.receipt == env.receiptFor(x.Nonce()))
  {
    Reachable(env, steps);
    assert Justified(env, After(env, steps).log, After(env, steps).executions[who]);
  }

  // The capability of the i-th observation left the issuer in the world after the first k steps.
  ghost predicate IssuedAfter(env: Env, steps: seq<Step>, k: nat, i: nat, e: Observation) {
    && k < |steps| && e.CapabilityIssued?
    && |After(env, steps[..k]).log| == i
    && Issue(env, After(env, steps[..k]).registry, e.asked) == Issued(e.capability)
  }

  lemma OnlyIssuerLogsIssue(w: World, step: Step, answer: Answer)
    requires var log' := Act(w, step, answer).log; |log'| > |w.log| && log'[|w.log|].CapabilityIssued?
    ensures step.IssueCapability? && answer.IssuerSays? && answer.issue.Issued?
    ensures Act(w, step, answer).log[|w.log|] == CapabilityIssued(step.asked, answer.issue.capability)
  {
  }

  // What one more step does to the log of a run, where against says which issuances a run may append.
  ghost predicate IssuesInStep(log: seq<Step> -> seq<Observation>, against: (seq<Step>, Observation) -> bool,
                               steps: seq<Step>)
  {
    steps != [] ==>
      var before, after := log(steps[..|steps| - 1]), log(steps);
      && LogGrows(before, after)
      && (|after| > |before| && after[|before|].CapabilityIssued? ==> against(steps[..|steps| - 1], after[|before|]))
  }

  lemma {:induction false} IssueFound(log: seq<Step> -> seq<Observation>, against: (seq<Step>, Observation) -> bool,
                                      steps: seq<Step>, i: nat)
    returns (k: nat)
    requires log([]) == [] && forall s :: IssuesInStep(log, against, s)
    requires i < |log(steps)| && log(steps)[i].CapabilityIssued?
    ensures k < |steps| && |log(steps[..k])| == i && against(steps[..k], log(steps)[i])
  {
    assert steps != [];
    assert IssuesInStep(log, against, steps);
    var most := steps[..|steps| - 1];
    if i < |log(most)| {
      assert log(steps)[i] == log(most)[i];
      k := IssueFound(log, against, most, i);
      assert most[..k] == steps[..k];
    } else {
      k := |steps| - 1;
    }
  }

  /** Every issuance in the log was granted by the issuer against the consent committed at that moment. */
  lemma IssuedAgainstItsWorld(env: Env, steps: seq<Step>, i: nat) returns (k: nat)
    requires i < |After(env, steps).log| && After(env, steps).log[i].CapabilityIssued?
    ensures IssuedAfter(env, steps, k, i, After(env, steps).log[i])
  {
    var log := (s: seq<Step>) => After(env, s).log;
    var against := (s: seq<Step>, e: Observation) =>
      e.CapabilityIssued? && Issue(env, After(env, s).registry, e.asked) == Issued(e.capability);
    forall s ensures IssuesInStep(log, against, s) {
      if s != [] {
        NextIssues(env, After(env, s[..|s| - 1]), s[|s| - 1]);
      }
    }
    k := IssueFound(log, against, steps, i);
  }

  lemma NextIssues(env: Env, w: World, step: Step)
    ensures var log' := Next(env, w, step).log;
            && LogGrows(w.log, log')
            && (|log'| > |w.log| && log'[|w.log|].CapabilityIssued? ==>
                  Issue(env, w.registry, log'[|w.log|].asked) == Issued(log'[|w.log|].capability))
  {
    LogStep(w, step, Consult(env, w, step));
    var log' := Next(env, w, step).log;
    if |log'| > |w.log| && log'[|w.log|].CapabilityIssued? {
      OnlyIssuerLogsIssue(w, step, Consult(env, w, step));
    }
  }

  /**
   Every provider call traces back to an earlier issuance with the same mandate payload, transaction body
   and authorization result, whose action was ALLOW, made while the bound version was current and ACTIVE. The
   amount and currency sent are that transaction's total and currency, the receipt text is the one of the issued
   nonce, and the call's clock lies between issue time less the skew and an expiry within the mandate's.
   */
  lemma CallsAreBoundToIssuance(env: Env, steps: seq<Step>, j: nat)
    requires BindingHashes(env)
    requires j < |After(env, steps).log| && After(env, steps).log[j].CallBegan?
    ensures var log := After(env, steps).log;
            exists i: nat, k: nat :: i < j && IssuedAfter(env, steps, k, i, log[i])
              && IssuedFor(env, After(env, steps[..k]).registry, log[i].asked, log[j].input, log[j].request)
  {
    Reachable(env, steps);
    var log := After(env, steps).log;
    var call := log[j];
    assert CallTraced(env, log[..j], call);
    var i :| 0 <= i < j && log[..j][i].CapabilityIssued?
        && log[..j][i].capability.payload == call.input.capability.payload;
    var k := IssuedAgainstItsWorld(env, steps, i);
    BoundIssuance(env, After(env, steps[..k]).registry, log[i].asked, log[i].capability, call.input, call.request);
  }

  // The presentation and request of a call are those of this issuance, against this state of consent.
  ghost predicate IssuedFor(env: Env, r: Registry, asked: IssueRequest, input: Presentation, request: OrderRequest) {
    var scenario := asked.scenario;
    && input.mandate.payload == scenario.mandate.payload
    && input.transaction.payload == scenario.transaction.payload
    && input.result == asked.result && asked.result.finalAction.Allow?
    && env.authorize(scenario) == Authorized(asked.result)
    && request == OrderRequest(scenario.transaction.payload.totalMinor, scenario.transaction.payload.orderCurrency,
                               env.receiptFor(asked.nonce))
    && asked.issuedAt - MAX_ISSUED_AT_FUTURE_SKEW <= input.now < asked.expiresAt <= scenario.mandate.payload.expiresAt
    && input.capability.payload.mandateVersion == asked.version
    && ActiveAt(r, Uuid(scenario.mandate.payload.uuid), asked.version)
  }

  lemma BoundIssuance(env: Env, r: Registry, asked: IssueRequest, capability: Signed, input: Presentation,
                      request: OrderRequest)
    requires BindingHashes(env) && Issue(env, r, asked) == Issued(capability)
    requires Bound(env, input) && input.capability.payload == capability.payload
    requires request == OrderRequest(input.transaction.payload.totalMinor, input.transaction.payload.orderCurrency,
                                     env.receiptFor(input.capability.payload.nonce))
    ensures IssuedFor(env, r, asked, input, request)
  {
    IssuedExactlyWhen(env, r, asked);
  }

  /**
   Whatever was issued, presented and answered in between: every receipt an execution returns carries the total and
   currency of the transaction its capability was issued for, and the receipt text of the issued nonce.
   */
  lemma ReceiptsCarryTheIssuedOrder(env: Env, steps: seq<Step>, who: nat)
    requires BindingHashes(env)
    requires var w := After(env, steps);
             who in w.executions && w.executions[who].phase.Finished? && w.executions[who].phase.result.Receipt?
    ensures var w := After(env, steps);
            var x := w.executions[who];
            exists i: nat, k: nat :: i < |w.log| && IssuedAfter(env, steps, k, i, w.log[i])
              && x.phase.result.nonce == w.log[i].asked.nonce
              && IssuedFor(env, After(env, steps[..k]).registry, w.log[i].asked, x.input,
                           OrderRequest(x.phase.result.order.amount, x.phase.result.order.currency,
                               x.phase.result.order.receipt))
  {
    Reachable(env, steps);
    var w := After(env, steps);
    var x := w.executions[who];
    assert Justified(env, w.log, x);
    var payload := x.input.capability.payload;
    var i: nat :| i < |w.log| && w.log[i].CapabilityIssued? && w.log[i].capability.payload == payload;
    var k := IssuedAgainstItsWorld(env, steps, i);
    var order := x.phase.result.order;
    BoundIssuance(env, After(env, steps[..k]).registry, w.log[i].asked, w.log[i].capability, x.input,
                  OrderRequest(order.amount, order.currency, order.receipt));
    IssuedExactlyWhen(env, After(env, steps[..k]).registry, w.log[i].asked);
  }

  /**
   The books balance in every reachable world, crashes included. A nonce without a row has neither call
   nor refusal event; a row not in flight is gate-refused (REJECTED, no call, one refusal event), granted
   (one call, no refusal event, the status its reported outcome fixes) or left behind by a crash.
   */
  lemma BooksBalance(env: Env, steps: seq<Step>, nonce: string)
    ensures var w := After(env, steps);
            || InFlight(w, nonce) || UntouchedAccount(w, nonce)
            || RefusedAccount(w, nonce) || CalledAccount(w, nonce) || AbandonedAccount(w, nonce)
  {
    Reachable(env, steps);
    assert Accounted(env, After(env, steps), nonce);
  }

  /** An order id stands exactly in SUCCEEDED rows, in every reachable world. */
  lemma {:induction false} OrderIdsStandOnSuccess(env: Env, steps: seq<Step>)
    ensures OrderIdsOnSuccess(After(env, steps).rows)
  {
    if steps != [] {
      var w := After(env, steps[..|steps| - 1]);
      OrderIdsStandOnSuccess(env, steps[..|steps| - 1]);
      OrderIdStep(w, steps[|steps| - 1], Consult(env, w, steps[|steps| - 1]));
    }
  }

  lemma OrderIdStep(w: World, step: Step, answer: Answer)
    requires OrderIdsOnSuccess(w.rows)
    ensures OrderIdsOnSuccess(Act(w, step, answer).rows)
  {
  }

  /**
   When nothing is in flight and nothing crashed, a row still RESERVED means exactly that its one call
   returned an overlong order id: the outcome the executor does not handle.
   */
  lemma ReservedRowsEscaped(env: Env, steps: seq<Step>, nonce: string)
    requires var w := After(env, steps); w.owner.None? && nonce in w.rows
    requires forall i :: 0 <= i < |After(env, steps).log| ==> !After(env, steps).log[i].Crashed?
    ensures After(env, steps).rows[nonce].status.Reserved? <==>
              exists i :: 0 <= i < |After(env, steps).log| && EscapesFor(After(env, steps).log[i], nonce)
  {
    BooksBalance(env, steps, nonce);
    ReservedIsEscaped(After(env, steps), nonce);
  }

  predicate EscapesFor(e: Observation, nonce: string) {
    Returns(e, nonce) && e.outcome.Escaped?
  }

  lemma ReservedIsEscaped(w: World, nonce: string)
    requires RefusedAccount(w, nonce) || CalledAccount(w, nonce)
    ensures w.rows[nonce].status.Reserved? <==> exists i :: 0 <= i < |w.log| && EscapesFor(w.log[i], nonce)
  {
    if CalledAccount(w, nonce) {
      var i :| 0 <= i < |w.log| && Reports(w.log[i], nonce, w.rows[nonce]);
      assert EscapesFor(w.log[i], nonce) <==> w.rows[nonce].status.Reserved?;
      forall j | 0 <= j < |w.log| && EscapesFor(w.log[j], nonce) ensures w.rows[nonce].status.Reserved? {
        assert Reports(w.log[j], nonce, w.rows[nonce]);
      }
    }
  }
}
