/** What every schedule of the step system keeps: the guard, the decisions, the reservations. */
module ProtocolInvariants {
  import opened Wrappers
  import opened Consent
  import opened ConsentHistory
  import opened SqlConsent
  import opened Capability
  import opened Gate
  import opened Ledger
  import opened Provider
  import opened Executor
  import opened Protocol

  // ----- The guard excludes -----

  // Exactly the owner is between entering and leaving.
  ghost predicate GuardExclusive(w: World) {
    && (forall who :: who in w.executions ==> (InGuard(w.executions[who].phase) <==> w.owner == Some(who)))
    && (w.owner.Some? ==> w.owner.value in w.executions)
  }

  predicate Unaudited(w: World) {
    && w.owner.Some? && w.owner.value in w.executions
    && w.executions[w.owner.value].phase.Leaving? && !w.executions[w.owner.value].phase.audited
  }

  // The holder changes no consent row; only a refusal event may be uncommitted.
  predicate RowsCommitted(w: World) {
    && w.pending.states == w.registry.states
    && w.pending.current == w.registry.current
    && (!Unaudited(w) ==> w.pending == w.registry)
  }

  // ----- What each execution may rely on -----

  predicate Decided(phase: Phase) {
    phase.Refusing? || phase.Consuming? || phase.Recording? || Admitted(phase)
  }

  // From the gate's positive decision until the row is settled.
  predicate Admitted(phase: Phase) {
    phase.Granting? || phase.Holding? || phase.Calling? || phase.Settling?
  }

  ghost predicate OutcomeFits(env: Env, input: Presentation, outcome: ClientOutcome) {
    outcome.Created? ==>
      && outcome.order.amount == input.transaction.payload.totalMinor
      && outcome.order.currency == input.transaction.payload.orderCurrency
      && outcome.order.receipt == env.receiptFor(input.capability.payload.nonce)
  }

  ghost predicate ResultFits(env: Env, input: Presentation, result: ExecutionResult) {
    && (result.Failure? ==> !result.cause.LedgerTransitionFailed?)
    && (result.Receipt? ==>
          && Bound(env, input)
          && result.requestSha == input.capability.payload.requestSha
          && result.nonce == input.capability.payload.nonce
          && OutcomeFits(env, input, Created(result.order)))
  }

  ghost predicate Justified(env: Env, log: seq<Observation>, x: Execution) {
    && ValidPayload(x.input.capability.payload)
    && (Verify(env, x.input.capability).Valid? ==> WasIssued(log, x.input.capability.payload))
    && (Decided(x.phase) ==> Bound(env, x.input))
    && (Admitted(x.phase) ==> x.Id() == Uuid(x.input.mandate.payload.uuid))
    && (x.phase.Settling? ==> OutcomeFits(env, x.input, x.phase.outcome))
    && (x.phase.Leaving? || x.phase.Finished? ==> ResultFits(env, x.input, x.phase.result))
  }

  ghost predicate AllJustified(env: Env, w: World) {
    forall who :: who in w.executions ==> Justified(env, w.log, w.executions[who])
  }

  // An admitted execution's consent is current and ACTIVE at the bound version.
  ghost predicate ConsentHeld(w: World) {
    w.owner.Some? && w.owner.value in w.executions && Admitted(w.executions[w.owner.value].phase) ==>
      var x := w.executions[w.owner.value];
      ActiveAt(w.registry, x.Id(), x.BoundVersion())
  }

  // The row of the holder's nonce, from reservation to settlement.
  ghost predicate RowHeld(w: World) {
    w.owner.Some? && w.owner.value in w.executions ==>
      var x := w.executions[w.owner.value];
      && (x.phase.Consuming? || x.phase.Holding? || x.phase.Calling? || x.phase.Settling? ==>
            x.Nonce() in w.rows && w.rows[x.Nonce()] == LedgerRow(x.RequestSha(), Reserved, None))
      && (x.phase.Recording? || Unaudited(w) ==>
            x.Nonce() in w.rows && w.rows[x.Nonce()] == LedgerRow(x.RequestSha(), Rejected, None))
  }

  lemma IssuedStays(log: seq<Observation>, e: Observation, payload: Payload)
    requires WasIssued(log, payload)
    ensures WasIssued(log + [e], payload)
  {
    var i :| 0 <= i < |log| && log[i].CapabilityIssued? && log[i].capability.payload == payload;
    assert (log + [e])[i] == log[i];
  }

  // A step adds at most one observation.
  predicate LogGrows(before: seq<Observation>, after: seq<Observation>) {
    after == before || (|after| == |before| + 1 && after[..|before|] == before)
  }

  lemma JustifiedStays(env: Env, before: seq<Observation>, after: seq<Observation>, x: Execution)
    requires LogGrows(before, after) && Justified(env, before, x)
    ensures Justified(env, after, x)
  {
    if after != before && WasIssued(before, x.input.capability.payload) {
      IssuedStays(before, after[|before|], x.input.capability.payload);
      assert after == before + [after[|before|]];
    }
  }

  // ----- What a consulted component's answer guarantees -----

  // A positive verdict means bound inputs and live consent, a consuming one bound inputs.
  ghost predicate VerdictSound(env: Env, r: Registry, x: Execution, verdict: Verdict) {
    && (verdict.Proceed? || verdict.RefuseAndConsume? ==> Bound(env, x.input))
    && (verdict.Proceed? ==> x.Id() == Uuid(x.input.mandate.payload.uuid) && ActiveAt(r, x.Id(), x.BoundVersion()))
  }

  ghost predicate GateAnswer(env: Env, w: World, step: Step, answer: Answer) {
    && (step.Submit? && answer.Admissible? ==> MayPresent(env, w, step.input))
    && (step.Validate? && Stands(w, step.who) && answer.GateSays? ==>
          VerdictSound(env, w.pending, w.executions[step.who], answer.verdict))
    && (step.ReturnCall? && Stands(w, step.who) && answer.ClientReturns? ==>
          OutcomeFits(env, w.executions[step.who].input, answer.order))
  }

  ghost predicate RegistryAnswer(env: Env, w: World, step: Step, answer: Answer) {
    && (step.RecordEvent? && Stands(w, step.who) && w.executions[step.who].phase.Recording? && answer.RegistrySays? ==>
          (answer.registry, answer.outcome)
            == Apply(env.hashEvent, w.pending, RefusalEvent(w.executions[step.who].input,
                w.executions[step.who].phase.reason)))
    && (step.ChangeConsent? && answer.RegistrySays? ==>
          && !step.op.RecordRefusal?
          && (answer.registry, answer.outcome) == Apply(env.hashEvent, w.registry, step.op))
  }

  ghost predicate RecordAnswer(env: Env, w: World, step: Step, answer: Answer) {
    && (step.BeginCall? && Stands(w, step.who) && answer.ClientSends? ==>
          answer.request == Rebuilt(env, w.executions[step.who].input))
    && (step.IssueCapability? && answer.IssuerSays? ==> answer.issue == Issue(env, w.registry, step.asked))
  }

  lemma GateAnswersSoundly(env: Env, w: World, step: Step)
    ensures GateAnswer(env, w, step, Consult(env, w, step))
  {
    if step.Validate? && Stands(w, step.who) {
      EarlyChecksPassExactlyWhenBound(env, w.executions[step.who].input);
    }
  }

  lemma RegistryAnswersSoundly(env: Env, w: World, step: Step)
    ensures RegistryAnswer(env, w, step, Consult(env, w, step))
  {
  }

  lemma RecordsAnswerSoundly(env: Env, w: World, step: Step)
    ensures RecordAnswer(env, w, step, Consult(env, w, step))
  {
    if step.ReturnCall? && Stands(w, step.who) {
      CreatedExactlyWhen(step.reply, Rebuilt(env, w.executions[step.who].input));
    }
  }

  lemma ConsultIsSound(env: Env, w: World, step: Step)
    ensures GateAnswer(env, w, step, Consult(env, w, step))
    ensures RegistryAnswer(env, w, step, Consult(env, w, step))
    ensures RecordAnswer(env, w, step, Consult(env, w, step))
  {
    GateAnswersSoundly(env, w, step);
    RegistryAnswersSoundly(env, w, step);
    RecordsAnswerSoundly(env, w, step);
  }

  // ----- Preservation -----

  lemma GuardStep(w: World, step: Step, answer: Answer)
    requires GuardExclusive(w)
    ensures GuardExclusive(Act(w, step, answer))
  {
  }

  // A refusal event touches no consent row.
  predicate EventOnly(w: World, step: Step, answer: Answer) {
    step.RecordEvent? && answer.RegistrySays? ==>
      answer.registry.states == w.pending.states && answer.registry.current == w.pending.current
  }

  lemma RefusalIsEventOnly(env: Env, w: World, step: Step, answer: Answer)
    requires RegistryAnswer(env, w, step, answer)
    requires step.RecordEvent? ==> Stands(w, step.who) && w.executions[step.who].phase.Recording?
    ensures EventOnly(w, step, answer)
  {
  }

  lemma RowsStep(w: World, step: Step, answer: Answer)
    requires GuardExclusive(w) && RowsCommitted(w)
    requires step.RecordEvent? && Stands(w, step.who) && w.executions[step.who].phase.Recording? ==>
             EventOnly(w, step, answer)
    ensures RowsCommitted(Act(w, step, answer))
  {
  }

  lemma ShapeStep(env: Env, w: World, step: Step, answer: Answer)
    requires RowsCommitted(w) && Shaped(w.registry) && RegistryAnswer(env, w, step, answer)
    ensures Shaped(Act(w, step, answer).registry)
  {
    if step.ChangeConsent? {
      ApplyKeepsShape(env.hashEvent, w.registry, step.op);
    } else {
      assert Act(w, step, answer).registry == w.registry || Act(w, step, answer).registry == w.pending;
    }
  }

  lemma LogStep(w: World, step: Step, answer: Answer)
    ensures LogGrows(w.log, Act(w, step, answer).log)
  {
  }

  // The execution a step acts for.
  function Actor(step: Step): Option<nat> {
    match step
    case ChangeConsent(_) => None
    case IssueCapability(_) => None
    case _ => Some(step.who)
  }

  lemma OthersStand(w: World, step: Step, answer: Answer, who: nat)
    requires Actor(step) != Some(who)
    ensures who in Act(w, step, answer).executions <==> who in w.executions
    ensures who in w.executions ==> Act(w, step, answer).executions[who] == w.executions[who]
  {
  }

  lemma ValidatedJustified(env: Env, w: World, who: nat, verdict: Verdict)
    requires Stands(w, who) && Justified(env, w.log, w.executions[who]) && w.executions[who].phase.Entered?
    requires VerdictSound(env, w.pending, w.executions[who], verdict)
    ensures Justified(env, w.log, Validated(w, who, verdict).executions[who])
  {
  }

  lemma ValidateJustified(env: Env, w: World, step: Step, answer: Answer)
    requires step.Validate? && GateAnswer(env, w, step, answer)
    requires step.who in w.executions ==> Justified(env, w.log, w.executions[step.who])
    ensures var w' := Act(w, step, answer); step.who in w'.executions ==> Justified(env, w.log, w'.executions[step.who])
  {
    if Stands(w, step.who) && w.executions[step.who].phase.Entered? && answer.GateSays? {
      ValidatedJustified(env, w, step.who, answer.verdict);
    } else {
      assert Act(w, step, answer) == w;
    }
  }

  // Settling finds its row and leaves a result that fits the request.
  lemma SettledFits(env: Env, w: World, who: nat, outcome: ClientOutcome)
    requires Stands(w, who) && RowHeld(w) && w.executions[who].phase == Settling(outcome)
    requires OutcomeFits(env, w.executions[who].input, outcome) && Bound(env, w.executions[who].input)
    ensures var w' := Settled(w, who, outcome); var x := w.executions[who];
            && who in w'.executions && w'.executions[who].input == x.input && w'.executions[who].phase.Leaving?
            && ResultFits(env, x.input, w'.executions[who].phase.result)
  {
  }

  lemma SettleJustified(env: Env, w: World, step: Step, answer: Answer)
    requires step.Settle? && GuardExclusive(w) && RowHeld(w)
    requires step.who in w.executions ==> Justified(env, w.log, w.executions[step.who])
    ensures var w' := Act(w, step, answer); step.who in w'.executions ==> Justified(env, w.log, w'.executions[step.who])
  {
    if Stands(w, step.who) && w.executions[step.who].phase.Settling? {
      SettledFits(env, w, step.who, w.executions[step.who].phase.outcome);
      assert Act(w, step, answer) == Settled(w, step.who, w.executions[step.who].phase.outcome);
    }
  }

  predicate LedgerStep(step: Step) {
    step.ReserveNonce? || step.RejectRow? || step.RecordEvent? || step.Leave? || step.Crash?
  }

  lemma LedgerStepJustified(env: Env, w: World, step: Step, answer: Answer)
    requires LedgerStep(step)
    requires step.who in w.executions ==> Justified(env, w.log, w.executions[step.who])
    ensures var w' := Act(w, step, answer); step.who in w'.executions ==> Justified(env, w.log, w'.executions[step.who])
  {
  }

  lemma OtherStepJustified(env: Env, w: World, step: Step, answer: Answer)
    requires Actor(step).Some? && !step.Validate? && !step.Settle? && !LedgerStep(step)
             && GateAnswer(env, w, step, answer)
    requires step.who in w.executions ==> Justified(env, w.log, w.executions[step.who])
    ensures var w' := Act(w, step, answer); step.who in w'.executions ==> Justified(env, w.log, w'.executions[step.who])
  {
  }

  lemma ActorJustified(env: Env, w: World, step: Step, answer: Answer, who: nat)
    requires Actor(step) == Some(who) && GateAnswer(env, w, step, answer)
    requires GuardExclusive(w) && RowHeld(w)
    requires who in w.executions ==> Justified(env, w.log, w.executions[who])
    ensures var w' := Act(w, step, answer); who in w'.executions ==> Justified(env, w.log, w'.executions[who])
  {
    if step.Validate? {
      ValidateJustified(env, w, step, answer);
    } else if step.Settle? {
      SettleJustified(env, w, step, answer);
    } else if LedgerStep(step) {
      LedgerStepJustified(env, w, step, answer);
    } else {
      OtherStepJustified(env, w, step, answer);
    }
  }

  lemma JustifiedStep(env: Env, w: World, step: Step, answer: Answer)
    requires GuardExclusive(w) && AllJustified(env, w) && RowHeld(w)
    requires GateAnswer(env, w, step, answer)
    ensures AllJustified(env, Act(w, step, answer))
  {
    var w' := Act(w, step, answer);
    LogStep(w, step, answer);
    forall who | who in w'.executions ensures Justified(env, w'.log, w'.executions[who]) {
      if Actor(step) == Some(who) {
        ActorJustified(env, w, step, answer, who);
      } else {
        OthersStand(w, step, answer, who);
      }
      JustifiedStays(env, w.log, w'.log, w'.executions[who]);
    }
  }

  predicate ProceedsOnLiveConsent(w: World, step: Step, answer: Answer) {
    step.Validate? && step.who in w.executions && answer.GateSays? && answer.verdict.Proceed? ==>
      ActiveAt(w.pending, w.executions[step.who].Id(), w.executions[step.who].BoundVersion())
  }

  lemma ConsentHeldStep(w: World, step: Step, answer: Answer)
    requires GuardExclusive(w) && RowsCommitted(w) && ConsentHeld(w) && ProceedsOnLiveConsent(w, step, answer)
    ensures ConsentHeld(Act(w, step, answer))
  {
    if LedgerStep(step) || step.Settle? {
      ConsentHeldLedgerStep(w, step, answer);
    } else {
      ConsentHeldOtherStep(w, step, answer);
    }
  }

  lemma ConsentHeldLedgerStep(w: World, step: Step, answer: Answer)
    requires GuardExclusive(w) && RowsCommitted(w) && ConsentHeld(w) && (LedgerStep(step) || step.Settle?)
    ensures ConsentHeld(Act(w, step, answer))
  {
  }

  lemma ConsentHeldOtherStep(w: World, step: Step, answer: Answer)
    requires GuardExclusive(w) && RowsCommitted(w) && ConsentHeld(w) && ProceedsOnLiveConsent(w, step, answer)
    requires !LedgerStep(step) && !step.Settle?
    ensures ConsentHeld(Act(w, step, answer))
  {
  }

  lemma RowHeldStep(w: World, step: Step, answer: Answer)
    requires GuardExclusive(w) && RowHeld(w)
    ensures RowHeld(Act(w, step, answer))
  {
    if LedgerStep(step) || step.Settle? {
      RowHeldLedgerStep(w, step, answer);
    } else {
      RowHeldOtherStep(w, step, answer);
    }
  }

  lemma RowHeldLedgerStep(w: World, step: Step, answer: Answer)
    requires GuardExclusive(w) && RowHeld(w) && (LedgerStep(step) || step.Settle?)
    ensures RowHeld(Act(w, step, answer))
  {
    if step.ReserveNonce? || step.RejectRow? {
      RowHeldWritingStep(w, step, answer);
    }
  }

  lemma RowHeldWritingStep(w: World, step: Step, answer: Answer)
    requires GuardExclusive(w) && RowHeld(w) && (step.ReserveNonce? || step.RejectRow?)
    ensures RowHeld(Act(w, step, answer))
  {
  }

  lemma RowHeldOtherStep(w: World, step: Step, answer: Answer)
    requires GuardExclusive(w) && RowHeld(w) && !LedgerStep(step) && !step.Settle?
    ensures RowHeld(Act(w, step, answer))
  {
  }
}
