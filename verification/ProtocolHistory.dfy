/**
 What the log of every schedule shows: no call after a withdrawal, every call traced to an issuance,
 at most one call for a nonce, and each ledger row accounted for by a call or by a refusal event.
 */
module ProtocolHistory {
  import opened Wrappers
  import opened Consent
  import opened ConsentHistory
  import opened Capability
  import opened Gate
  import opened Ledger
  import opened Provider
  import opened Executor
  import opened Protocol
  import opened ProtocolInvariants

  // ----- Withdrawn consent -----

  predicate Withdraws(e: Observation, id: MandateId, version: int) {
    e.ConsentChanged? && (e.op.Revoke? || e.op.Supersede?) && e.op.id == id && e.op.version == version
  }

  predicate CallsUnder(e: Observation, id: MandateId, version: int) {
    e.CallBegan? && e.input.capability.payload.mandateId == id && e.input.capability.payload.mandateVersion == version
  }

  // Every withdrawn version's row is terminal.
  ghost predicate WithdrawnRowsTerminal(log: seq<Observation>, rows: Rows) {
    forall i, id, version :: 0 <= i < |log| && Withdraws(log[i], id, version) ==>
      Key(id, version) in rows && !rows[Key(id, version)].status.Active?
  }

  ghost predicate NoCallAfterWithdrawal(log: seq<Observation>) {
    forall i, j, id, version :: 0 <= i < j < |log| && Withdraws(log[i], id, version) ==>
        !CallsUnder(log[j], id, version)
  }

  lemma WithdrawalRetires(hash: EventHash, r: Registry, op: Op)
    requires (op.Revoke? || op.Supersede?) && RowsKeyed(r.states) && Apply(hash, r, op).1.Done?
    ensures Key(op.id, op.version) in Apply(hash, r, op).0.states
    ensures !Apply(hash, r, op).0.states[Key(op.id, op.version)].status.Active?
  {
  }

  lemma ConsentChangeKeepsTerminal(hash: EventHash, r: Registry, op: Op, log: seq<Observation>)
    requires Shaped(r) && WithdrawnRowsTerminal(log, r.states) && Apply(hash, r, op).1.Done?
    ensures WithdrawnRowsTerminal(log + [ConsentChanged(op)], Apply(hash, r, op).0.states)
  {
    var rows' := Apply(hash, r, op).0.states;
    var log' := log + [ConsentChanged(op)];
    forall i, id, version | 0 <= i < |log'| && Withdraws(log'[i], id, version)
      ensures Key(id, version) in rows' && !rows'[Key(id, version)].status.Active?
    {
      if i < |log| {
        assert Withdraws(log[i], id, version);
        TerminalRowsAreFinal(hash, r, op, Key(id, version));
      } else {
        WithdrawalRetires(hash, r, op);
      }
    }
  }

  lemma OtherObservationsWithdrawNothing(log: seq<Observation>, log': seq<Observation>, rows: Rows)
    requires log' == log || (|log'| == |log| + 1 && log'[..|log|] == log && !log'[|log|].ConsentChanged?)
    requires WithdrawnRowsTerminal(log, rows)
    ensures WithdrawnRowsTerminal(log', rows)
  {
    forall i, id, version | 0 <= i < |log'| && Withdraws(log'[i], id, version)
      ensures Key(id, version) in rows && !rows[Key(id, version)].status.Active?
    {
      assert log'[i] == log[i];
    }
  }

  lemma WithdrawnStep(env: Env, w: World, step: Step, answer: Answer)
    requires RowsCommitted(w) && Shaped(w.registry) && RegistryAnswer(env, w, step, answer)
    requires WithdrawnRowsTerminal(w.log, w.registry.states)
    ensures WithdrawnRowsTerminal(Act(w, step, answer).log, Act(w, step, answer).registry.states)
  {
    var w' := Act(w, step, answer);
    if step.ChangeConsent? {
      if w' != w {
        ConsentChangeKeepsTerminal(env.hashEvent, w.registry, step.op, w.log);
      }
    } else {
      OnlyConsentChangesRows(w, step, answer);
      OtherObservationsWithdrawNothing(w.log, w'.log, w.registry.states);
    }
  }

  // Steps other than ChangeConsent leave the committed rows alone and log no consent change.
  lemma OnlyConsentChangesRows(w: World, step: Step, answer: Answer)
    requires RowsCommitted(w) && !step.ChangeConsent?
    ensures var w' := Act(w, step, answer);
            && w'.registry.states == w.registry.states
            && (w'.log == w.log || (|w'.log| == |w.log| + 1 && w'.log[..|w.log|] == w.log
                && !w'.log[|w.log|].ConsentChanged?))
  {
  }

  lemma LateCallStep(w: World, step: Step, answer: Answer)
    requires RowsKeyed(w.registry.states) && ConsentHeld(w) && WithdrawnRowsTerminal(w.log, w.registry.states)
    requires NoCallAfterWithdrawal(w.log)
    ensures NoCallAfterWithdrawal(Act(w, step, answer).log)
  {
    var w' := Act(w, step, answer);
    LogStep(w, step, answer);
    forall i, j, id, version | 0 <= i < j < |w'.log| && Withdraws(w'.log[i], id, version)
      ensures !CallsUnder(w'.log[j], id, version)
    {
      assert w'.log[i] == w.log[i];
      if j < |w.log| {
        assert w'.log[j] == w.log[j];
      } else if w'.log[j].CallBegan? {
        NewCallIsHeld(w, step, answer);
        var x := w.executions[step.who];
        assert ActiveAt(w.registry, x.Id(), x.BoundVersion());
        assert w.registry.states[Key(x.Id(), x.BoundVersion())].status.Active?;
        assert Withdraws(w.log[i], id, version);
      }
    }
  }

  lemma NewCallIsHeld(w: World, step: Step, answer: Answer)
    requires var w' := Act(w, step, answer); |w'.log| > |w.log| && w'.log[|w.log|].CallBegan?
    ensures step.BeginCall? && Stands(w, step.who) && w.executions[step.who].phase.Holding?
    ensures answer.ClientSends? && Act(w, step, answer).log
            == w.log + [CallBegan(w.executions[step.who].input, answer.request)]
  {
  }

  // ----- Calls traced to issuances -----

  ghost predicate CallTraced(env: Env, earlier: seq<Observation>, e: Observation) {
    e.CallBegan? ==>
      && Bound(env, e.input)
      && e.input.capability.payload.mandateId == Uuid(e.input.mandate.payload.uuid)
      && e.request == OrderRequest(e.input.transaction.payload.totalMinor, e.input.transaction.payload.orderCurrency,
                                   env.receiptFor(e.input.capability.payload.nonce))
      && WasIssued(earlier, e.input.capability.payload)
  }

  ghost predicate LogTraced(env: Env, log: seq<Observation>) {
    forall j :: 0 <= j < |log| ==> CallTraced(env, log[..j], log[j])
  }

  lemma AppendTraced(env: Env, log: seq<Observation>, e: Observation)
    requires LogTraced(env, log) && CallTraced(env, log, e)
    ensures LogTraced(env, log + [e])
  {
    var log' := log + [e];
    forall j | 0 <= j < |log'| ensures CallTraced(env, log'[..j], log'[j]) {
      assert j < |log| ==> log'[..j] == log[..j] && log'[j] == log[j];
      assert j == |log| ==> log'[..j] == log;
    }
  }

  // The call a step begins is made by a justified holder, with the rebuilt request.
  lemma NewCallTraced(env: Env, w: World, step: Step, answer: Answer)
    requires AllJustified(env, w) && RecordAnswer(env, w, step, answer)
    requires step.BeginCall? && Stands(w, step.who) && w.executions[step.who].phase.Holding? && answer.ClientSends?
    ensures CallTraced(env, w.log, CallBegan(w.executions[step.who].input, answer.request))
  {
    assert Justified(env, w.log, w.executions[step.who]);
  }

  lemma TracedStep(env: Env, w: World, step: Step, answer: Answer)
    requires AllJustified(env, w) && RecordAnswer(env, w, step, answer)
    requires LogTraced(env, w.log)
    ensures LogTraced(env, Act(w, step, answer).log)
  {
    var w' := Act(w, step, answer);
    LogStep(w, step, answer);
    if w'.log != w.log {
      var e := w'.log[|w.log|];
      if e.CallBegan? {
        NewCallIsHeld(w, step, answer);
        NewCallTraced(env, w, step, answer);
      }
      AppendTraced(env, w.log, e);
      assert w'.log == w.log + [e];
    }
  }
}
