/** The step system and the executor agree: an execution that nobody interrupts has the executor's effect. */
module ProtocolAgreement {
  import opened Wrappers
  import opened Consent
  import opened ConsentHistory
  import opened SqlConsent
  import opened ConsentRefinement
  import opened Capability
  import opened Gate
  import opened Ledger
  import opened Provider
  import opened Executor
  import opened Protocol

  // From submission to the gate's verdict.
  function Opening(env: Env, w: World, who: nat, input: Presentation): World {
    Next(env, Next(env, Next(env, w, Submit(who, input)), Acquire(who)), Validate(who))
  }

  // From the verdict to release; steps the verdict does not enable change nothing.
  function Deciding(env: Env, w: World, who: nat): World {
    Next(env, Next(env, Next(env, w, Step.ReserveNonce(who)), RejectRow(who)), RecordEvent(who))
  }

  function Closing(env: Env, w: World, who: nat, reply: Reply): World {
    Next(env, Next(env, Next(env, Next(env, w, BeginCall(who)), ReturnCall(who, reply)), Settle(who)), Leave(who))
  }

  function Uninterrupted(env: Env, w: World, who: nat, input: Presentation, reply: Reply): World {
    Closing(env, Deciding(env, Opening(env, w, who, input), who), who, reply)
  }

  // The guard is free and everything written is committed.
  predicate Idle(w: World) {
    w.owner.None? && w.pending == w.registry
  }

  function Held(w: World, who: nat, input: Presentation, phase: Phase): World {
    w.(executions := w.executions[who := Execution(input, phase)], owner := Some(who))
  }

  lemma OpeningReachesVerdict(env: Env, w: World, who: nat, input: Presentation)
    requires Idle(w) && who !in w.executions && MayPresent(env, w, input)
    ensures var verdict := VerdictFor(env, w.registry, Execution(input, Entered));
            var phase := match verdict
              case RefuseEarly(reason) => Leaving(Refusal(reason), true)
              case RefuseAndConsume(reason) => Refusing(reason)
              case Proceed => Granting
              case Raise => Leaving(Raised, true);
            Opening(env, w, who, input) == Held(w, who, input, phase)
  {
    HolderEnters(env, w, who, input);
    HolderIsJudged(env, w, who, input);
  }

  lemma HolderEnters(env: Env, w: World, who: nat, input: Presentation)
    requires Idle(w) && who !in w.executions && MayPresent(env, w, input)
    ensures Next(env, Next(env, w, Submit(who, input)), Acquire(who)) == Held(w, who, input, Entered)
  {
    var w1 := Next(env, w, Submit(who, input));
    assert w1 == w.(executions := w.executions[who := Execution(input, Waiting)]);
  }

  lemma HolderIsJudged(env: Env, w: World, who: nat, input: Presentation)
    requires w.pending == w.registry
    ensures var h := Held(w, who, input, Entered);
            Next(env, h, Validate(who)) == Validated(h, who, VerdictFor(env, w.registry, Execution(input, Entered)))
  {
  }

  // A holder about to leave with nothing uncommitted just releases.
  lemma LeavingReleases(env: Env, w: World, who: nat, input: Presentation, result: ExecutionResult, reply: Reply)
    requires Idle(w)
    ensures var h := Held(w, who, input, Leaving(result, true));
            Closing(env, Deciding(env, h, who), who, reply)
            == w.(executions := w.executions[who := Execution(input, Finished(result))])
  {
    var h := Held(w, who, input, Leaving(result, true));
    LeavingStands(env, h, who, reply);
    HolderLeaves(env, w, who, input, result);
  }

  lemma LeavingStands(env: Env, h: World, who: nat, reply: Reply)
    requires who in h.executions && h.executions[who].phase.Leaving?
    ensures Deciding(env, h, who) == h
    ensures Next(env, Next(env, Next(env, h, BeginCall(who)), ReturnCall(who, reply)), Settle(who)) == h
  {
  }

  lemma UsedNonceReleases(env: Env, w: World, who: nat, input: Presentation, phase: Phase, reply: Reply)
    requires Idle(w) && (phase.Refusing? || phase.Granting?) && input.capability.payload.nonce in w.rows
    ensures Closing(env, Deciding(env, Held(w, who, input, phase), who), who, reply)
            == w.(executions := w.executions[who := Execution(input, Finished(Refusal(NonceAlreadyUsed)))])
  {
    var h := Held(w, who, input, phase);
    var l := Held(w, who, input, Leaving(Refusal(NonceAlreadyUsed), true));
    UsedNonceLeaves(env, w, who, input, phase);
    LeavingStands(env, l, who, reply);
    assert Next(env, Next(env, l, RejectRow(who)), RecordEvent(who)) == l;
    HolderLeaves(env, w, who, input, Refusal(NonceAlreadyUsed));
  }

  lemma UsedNonceLeaves(env: Env, w: World, who: nat, input: Presentation, phase: Phase)
    requires (phase.Refusing? || phase.Granting?) && input.capability.payload.nonce in w.rows
    ensures Next(env, Held(w, who, input, phase), Step.ReserveNonce(who))
         == Held(w, who, input, Leaving(Refusal(NonceAlreadyUsed), true))
  {
  }

  lemma GrantedReserves(env: Env, w: World, who: nat, input: Presentation)
    requires Idle(w) && input.capability.payload.nonce !in w.rows
    ensures var payload := input.capability.payload;
            Deciding(env, Held(w, who, input, Granting), who)
            == Held(w.(rows := w.rows[payload.nonce := LedgerRow(payload.requestSha, Reserved, None)]), who, input,
                Holding)
  {
    var payload := input.capability.payload;
    var h := Held(w.(rows := w.rows[payload.nonce := LedgerRow(payload.requestSha, Reserved, None)]), who, input,
        Holding);
    assert Next(env, Held(w, who, input, Granting), Step.ReserveNonce(who)) == h;
    assert Next(env, Next(env, h, RejectRow(who)), RecordEvent(who)) == h;
  }

  lemma HoldingSettles(env: Env, w: World, who: nat, input: Presentation, reply: Reply)
    requires Idle(w)
    requires var payload := input.capability.payload;
             payload.nonce in w.rows && w.rows[payload.nonce] == LedgerRow(payload.requestSha, Reserved, None)
    ensures var payload := input.capability.payload;
            var outcome := Classify(reply, Rebuilt(env, input));
            var result := ResultFor(payload.requestSha, payload.nonce, outcome);
            Closing(env, Held(w, who, input, Holding), who, reply)
            == w.(rows := w.rows[payload.nonce := SettledRow(payload.requestSha, outcome)],
                  executions := w.executions[who := Execution(input, Finished(result))],
                  log := w.log + [CallBegan(input, Rebuilt(env, input)), CallReturned(input, outcome)])
  {
    var payload := input.capability.payload;
    var outcome := Classify(reply, Rebuilt(env, input));
    var w1 := w.(log := w.log + [CallBegan(input, Rebuilt(env, input))]);
    var w2 := w.(log := w.log + [CallBegan(input, Rebuilt(env, input)), CallReturned(input, outcome)]);
    assert w1.log + [CallReturned(input, outcome)] == w2.log;
    assert Next(env, Held(w, who, input, Holding), BeginCall(who)) == Held(w1, who, input, Calling);
    assert Next(env, Held(w1, who, input, Calling), ReturnCall(who, reply)) == Held(w2, who, input, Settling(outcome));
    SettlingLeaves(env, w2, who, input, outcome);
  }

  lemma SettlingLeaves(env: Env, w: World, who: nat, input: Presentation, outcome: ClientOutcome)
    requires Idle(w)
    requires var payload := input.capability.payload;
             payload.nonce in w.rows && w.rows[payload.nonce] == LedgerRow(payload.requestSha, Reserved, None)
    ensures var payload := input.capability.payload;
            var result := ResultFor(payload.requestSha, payload.nonce, outcome);
            Next(env, Next(env, Held(w, who, input, Settling(outcome)), Settle(who)), Leave(who))
            == w.(rows := w.rows[payload.nonce := SettledRow(payload.requestSha, outcome)],
                  executions := w.executions[who := Execution(input, Finished(result))])
  {
    var payload := input.capability.payload;
    var result := ResultFor(payload.requestSha, payload.nonce, outcome);
    var w1 := w.(rows := w.rows[payload.nonce := SettledRow(payload.requestSha, outcome)]);
    HolderSettles(env, w, who, input, outcome);
    HolderLeaves(env, w1, who, input, result);
  }

  lemma HolderSettles(env: Env, w: World, who: nat, input: Presentation, outcome: ClientOutcome)
    requires var payload := input.capability.payload;
             payload.nonce in w.rows && w.rows[payload.nonce] == LedgerRow(payload.requestSha, Reserved, None)
    ensures var payload := input.capability.payload;
            var w1 := w.(rows := w.rows[payload.nonce := SettledRow(payload.requestSha, outcome)]);
            Next(env, Held(w, who, input, Settling(outcome)), Settle(who))
            == Held(w1, who, input, Leaving(ResultFor(payload.requestSha, payload.nonce, outcome), true))
  {
    var payload := input.capability.payload;
    assert outcome.Escaped? ==> w.rows[payload.nonce := SettledRow(payload.requestSha, outcome)] == w.rows;
  }

  // Leaving with nothing uncommitted.
  lemma HolderLeaves(env: Env, w: World, who: nat, input: Presentation, result: ExecutionResult)
    requires Idle(w)
    ensures Next(env, Held(w, who, input, Leaving(result, true)), Leave(who))
         == w.(executions := w.executions[who := Execution(input, Finished(result))])
  {
  }

  lemma RefusedRejects(env: Env, w: World, who: nat, input: Presentation, reason: RefusalReason)
    requires Idle(w) && input.capability.payload.nonce !in w.rows
    ensures var payload := input.capability.payload;
            var h := Held(w, who, input, Refusing(reason));
            Next(env, Next(env, h, Step.ReserveNonce(who)), RejectRow(who))
            == Held(w.(rows := w.rows[payload.nonce := LedgerRow(payload.requestSha, Rejected, None)]), who, input,
                Recording(reason))
  {
    var payload := input.capability.payload;
    var w1 := w.(rows := w.rows[payload.nonce := LedgerRow(payload.requestSha, Reserved, None)]);
    var w2 := w.(rows := w.rows[payload.nonce := LedgerRow(payload.requestSha, Rejected, None)]);
    assert w1.rows[payload.nonce := LedgerRow(payload.requestSha, Rejected, None)] == w2.rows;
    assert Next(env, Held(w, who, input, Refusing(reason)), Step.ReserveNonce(who))
        == Held(w1, who, input, Consuming(reason));
  }

  lemma RefusalRecords(env: Env, w: World, who: nat, input: Presentation, reason: RefusalReason)
    requires Idle(w) && ValidPayload(input.capability.payload)
    ensures var (recorded, outcome) := Apply(env.hashEvent, w.registry, RefusalEvent(input, reason));
            outcome.Done? &&
            Next(env, Held(w, who, input, Recording(reason)), RecordEvent(who))
            == Held(w.(pending := recorded), who, input, Leaving(Refusal(reason), false))
  {
    var (recorded, outcome) := Apply(env.hashEvent, w.registry, RefusalEvent(input, reason));
    assert outcome.Done?;
    RecordingActs(env, w, who, input, reason, recorded, outcome);
  }

  lemma RecordingActs(env: Env, w: World, who: nat, input: Presentation, reason: RefusalReason, recorded: Registry,
                      outcome: Outcome)
    requires Idle(w) && outcome.Done?
    requires (recorded, outcome) == Apply(env.hashEvent, w.registry, RefusalEvent(input, reason))
    ensures Next(env, Held(w, who, input, Recording(reason)), RecordEvent(who))
            == Held(w.(pending := recorded), who, input, Leaving(Refusal(reason), false))
  {
    assert Consult(env, Held(w, who, input, Recording(reason)), RecordEvent(who)) == RegistrySays(recorded, outcome);
  }

  // Releasing with an uncommitted refusal commits it.
  lemma RefusalCommits(env: Env, w: World, who: nat, input: Presentation, reason: RefusalReason, recorded: Registry,
                       reply: Reply)
    requires Idle(w)
    ensures Closing(env, Held(w.(pending := recorded), who, input, Leaving(Refusal(reason), false)), who, reply)
            == w.(executions := w.executions[who := Execution(input, Finished(Refusal(reason)))],
                  registry := recorded, pending := recorded)
  {
    var h := Held(w.(pending := recorded), who, input, Leaving(Refusal(reason), false));
    assert Next(env, Next(env, Next(env, h, BeginCall(who)), ReturnCall(who, reply)), Settle(who)) == h;
  }

  // The world an uninterrupted execution must leave behind, given the executor's effect.
  ghost predicate HasEffect(w: World, w': World, who: nat, input: Presentation, reply: Reply, e: Effect) {
    && Represents(e.tables, w'.registry)
    && w'.rows == e.rows
    && w'.executions == w.executions[who := Execution(input, Finished(e.result))]
    && Idle(w')
    && w'.log == w.log + if e.sent == [] then [] else [CallBegan(input, e.sent[0]),
        CallReturned(input, Classify(reply, e.sent[0]))]
  }

  lemma DoesNothing(w: World, t: Tables, who: nat, input: Presentation, reply: Reply, result: ExecutionResult)
    requires Idle(w) && Represents(t, w.registry)
    ensures HasEffect(w, w.(executions := w.executions[who := Execution(input, Finished(result))]), who, input, reply,
                      NoEffect(t, w.rows, result))
  {
  }

  lemma GrantedMatches(env: Env, w: World, t: Tables, who: nat, input: Presentation, reply: Reply, w': World)
    requires Idle(w) && Represents(t, w.registry)
    requires w' == Closing(env, Deciding(env, Held(w, who, input, Granting), who), who, reply)
    ensures HasEffect(w, w', who, input, reply, EffectOf(env, t, w.rows, input, reply, Proceed))
  {
    var payload := input.capability.payload;
    if payload.nonce in w.rows {
      UsedNonceReleases(env, w, who, input, Granting, reply);
    } else {
      GrantedReserves(env, w, who, input);
      var reserved := w.(rows := w.rows[payload.nonce := LedgerRow(payload.requestSha, Reserved, None)]);
      HoldingSettles(env, reserved, who, input, reply);
      var row := SettledRow(payload.requestSha, Classify(reply, Rebuilt(env, input)));
      assert reserved.rows[payload.nonce := row] == w.rows[payload.nonce := row];
    }
  }

  lemma RefusedMatches(env: Env, w: World, t: Tables, who: nat, input: Presentation, reason: RefusalReason,
                       reply: Reply, w': World)
    requires Idle(w) && ValidPayload(input.capability.payload)
    requires CollisionFree(env.hashEvent) && Represents(t, w.registry) && Sound(env.hashEvent, w.registry)
    requires w' == Closing(env, Deciding(env, Held(w, who, input, Refusing(reason)), who), who, reply)
    ensures HasEffect(w, w', who, input, reply, EffectOf(env, t, w.rows, input, reply, RefuseAndConsume(reason)))
  {
    var payload := input.capability.payload;
    if payload.nonce in w.rows {
      UsedNonceReleases(env, w, who, input, Refusing(reason), reply);
    } else {
      var rejected := w.(rows := w.rows[payload.nonce := LedgerRow(payload.requestSha, Rejected, None)]);
      RefusedRejects(env, w, who, input, reason);
      RefusalRecords(env, rejected, who, input, reason);
      var recorded := Apply(env.hashEvent, w.registry, RefusalEvent(input, reason)).0;
      RefusalCommits(env, rejected, who, input, reason, recorded, reply);
      ApplyRefines(env.hashEvent, t, w.registry, RefusalEvent(input, reason));
    }
  }

  /**
   Left uninterrupted, the ten steps of one execution do what one call of the executor does: same ledger,
   same result, same request sent, and a registry that the executor's tables represent.
   */
  lemma UninterruptedMatchesExecutor(env: Env, w: World, t: Tables, who: nat, input: Presentation, reply: Reply)
    requires Idle(w) && who !in w.executions && MayPresent(env, w, input)
    requires CollisionFree(env.hashEvent) && Represents(t, w.registry) && Sound(env.hashEvent, w.registry)
    ensures HasEffect(w, Uninterrupted(env, w, who, input, reply), who, input, reply,
                      EffectOf(env, t, w.rows, input, reply, DecideOn(env, t, input)))
  {
    ReadsAgree(t, w.registry, input.capability.payload.mandateId);
    var verdict := DecideOn(env, t, input);
    assert verdict == VerdictFor(env, w.registry, Execution(input, Entered));
    OpeningReachesVerdict(env, w, who, input);
    var w' := Uninterrupted(env, w, who, input, reply);
    match verdict
    case RefuseEarly(reason) =>
      LeavingReleases(env, w, who, input, Refusal(reason), reply);
      DoesNothing(w, t, who, input, reply, Refusal(reason));
    case Raise =>
      LeavingReleases(env, w, who, input, Raised, reply);
      DoesNothing(w, t, who, input, reply, Raised);
    case Proceed => GrantedMatches(env, w, t, who, input, reply, w');
    case RefuseAndConsume(reason) => RefusedMatches(env, w, t, who, input, reason, reply, w');
  }
}
