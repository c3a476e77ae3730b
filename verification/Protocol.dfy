/**
 Many callers over one consent registry and one nonce ledger, as an interleaved step system. Executions
 take the guard, decide, reserve, call and settle in separate steps; issuers read, and consent owners
 register, revoke or supersede, in between. A step that is not enabled changes nothing, so every sequence
 of steps is a schedule.
 */
module Protocol {
  import opened Wrappers
  import opened Consent
  import opened SqlConsent
  import opened Capability
  import opened Gate
  import opened Ledger
  import opened Provider
  import opened Executor

  // Where one execution stands. From Entered to Leaving it holds the guard.
  datatype Phase =
    | Waiting
    | Entered
    | Refusing(reason: RefusalReason)     // consent is invalid; the nonce is about to be consumed
    | Consuming(reason: RefusalReason)    // reserved, about to be marked REJECTED
    | Recording(reason: RefusalReason)    // REJECTED, the refusal event is about to be written
    | Granting                            // all checks passed; the nonce is about to be reserved
    | Holding                             // reserved; the provider has not been called
    | Calling                             // the provider call is in flight
    | Settling(outcome: ClientOutcome)    // the client returned; the row is about to be marked
    | Leaving(result: ExecutionResult, audited: bool)
    | Finished(result: ExecutionResult)

  datatype Execution = Execution(input: Presentation, phase: Phase)
  {
    function Nonce(): string { input.capability.payload.nonce }
    function RequestSha(): Digest { input.capability.payload.requestSha }
    function Id(): MandateId { input.capability.payload.mandateId }
    function BoundVersion(): int { input.capability.payload.mandateVersion }
  }

  // What an outside observer could have written down, oldest first.
  datatype Observation =
    | CapabilityIssued(asked: IssueRequest, capability: Signed)
    | ConsentChanged(op: Op)
    | CallBegan(input: Presentation, request: OrderRequest)
    | CallReturned(input: Presentation, outcome: ClientOutcome)
    | Crashed(input: Presentation, midway: bool)

  // pending is the registry as the guard's holder sees it; registry is what has committed.
  datatype World = World(
    registry: Registry,
    pending: Registry,
    rows: LedgerTable,
    owner: Option<nat>,
    executions: map<nat, Execution>,
    log: seq<Observation>)

  const START := World(EMPTY_REGISTRY, EMPTY_REGISTRY, map[], None, map[], [])

  datatype Step =
    | Submit(who: nat, input: Presentation)
    | Acquire(who: nat)
    | GiveUp(who: nat)
    | Validate(who: nat)
    | ReserveNonce(who: nat)
    | RejectRow(who: nat)
    | RecordEvent(who: nat)
    | BeginCall(who: nat)
    | ReturnCall(who: nat, reply: Reply)
    | Settle(who: nat)
    | Leave(who: nat)
    | Crash(who: nat)
    | ChangeConsent(op: Op)
    | IssueCapability(asked: IssueRequest)

  function At(w: World, who: nat, phase: Phase): World
    requires who in w.executions
  {
    w.(executions := w.executions[who := w.executions[who].(phase := phase)])
  }

  predicate InGuard(phase: Phase) {
    !phase.Waiting? && !phase.Finished?
  }

  // The nonce is reserved or its refusal is uncommitted: a crash here leaves the row unaccounted.
  predicate Midway(phase: Phase) {
    phase.Consuming? || phase.Recording? || phase.Holding? || phase.Calling? || phase.Settling?
    || (phase.Leaving? && !phase.audited)
  }

  predicate WasIssued(log: seq<Observation>, payload: Payload) {
    exists i :: 0 <= i < |log| && log[i].CapabilityIssued? && log[i].capability.payload == payload
  }

  // Only the issuer holds the signing keys: a capability that verifies carries an issued payload.
  predicate MayPresent(env: Env, w: World, input: Presentation) {
    && ValidPayload(input.capability.payload)
    && (Verify(env, input.capability).Valid? ==> WasIssued(w.log, input.capability.payload))
  }

  function VerdictFor(env: Env, r: Registry, x: Execution): Verdict {
    Decide(env, x.input, AsLookup(Current(r, x.Id())), AsLookup(Version(r, x.Id(), x.BoundVersion())))
  }

  function Validated(w: World, who: nat, verdict: Verdict): World
    requires who in w.executions
  {
    match verdict
    case RefuseEarly(reason) => At(w, who, Leaving(Refusal(reason), true))
    case RefuseAndConsume(reason) => At(w, who, Refusing(reason))
    case Proceed => At(w, who, Granting)
    case Raise => At(w, who, Leaving(Raised, true))
  }

  function Reserving(w: World, who: nat, next: Phase): World
    requires who in w.executions
  {
    var x := w.executions[who];
    var (rows, reserved) := Reserve(w.rows, x.Nonce(), x.RequestSha());
    At(w.(rows := rows), who, if reserved then next else Leaving(Refusal(NonceAlreadyUsed), true))
  }

  function Marked(w: World, who: nat, status: RowStatus, orderId: Option<string>, result: ExecutionResult): World
    requires who in w.executions
  {
    var x := w.executions[who];
    var (rows, changed) := Transition(w.rows, x.Nonce(), x.RequestSha(), status, orderId);
    At(w.(rows := rows), who, Leaving(if changed then result else Failure(LedgerTransitionFailed, Reserved), true))
  }

  function Settled(w: World, who: nat, outcome: ClientOutcome): World
    requires who in w.executions
  {
    var x := w.executions[who];
    match outcome
    case Created(order) => Marked(w, who, Succeeded, Some(order.orderId), Receipt(x.RequestSha(), x.Nonce(), order))
    case ProviderRejected => Marked(w, who, Rejected, None, Failure(ProviderRefused, Rejected))
    case Ambiguous => Marked(w, who, Uncertain, None, Failure(OutcomeUncertain, Uncertain))
    case InvalidResponse => Marked(w, who, Uncertain, None, Failure(OutcomeUncertain, Uncertain))
    case Escaped => At(w, who, Leaving(Raised, true))
  }

  function Enter(w: World, who: nat): World
    requires who in w.executions
  {
    At(w.(owner := Some(who), pending := w.registry), who, Entered)
  }

  function Rejecting(w: World, who: nat, reason: RefusalReason): World
    requires who in w.executions
  {
    var x := w.executions[who];
    At(w.(rows := Transition(w.rows, x.Nonce(), x.RequestSha(), Rejected, None).0), who, Recording(reason))
  }

  function Recorded(w: World, who: nat, reason: RefusalReason, registry: Registry, outcome: Outcome): World
    requires who in w.executions
  {
    At(w.(pending := registry), who, Leaving(if outcome.Done? then Refusal(reason) else Raised, false))
  }

  function Called(w: World, who: nat, request: OrderRequest): World
    requires who in w.executions
  {
    At(w.(log := w.log + [CallBegan(w.executions[who].input, request)]), who, Calling)
  }

  function CallDone(w: World, who: nat, outcome: ClientOutcome): World
    requires who in w.executions
  {
    At(w.(log := w.log + [CallReturned(w.executions[who].input, outcome)]), who, Settling(outcome))
  }

  // Commit after a returned value, rollback after an exception.
  function Released(w: World, who: nat, result: ExecutionResult): World
    requires who in w.executions
  {
    var committed := if Returned(result) then w.pending else w.registry;
    At(w.(registry := committed, pending := committed, owner := None), who, Finished(result))
  }

  // The process running this execution dies: its open transaction rolls back, the ledger does not.
  function Died(w: World, who: nat): World
    requires who in w.executions
  {
    var x := w.executions[who];
    var w' := w.(executions := w.executions - {who}, log := w.log + [Crashed(x.input, Midway(x.phase))]);
    if w.owner == Some(who) then w'.(pending := w.registry, owner := None) else w'
  }

  function ConsentStep(w: World, op: Op, registry: Registry, outcome: Outcome): World {
    if outcome.Done?
    then w.(registry := registry, pending := registry, log := w.log + [ConsentChanged(op)])
    else w
  }

  function IssueStep(w: World, asked: IssueRequest, outcome: IssueOutcome): World {
    if outcome.Issued? then w.(log := w.log + [CapabilityIssued(asked, outcome.capability)]) else w
  }

  // The holder of the guard, if who is it and stands before the given kind of step.
  predicate Stands(w: World, who: nat) {
    who in w.executions && w.owner == Some(who)
  }

  // What the component a step consults returns.
  datatype Answer =
    | Nothing
    | Admissible
    | GateSays(verdict: Verdict)
    | RegistrySays(registry: Registry, outcome: Outcome)
    | ClientSends(request: OrderRequest)
    | ClientReturns(order: ClientOutcome)
    | IssuerSays(issue: IssueOutcome)

  function Consult(env: Env, w: World, step: Step): Answer {
    match step
    case Submit(who, input) => if MayPresent(env, w, input) then Admissible else Nothing
    case Validate(who) => if Stands(w, who) then GateSays(VerdictFor(env, w.pending, w.executions[who])) else Nothing
    case RecordEvent(who) =>
      if Stands(w, who) && w.executions[who].phase.Recording? then
        var (registry, outcome) := Apply(env.hashEvent, w.pending,
            RefusalEvent(w.executions[who].input, w.executions[who].phase.reason));
        RegistrySays(registry, outcome)
      else Nothing
    case BeginCall(who) => if Stands(w, who) then ClientSends(Rebuilt(env, w.executions[who].input)) else Nothing
    case ReturnCall(who, reply) =>
      if Stands(w, who) then ClientReturns(Classify(reply, Rebuilt(env, w.executions[who].input))) else Nothing
    case ChangeConsent(op) =>
      if op.RecordRefusal? then Nothing
      else
        var (registry, outcome) := Apply(env.hashEvent, w.registry, op);
        RegistrySays(registry, outcome)
    case IssueCapability(asked) => IssuerSays(Issue(env, w.registry, asked))
    case _ => Nothing
  }

  function Act(w: World, step: Step, answer: Answer): World {
    match step
    case Submit(who, input) =>
      if who !in w.executions && answer.Admissible?
      then w.(executions := w.executions[who := Execution(input, Waiting)]) else w
    case Acquire(who) =>
      if who in w.executions && w.executions[who].phase.Waiting? && w.owner.None? then Enter(w, who) else w
    case GiveUp(who) =>
      if who in w.executions && w.executions[who].phase.Waiting? && w.owner.Some?
      then At(w, who, Finished(GuardBusy)) else w
    case Validate(who) =>
      if Stands(w, who) && w.executions[who].phase.Entered? && answer.GateSays?
      then Validated(w, who, answer.verdict) else w
    case ReserveNonce(who) =>
      if Stands(w, who) && w.executions[who].phase.Refusing?
      then Reserving(w, who, Consuming(w.executions[who].phase.reason))
      else if Stands(w, who) && w.executions[who].phase.Granting? then Reserving(w, who, Holding)
      else w
    case RejectRow(who) =>
      if Stands(w, who) && w.executions[who].phase.Consuming?
      then Rejecting(w, who, w.executions[who].phase.reason) else w
    case RecordEvent(who) =>
      if Stands(w, who) && w.executions[who].phase.Recording? && answer.RegistrySays?
      then Recorded(w, who, w.executions[who].phase.reason, answer.registry, answer.outcome) else w
    case BeginCall(who) =>
      if Stands(w, who) && w.executions[who].phase.Holding? && answer.ClientSends?
      then Called(w, who, answer.request) else w
    case ReturnCall(who, _) =>
      if Stands(w, who) && w.executions[who].phase.Calling? && answer.ClientReturns?
      then CallDone(w, who, answer.order) else w
    case Settle(who) =>
      if Stands(w, who) && w.executions[who].phase.Settling?
      then Settled(w, who, w.executions[who].phase.outcome) else w
    case Leave(who) =>
      if Stands(w, who) && w.executions[who].phase.Leaving? then Released(w, who, w.executions[who].phase.result) else w
    case Crash(who) =>
      if who in w.executions then Died(w, who) else w
    case ChangeConsent(op) =>
      if w.owner.None? && answer.RegistrySays? then ConsentStep(w, op, answer.registry, answer.outcome) else w
    case IssueCapability(asked) =>
      if answer.IssuerSays? then IssueStep(w, asked, answer.issue) else w
  }

  function Next(env: Env, w: World, step: Step): World {
    Act(w, step, Consult(env, w, step))
  }

  /** The world after a schedule. */
  function After(env: Env, steps: seq<Step>): World {
    if steps == [] then START else Next(env, After(env, steps[..|steps| - 1]), steps[|steps| - 1])
  }
}
