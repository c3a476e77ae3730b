/**
 Serialisability: whatever the interleaving, registry and ledger are what consent changes and whole executions of
 the executor leave when they are done one after the other, and every execution returns what its own turn returned.
 */
module ProtocolSerial {
  import opened Wrappers
  import opened Consent
  import opened ConsentHistory
  import opened ConsentOutcomes
  import opened SqlConsent
  import opened ConsentRefinement
  import opened Capability
  import opened Gate
  import opened Ledger
  import opened Provider
  import opened Executor
  import opened Protocol
  import opened ProtocolInvariants
  import ProtocolTheorems

  // What is committed when nobody holds the guard.
  datatype Books = Books(registry: Registry, rows: LedgerTable)

  datatype Served = Served(books: Books, sent: seq<OrderRequest>, result: ExecutionResult)

  function VerdictOn(env: Env, r: Registry, input: Presentation): Verdict {
    VerdictFor(env, r, Execution(input, Entered))
  }

  // One whole execution on the books, given the verdict: what EffectOf says, over the registry's values.
  function ServeWith(env: Env, b: Books, input: Presentation, reply: Reply, verdict: Verdict): Served {
    var nonce, sha := input.capability.payload.nonce, input.capability.payload.requestSha;
    match verdict
    case RefuseEarly(reason) => Served(b, [], Refusal(reason))
    case Raise => Served(b, [], Raised)
    case Proceed =>
      if nonce in b.rows then Served(b, [], Refusal(NonceAlreadyUsed))
      else
        var outcome := Classify(reply, Rebuilt(env, input));
        Served(b.(rows := b.rows[nonce := SettledRow(sha, outcome)]), [Rebuilt(env, input)],
            ResultFor(sha, nonce, outcome))
    case RefuseAndConsume(reason) =>
      if nonce in b.rows then Served(b, [], Refusal(NonceAlreadyUsed))
      else
        var (recorded, outcome) := Apply(env.hashEvent, b.registry, RefusalEvent(input, reason));
        Served(Books(if outcome.Done? then recorded else b.registry, b.rows[nonce := LedgerRow(sha, Rejected, None)]),
               [],
               if outcome.Done? then Refusal(reason) else Raised)
  }

  function ServeOn(env: Env, b: Books, input: Presentation, reply: Reply): Served {
    ServeWith(env, b, input, reply, VerdictOn(env, b.registry, input))
  }

  // The effect and the turn agree: same ledger, requests and result, and tables that represent the registry.
  ghost predicate Agree(e: Effect, s: Served) {
    Represents(e.tables, s.books.registry) && e.rows == s.books.rows && e.sent == s.sent && e.result == s.result
  }

  // What is committed of a refusal, on either side.
  lemma RefusalCommitsAlike(t: Tables, r: Registry, sql: (Tables, Outcome), dict: (Registry, Outcome))
    requires Represents(t, r) && Represents(sql.0, dict.0) && sql.1 == dict.1
    ensures Represents(if sql.1.Done? then sql.0 else t, if dict.1.Done? then dict.0 else r)
  {
  }

  // The two executions, given what recording the refusal does on either side.
  lemma RefusalEffects(env: Env, t: Tables, b: Books, input: Presentation, reply: Reply, reason: RefusalReason,
                       sql: (Tables, Outcome), dict: (Registry, Outcome))
    requires sql == SqlApply(env.hashEvent, t, RefusalEvent(input, reason))
    requires dict == Apply(env.hashEvent, b.registry, RefusalEvent(input, reason)) && sql.1 == dict.1
    ensures var e := EffectOf(env, t, b.rows, input, reply, RefuseAndConsume(reason));
            var s := ServeWith(env, b, input, reply, RefuseAndConsume(reason));
            && e.rows == s.books.rows && e.sent == s.sent && e.result == s.result
            && if input.capability.payload.nonce in b.rows then e.tables == t && s.books.registry == b.registry
               else
                 && e.tables == (if sql.1.Done? then sql.0 else t)
                 && s.books.registry == if dict.1.Done? then dict.0 else b.registry
  {
  }

  lemma RefusalTurn(env: Env, t: Tables, b: Books, input: Presentation, reply: Reply, reason: RefusalReason)
    requires ValidPayload(input.capability.payload)
    requires CollisionFree(env.hashEvent) && Represents(t, b.registry) && Sound(env.hashEvent, b.registry)
    ensures Agree(EffectOf(env, t, b.rows, input, reply, RefuseAndConsume(reason)),
                  ServeWith(env, b, input, reply, RefuseAndConsume(reason)))
  {
    var op := RefusalEvent(input, reason);
    var sql, dict := SqlApply(env.hashEvent, t, op), Apply(env.hashEvent, b.registry, op);
    ApplyRefines(env.hashEvent, t, b.registry, op);
    RefusalCommitsAlike(t, b.registry, sql, dict);
    RefusalEffects(env, t, b, input, reply, reason, sql, dict);
  }

  // Nothing is recorded in the registry under any other verdict.
  lemma PlainTurn(env: Env, t: Tables, b: Books, input: Presentation, reply: Reply, verdict: Verdict)
    requires !verdict.RefuseAndConsume?
    ensures var e := EffectOf(env, t, b.rows, input, reply, verdict);
            var s := ServeWith(env, b, input, reply, verdict);
            && e.tables == t && s.books.registry == b.registry
            && e.rows == s.books.rows && e.sent == s.sent && e.result == s.result
  {
  }

  lemma TurnWithVerdict(env: Env, t: Tables, b: Books, input: Presentation, reply: Reply, verdict: Verdict)
    requires ValidPayload(input.capability.payload)
    requires CollisionFree(env.hashEvent) && Represents(t, b.registry) && Sound(env.hashEvent, b.registry)
    ensures Agree(EffectOf(env, t, b.rows, input, reply, verdict), ServeWith(env, b, input, reply, verdict))
  {
    if verdict.RefuseAndConsume? {
      RefusalTurn(env, t, b, input, reply, verdict.reason);
    } else {
      PlainTurn(env, t, b, input, reply, verdict);
    }
  }

  lemma VerdictsAgree(env: Env, t: Tables, r: Registry, input: Presentation)
    requires Represents(t, r) && Sound(env.hashEvent, r)
    ensures DecideOn(env, t, input) == VerdictOn(env, r, input)
  {
    ReadsAgree(t, r, input.capability.payload.mandateId);
  }

  /** A turn on the books is one call of the executor on tables that represent them. */
  lemma TurnIsExecution(env: Env, t: Tables, b: Books, input: Presentation, reply: Reply)
    requires ValidPayload(input.capability.payload)
    requires CollisionFree(env.hashEvent) && Represents(t, b.registry) && Sound(env.hashEvent, b.registry)
    ensures Agree(EffectOf(env, t, b.rows, input, reply, DecideOn(env, t, input)), ServeOn(env, b, input, reply))
  {
    VerdictsAgree(env, t, b.registry, input);
    TurnWithVerdict(env, t, b, input, reply, VerdictOn(env, b.registry, input));
  }

  /**
   The provider is asked exactly for a bound presentation of current, ACTIVE consent under a fresh nonce, and then once,
   for the presented transaction's total and currency under the nonce's receipt text; a receipt comes back exactly when
   the reply echoes that order under an id of 1 to 256 characters, and it carries the same three values.
   */
  lemma RequestLeavesExactlyWhen(env: Env, t: Tables, b: Books, input: Presentation, reply: Reply)
    requires Represents(t, b.registry) && Sound(env.hashEvent, b.registry)
    ensures var e := EffectOf(env, t, b.rows, input, reply, DecideOn(env, t, input));
            var payload := input.capability.payload;
            var request := OrderRequest(input.transaction.payload.totalMinor, input.transaction.payload.orderCurrency,
                env.receiptFor(payload.nonce));
            && (e.sent == [request] || e.sent == [])
            && (e.sent != [] <==> && Bound(env, input) && payload.nonce !in b.rows
                                  && payload.mandateId == Uuid(input.mandate.payload.uuid)
                                  && ActiveAt(b.registry, payload.mandateId, payload.mandateVersion))
            && (e.result.Receipt? <==>
                  e.sent != [] && exists id :: MatchingOrder(reply, request, id) && 1 <= |id| <= 256)
            && (e.result.Receipt? ==> ReceiptFor(e.result, payload, request))
  {
    VerdictsAgree(env, t, b.registry, input);
    ProceedsExactlyWhen(env, input, b.registry);
    RequestLeavesOnVerdict(env, t, b, input, reply, VerdictOn(env, b.registry, input));
  }

  lemma RequestLeavesOnVerdict(env: Env, t: Tables, b: Books, input: Presentation, reply: Reply, verdict: Verdict)
    ensures var e := EffectOf(env, t, b.rows, input, reply, verdict);
            var request := OrderRequest(input.transaction.payload.totalMinor, input.transaction.payload.orderCurrency,
                env.receiptFor(input.capability.payload.nonce));
            && (e.sent == [request] || e.sent == [])
            && (e.sent != [] <==> verdict.Proceed? && input.capability.payload.nonce !in b.rows)
            && (e.result.Receipt? <==>
                  e.sent != [] && exists id :: MatchingOrder(reply, request, id) && 1 <= |id| <= 256)
            && (e.result.Receipt? ==> ReceiptFor(e.result, input.capability.payload, request))
  {
    CreatedExactlyWhen(reply, Rebuilt(env, input));
  }

  // The receipt names the capability it was given for and carries the request's three values.
  predicate ReceiptFor(result: ExecutionResult, payload: Payload, request: OrderRequest)
    requires result.Receipt?
  {
    && result.nonce == payload.nonce && result.requestSha == payload.requestSha
    && result.order.amount == request.amount
    && result.order.currency == request.currency
    && result.order.receipt == request.receipt
  }

  /**
   A capability charges what it was issued for: whenever it is presented, with whatever inputs, the one request that
   leaves carries the issued transaction's total and currency and the issued nonce's receipt text, and so does the
   receipt.
   */
  lemma CapabilityChargesItsOrder(env: Env, atIssue: Registry, q: IssueRequest, t: Tables, b: Books,
                                  input: Presentation, reply: Reply)
    requires BindingHashes(env) && Represents(t, b.registry) && Sound(env.hashEvent, b.registry)
    requires Issue(env, atIssue, q).Issued? && input.capability.payload == Issue(env, atIssue, q).capability.payload
    ensures var e := EffectOf(env, t, b.rows, input, reply, DecideOn(env, t, input));
            var ordered := q.scenario.transaction.payload;
            var request := OrderRequest(ordered.totalMinor, ordered.orderCurrency, env.receiptFor(q.nonce));
            && (e.sent == [] || e.sent == [request])
            && (e.result.Receipt? ==> e.sent == [request] && ReceiptFor(e.result, input.capability.payload, request))
  {
    IssuedExactlyWhen(env, atIssue, q);
    RequestLeavesExactlyWhen(env, t, b, input, reply);
  }

  // The value of the reason a consent refusal is recorded with.
  ghost predicate RecordedAs(reason: RefusalReason, text: string) {
    || (reason == MandateIdMismatch && text == "MANDATE_ID_MISMATCH")
    || (reason == ConsentRevoked && text == "MANDATE_REVOKED")
    || (reason == ConsentSuperseded && text == "MANDATE_SUPERSEDED")
    || (reason == ConsentCorrupt && text == "MANDATE_STATE_CORRUPT")
    || (reason == ConsentMissing && text == "MANDATE_STATE_MISSING")
    || (reason == ConsentVersionMismatch && text == "MANDATE_VERSION_MISMATCH")
  }

  lemma ConsentRefusalText(p: Presentation, current: Lookup, bound: Lookup)
    ensures var verdict := ConsentVerdict(p, current, bound);
            verdict.RefuseAndConsume? ==> RecordedAs(verdict.reason, ReasonText(verdict.reason))
  {
  }

  // A refusal for want of consent, on the books: nothing but the row and one event.
  ghost predicate ConsumedOnly(env: Env, b: Books, input: Presentation, reason: RefusalReason, after: Books) {
    var payload := input.capability.payload;
    var current := Current(b.registry, payload.mandateId);
    var observed := if current.Some? then Some(current.value.status) else None;
    && after.rows == b.rows[payload.nonce := LedgerRow(payload.requestSha, Rejected, None)]
    && after.registry.states == b.registry.states && after.registry.current == b.registry.current
    && exists text :: RecordedAs(reason, text)
         && Records(env.hashEvent, b.registry.audit, after.registry.audit, payload.mandateId,
                [Entry(payload.mandateId, payload.mandateVersion, ExecutionRefused, observed, observed, input.now, text,
                     Some(Evidence(payload.nonce, payload.requestSha, payload.resultSha)))])
  }

  /**
   A capability presented under a fresh nonce against consent that is not what it binds is consumed: no request leaves,
   its row is REJECTED, the refusal is returned, and the one new event carries the reason, the clock, the nonce, the
   request and result hashes and the status observed.
   */
  lemma ConsentRefusalConsumes(env: Env, t: Tables, b: Books, input: Presentation, reply: Reply, reason: RefusalReason)
    requires ValidPayload(input.capability.payload) && input.capability.payload.nonce !in b.rows
    requires CollisionFree(env.hashEvent) && Represents(t, b.registry) && Sound(env.hashEvent, b.registry)
    requires DecideOn(env, t, input) == RefuseAndConsume(reason)
    ensures var e := EffectOf(env, t, b.rows, input, reply, DecideOn(env, t, input));
            && e.sent == [] && e.result == Refusal(reason)
            && exists after: Books :: Represents(e.tables, after.registry) && e.rows == after.rows
                 && ConsumedOnly(env, b, input, reason, after)
  {
    var payload := input.capability.payload;
    var s := ServeOn(env, b, input, reply);
    VerdictsAgree(env, t, b.registry, input);
    TurnIsExecution(env, t, b, input, reply);
    ConsentRefusalText(input, ReadCurrent(t, payload.mandateId),
        ReadRow(t, Key(payload.mandateId, payload.mandateVersion)));
    RefusalServed(env, b, input, reply, reason);
  }

  lemma RefusalServed(env: Env, b: Books, input: Presentation, reply: Reply, reason: RefusalReason)
    requires ValidPayload(input.capability.payload) && input.capability.payload.nonce !in b.rows
    requires Shaped(b.registry) && RecordedAs(reason, ReasonText(reason))
    ensures var s := ServeWith(env, b, input, reply, RefuseAndConsume(reason));
            s.sent == [] && s.result == Refusal(reason) && ConsumedOnly(env, b, input, reason, s.books)
  {
    var payload := input.capability.payload;
    CurrentIsPointed(b.registry, payload.mandateId);
    RefusalIsRecorded(env.hashEvent, b.registry, payload.mandateId, payload.mandateVersion, input.now,
        ReasonText(reason), Evidence(payload.nonce, payload.requestSha, payload.resultSha));
  }

  // ----- A serial history -----

  datatype Turn = Change(op: Op) | Service(who: nat, input: Presentation, reply: Reply)

  function TakeTurn(env: Env, b: Books, turn: Turn): Books {
    match turn
    case Change(op) => b.(registry := Apply(env.hashEvent, b.registry, op).0)
    case Service(_, input, reply) => ServeOn(env, b, input, reply).books
  }

  function InTurn(env: Env, turns: seq<Turn>): Books {
    if turns == [] then Books(EMPTY_REGISTRY, map[])
    else TakeTurn(env, InTurn(env, turns[..|turns| - 1]), turns[|turns| - 1])
  }

  lemma OneMoreTurn(env: Env, turns: seq<Turn>, turn: Turn)
    ensures InTurn(env, turns + [turn]) == TakeTurn(env, InTurn(env, turns), turn)
  {
    assert (turns + [turn])[..|turns|] == turns;
  }

  // Only consent owners take change turns, and every capability object is valid.
  predicate ValidTurn(turn: Turn) {
    match turn
    case Change(op) => !op.RecordRefusal?
    case Service(_, input, _) => ValidPayload(input.capability.payload)
  }

  predicate ValidTurns(turns: seq<Turn>) {
    forall i :: 0 <= i < |turns| ==> ValidTurn(turns[i])
  }

  // The same turns taken by the executor and the SQLite registry.
  function TakeSqlTurn(env: Env, b: (Tables, LedgerTable), turn: Turn): (Tables, LedgerTable) {
    match turn
    case Change(op) => (SqlApply(env.hashEvent, b.0, op).0, b.1)
    case Service(_, input, reply) =>
      var e := EffectOf(env, b.0, b.1, input, reply, DecideOn(env, b.0, input));
      (e.tables, e.rows)
  }

  function SqlInTurn(env: Env, turns: seq<Turn>): (Tables, LedgerTable) {
    if turns == [] then (EMPTY_TABLES, map[])
    else TakeSqlTurn(env, SqlInTurn(env, turns[..|turns| - 1]), turns[|turns| - 1])
  }

  lemma ServiceIsSound(env: Env, b: Books, input: Presentation, reply: Reply)
    requires Sound(env.hashEvent, b.registry)
    ensures Sound(env.hashEvent, ServeOn(env, b, input, reply).books.registry)
  {
    var verdict := VerdictOn(env, b.registry, input);
    if verdict.RefuseAndConsume? {
      ApplyKeepsShape(env.hashEvent, b.registry, RefusalEvent(input, verdict.reason));
      ApplyKeepsChain(env.hashEvent, b.registry, RefusalEvent(input, verdict.reason));
    }
  }

  /** Turn by turn, the executor on SQLite leaves tables that represent the books and the same ledger. */
  lemma {:induction false} TurnsAreExecutions(env: Env, turns: seq<Turn>)
    requires CollisionFree(env.hashEvent) && ValidTurns(turns)
    ensures Represents(SqlInTurn(env, turns).0, InTurn(env, turns).registry)
    ensures SqlInTurn(env, turns).1 == InTurn(env, turns).rows
    ensures Sound(env.hashEvent, InTurn(env, turns).registry)
  {
    if turns != [] {
      var before, turn := turns[..|turns| - 1], turns[|turns| - 1];
      assert forall i :: 0 <= i < |before| ==> before[i] == turns[i];
      TurnsAreExecutions(env, before);
      var b, t := InTurn(env, before), SqlInTurn(env, before);
      match turn
      case Change(op) =>
        ApplyRefines(env.hashEvent, t.0, b.registry, op);
        ApplyKeepsShape(env.hashEvent, b.registry, op);
        ApplyKeepsChain(env.hashEvent, b.registry, op);
      case Service(_, input, reply) =>
        assert ValidTurn(turn);
        TurnIsExecution(env, t.0, b, input, reply);
        ServiceIsSound(env, b, input, reply);
    }
  }

  // ----- An execution on its way -----

  // Where the holder stands, against the books it found; the reply matters once the provider has answered.
  predicate OnTrack(env: Env, b: Books, w: World, who: nat, reply: Reply, verdict: Verdict) {
    && who in w.executions && w.owner == Some(who) && w.registry == b.registry
    && var x := w.executions[who];
       match x.phase
       case Entered => w.pending == b.registry && w.rows == b.rows
       case Refusing(reason) => verdict == RefuseAndConsume(reason) && w.pending == b.registry && w.rows == b.rows
       case Consuming(reason) => verdict == RefuseAndConsume(reason) && w.pending == b.registry
           && Written(b, w, x, Reserved)
       case Recording(reason) => verdict == RefuseAndConsume(reason) && w.pending == b.registry
           && Written(b, w, x, Rejected)
       case Granting => verdict == Proceed && w.pending == b.registry && w.rows == b.rows
       case Holding => verdict == Proceed && w.pending == b.registry && Written(b, w, x, Reserved)
       case Calling => verdict == Proceed && w.pending == b.registry && Written(b, w, x, Reserved)
       case Settling(outcome) =>
         && verdict == Proceed && w.pending == b.registry && Written(b, w, x, Reserved)
         && outcome == Classify(reply, Rebuilt(env, x.input))
       case Leaving(result, _) => Ready(b, w, result, ServeWith(env, b, x.input, reply, verdict))
       case Waiting => false
       case Finished(_) => false
  }

  predicate Written(b: Books, w: World, x: Execution, status: RowStatus) {
    x.Nonce() !in b.rows && w.rows == b.rows[x.Nonce() := LedgerRow(x.RequestSha(), status, None)]
  }

  predicate Ready(b: Books, w: World, result: ExecutionResult, s: Served) {
    && result == s.result && w.rows == s.books.rows
    && (if Returned(result) then w.pending else b.registry) == s.books.registry
  }

  lemma ValidateOnTrack(env: Env, b: Books, w: World, who: nat, reply: Reply, verdict: Verdict)
    requires OnTrack(env, b, w, who, reply, verdict) && w.executions[who].phase.Entered?
    ensures OnTrack(env, b, Validated(w, who, verdict), who, reply, verdict)
  {
  }

  lemma ReserveOnTrack(env: Env, b: Books, w: World, who: nat, reply: Reply, verdict: Verdict, next: Phase)
    requires OnTrack(env, b, w, who, reply, verdict)
    requires var phase := w.executions[who].phase;
             if phase.Refusing? then next == Consuming(phase.reason) else phase.Granting? && next == Holding
    ensures OnTrack(env, b, Reserving(w, who, next), who, reply, verdict)
  {
  }

  lemma RejectOnTrack(env: Env, b: Books, w: World, who: nat, reply: Reply, verdict: Verdict)
    requires OnTrack(env, b, w, who, reply, verdict) && w.executions[who].phase.Consuming?
    ensures OnTrack(env, b, Rejecting(w, who, w.executions[who].phase.reason), who, reply, verdict)
  {
    var x := w.executions[who];
    var rejected := LedgerRow(x.RequestSha(), Rejected, None);
    assert w.rows[x.Nonce() := rejected] == b.rows[x.Nonce() := rejected];
  }

  lemma RecordOnTrack(env: Env, b: Books, w: World, who: nat, reply: Reply, verdict: Verdict)
    requires OnTrack(env, b, w, who, reply, verdict) && w.executions[who].phase.Recording?
    ensures var reason := w.executions[who].phase.reason;
            var (recorded, outcome) := Apply(env.hashEvent, w.pending, RefusalEvent(w.executions[who].input, reason));
            OnTrack(env, b, Recorded(w, who, reason, recorded, outcome), who, reply, verdict)
  {
  }

  lemma SettleOnTrack(env: Env, b: Books, w: World, who: nat, reply: Reply, verdict: Verdict)
    requires OnTrack(env, b, w, who, reply, verdict) && w.executions[who].phase.Settling?
    ensures OnTrack(env, b, Settled(w, who, w.executions[who].phase.outcome), who, reply, verdict)
  {
    var x := w.executions[who];
    var row := SettledRow(x.RequestSha(), x.phase.outcome);
    assert w.rows[x.Nonce() := row] == b.rows[x.Nonce() := row];
  }

  // The reply an execution is on track for, once a step is taken.
  function Heard(w: World, step: Step, reply: Reply): Reply {
    if step.ReturnCall? && Stands(w, step.who) && w.executions[step.who].phase.Calling? then step.reply else reply
  }

  lemma HolderStep(env: Env, b: Books, w: World, step: Step, who: nat, reply: Reply)
    requires Actor(step) == Some(who) && !step.Crash? && !step.Leave? && who in w.executions
    requires var verdict := VerdictOn(env, b.registry, w.executions[who].input); OnTrack(env, b, w, who, reply, verdict)
    ensures var verdict := VerdictOn(env, b.registry, w.executions[who].input);
            OnTrack(env, b, Next(env, w, step), who, Heard(w, step, reply), verdict)
    ensures Next(env, w, step).executions[who].input == w.executions[who].input
  {
    if BeforeTheCall(step) {
      DecidingStep(env, b, w, step, who, reply);
    } else {
      CallingStep(env, b, w, step, who, reply);
    }
  }

  lemma DecidingStep(env: Env, b: Books, w: World, step: Step, who: nat, reply: Reply)
    requires Actor(step) == Some(who) && BeforeTheCall(step) && who in w.executions
    requires var verdict := VerdictOn(env, b.registry, w.executions[who].input); OnTrack(env, b, w, who, reply, verdict)
    ensures var verdict := VerdictOn(env, b.registry, w.executions[who].input);
            OnTrack(env, b, Next(env, w, step), who, reply, verdict)
    ensures Next(env, w, step).executions[who].input == w.executions[who].input
  {
    var verdict := VerdictOn(env, b.registry, w.executions[who].input);
    var phase := w.executions[who].phase;
    if step.Validate? && phase.Entered? {
      assert Next(env, w, step) == Validated(w, who, verdict);
      ValidateOnTrack(env, b, w, who, reply, verdict);
    } else if step.ReserveNonce? && (phase.Refusing? || phase.Granting?) {
      var next := if phase.Refusing? then Consuming(phase.reason) else Holding;
      assert Next(env, w, step) == Reserving(w, who, next);
      ReserveOnTrack(env, b, w, who, reply, verdict, next);
    } else if step.RejectRow? && phase.Consuming? {
      assert Next(env, w, step) == Rejecting(w, who, phase.reason);
      RejectOnTrack(env, b, w, who, reply, verdict);
    } else if step.RecordEvent? && phase.Recording? {
      RecordOnTrack(env, b, w, who, reply, verdict);
    } else {
      assert Next(env, w, step) == w;
    }
  }

  // The world after the holder's step around the call.
  function Around(env: Env, w: World, step: Step, who: nat): World
    requires Stands(w, who)
  {
    var x := w.executions[who];
    if step.Settle? && x.phase.Settling? then Settled(w, who, x.phase.outcome)
    else if step.BeginCall? && x.phase.Holding? then Called(w, who, Rebuilt(env, x.input))
    else if step.ReturnCall? && x.phase.Calling? then CallDone(w, who, Classify(step.reply, Rebuilt(env, x.input)))
    else w
  }

  lemma NextIsAround(env: Env, w: World, step: Step, who: nat)
    requires Stands(w, who) && InGuard(w.executions[who].phase)
    requires Actor(step) == Some(who) && !BeforeTheCall(step) && !step.Crash? && !step.Leave?
    ensures Next(env, w, step) == Around(env, w, step, who)
  {
  }

  lemma AroundOnTrack(env: Env, b: Books, w: World, step: Step, who: nat, reply: Reply, verdict: Verdict)
    requires OnTrack(env, b, w, who, reply, verdict)
    ensures var w' := Around(env, w, step, who);
            var heard := if step.ReturnCall? && w.executions[who].phase.Calling? then step.reply else reply;
            OnTrack(env, b, w', who, heard, verdict)
    ensures Around(env, w, step, who).executions[who].input == w.executions[who].input
  {
    var x := w.executions[who];
    if step.Settle? && x.phase.Settling? {
      SettleOnTrack(env, b, w, who, reply, verdict);
    } else if step.BeginCall? && x.phase.Holding? {
      CallOnTrack(env, b, w, who, reply, verdict, Rebuilt(env, x.input));
    } else if step.ReturnCall? && x.phase.Calling? {
      ReturnOnTrack(env, b, w, who, step.reply, verdict, Classify(step.reply, Rebuilt(env, x.input)));
    }
  }

  lemma CallingStep(env: Env, b: Books, w: World, step: Step, who: nat, reply: Reply)
    requires Actor(step) == Some(who) && !BeforeTheCall(step) && !step.Crash? && !step.Leave? && who in w.executions
    requires var verdict := VerdictOn(env, b.registry, w.executions[who].input); OnTrack(env, b, w, who, reply, verdict)
    ensures var verdict := VerdictOn(env, b.registry, w.executions[who].input);
            OnTrack(env, b, Next(env, w, step), who, Heard(w, step, reply), verdict)
    ensures Next(env, w, step).executions[who].input == w.executions[who].input
  {
    NextIsAround(env, w, step, who);
    AroundOnTrack(env, b, w, step, who, reply, VerdictOn(env, b.registry, w.executions[who].input));
  }

  lemma CallOnTrack(env: Env, b: Books, w: World, who: nat, reply: Reply, verdict: Verdict, request: OrderRequest)
    requires OnTrack(env, b, w, who, reply, verdict) && w.executions[who].phase.Holding?
    ensures OnTrack(env, b, Called(w, who, request), who, reply, verdict)
  {
  }

  lemma ReturnOnTrack(env: Env, b: Books, w: World, who: nat, reply: Reply, verdict: Verdict, outcome: ClientOutcome)
    requires OnTrack(env, b, w, who, reply, verdict) && w.executions[who].phase.Calling?
    requires outcome == Classify(reply, Rebuilt(env, w.executions[who].input))
    ensures OnTrack(env, b, CallDone(w, who, outcome), who, reply, verdict)
  {
  }

  predicate BeforeTheCall(step: Step) {
    step.Validate? || step.ReserveNonce? || step.RejectRow? || step.RecordEvent?
  }

  lemma LeaveTakesTurn(env: Env, b: Books, w: World, who: nat, reply: Reply)
    requires who in w.executions && w.executions[who].phase.Leaving?
    requires OnTrack(env, b, w, who, reply, VerdictOn(env, b.registry, w.executions[who].input))
    ensures var x := w.executions[who];
            var w' := Released(w, who, x.phase.result);
            var s := ServeOn(env, b, x.input, reply);
            && Books(w'.registry, w'.rows) == s.books && w'.pending == w'.registry && w'.owner.None?
            && w'.executions == w.executions[who := Execution(x.input, Finished(s.result))]
  {
  }

  // ----- Every run is a serial history -----

  // What the finished execution returned is what its own turn returned.
  ghost predicate ServedAt(env: Env, turns: seq<Turn>, i: nat, who: nat, x: Execution) {
    && i < |turns| && turns[i].Service? && turns[i].who == who && turns[i].input == x.input
    && x.phase == Finished(ServeOn(env, InTurn(env, turns[..i]), x.input, turns[i].reply).result)
  }

  ghost predicate ResultsServed(env: Env, executions: map<nat, Execution>, turns: seq<Turn>) {
    forall who :: who in executions && executions[who].phase.Finished? && !executions[who].phase.result.GuardBusy? ==>
      exists i: nat :: ServedAt(env, turns, i, who, executions[who])
  }

  ghost predicate Serialized(env: Env, w: World, turns: seq<Turn>, reply: Reply) {
    var b := InTurn(env, turns);
    && ValidTurns(turns) && ResultsServed(env, w.executions, turns)
    && match w.owner
       case None => Books(w.registry, w.rows) == b && w.pending == w.registry
       case Some(who) => who in w.executions && OnTrack(env, b, w, who, reply,
           VerdictOn(env, b.registry, w.executions[who].input))
  }

  lemma ServiceStays(env: Env, executions: map<nat, Execution>, turns: seq<Turn>, turn: Turn)
    requires ResultsServed(env, executions, turns)
    ensures ResultsServed(env, executions, turns + [turn])
  {
    forall who | who in executions && executions[who].phase.Finished? && !executions[who].phase.result.GuardBusy?
      ensures exists i: nat :: ServedAt(env, turns + [turn], i, who, executions[who])
    {
      var i: nat :| ServedAt(env, turns, i, who, executions[who]);
      assert (turns + [turn])[..i] == turns[..i];
      assert ServedAt(env, turns + [turn], i, who, executions[who]);
    }
  }

  // Steps that leave the books and the holder alone finish no execution, except those that give up.
  ghost predicate Bystanding(w: World, w': World) {
    && w'.registry == w.registry && w'.pending == w.pending && w'.rows == w.rows && w'.owner == w.owner
    && (w.owner.Some? && w.owner.value in w.executions ==>
          w.owner.value in w'.executions && w'.executions[w.owner.value] == w.executions[w.owner.value])
    && forall who ::
         who in w'.executions && w'.executions[who].phase.Finished? && !w'.executions[who].phase.result.GuardBusy? ==>
         who in w.executions && w.executions[who] == w'.executions[who]
  }

  lemma BystandingKeeps(env: Env, w: World, w': World, turns: seq<Turn>, reply: Reply)
    requires Serialized(env, w, turns, reply) && Bystanding(w, w')
    ensures Serialized(env, w', turns, reply)
  {
  }

  // Neither the holder's own step, nor a crash of the holder, nor the taking of the guard, nor a consent change.
  predicate ByOther(w: World, step: Step) {
    if w.owner.Some? then Actor(step) != w.owner else !step.Acquire? && !step.ChangeConsent?
  }

  lemma OthersStandBy(env: Env, w: World, step: Step)
    requires ByOther(w, step)
    ensures Bystanding(w, Next(env, w, step))
  {
  }

  lemma AcquireStarts(env: Env, w: World, who: nat, turns: seq<Turn>, reply: Reply)
    requires Serialized(env, w, turns, reply) && w.owner.None?
    ensures Serialized(env, Next(env, w, Acquire(who)), turns, reply)
  {
  }

  lemma ChangeTakesTurn(env: Env, w: World, op: Op, turns: seq<Turn>, reply: Reply) returns (turns': seq<Turn>)
    requires Serialized(env, w, turns, reply) && w.owner.None?
    ensures Serialized(env, Next(env, w, ChangeConsent(op)), turns', reply)
    ensures turns <= turns'
  {
    if op.RecordRefusal? || !Apply(env.hashEvent, w.registry, op).1.Done? {
      turns' := turns;
    } else {
      turns' := turns + [Change(op)];
      OneMoreTurn(env, turns, Change(op));
      ServiceStays(env, w.executions, turns, Change(op));
    }
  }

  lemma LeaveEndsTurn(env: Env, w: World, who: nat, turns: seq<Turn>, reply: Reply) returns (turns': seq<Turn>)
    requires Serialized(env, w, turns, reply) && w.owner == Some(who)
    requires ValidPayload(w.executions[who].input.capability.payload)
    ensures Serialized(env, Next(env, w, Leave(who)), turns', reply)
    ensures turns <= turns'
  {
    var x := w.executions[who];
    if !x.phase.Leaving? {
      turns' := turns;
    } else {
      var b := InTurn(env, turns);
      var turn := Service(who, x.input, reply);
      turns' := turns + [turn];
      LeaveTakesTurn(env, b, w, who, reply);
      OneMoreTurn(env, turns, turn);
      ServiceStays(env, w.executions, turns, turn);
      assert turns'[..|turns|] == turns;
      var done := Execution(x.input, Finished(ServeOn(env, b, x.input, reply).result));
      assert ServedAt(env, turns', |turns|, who, done);
      OneMoreServed(env, w.executions, turns', |turns|, who, done);
    }
  }

  lemma OneMoreServed(env: Env, executions: map<nat, Execution>, turns: seq<Turn>, i: nat, who: nat, done: Execution)
    requires ResultsServed(env, executions, turns) && ServedAt(env, turns, i, who, done)
    ensures ResultsServed(env, executions[who := done], turns)
  {
    var executions' := executions[who := done];
    forall other | other in executions' && executions'[other].phase.Finished?
        && !executions'[other].phase.result.GuardBusy?
      ensures exists j: nat :: ServedAt(env, turns, j, other, executions'[other])
    {
      if other != who {
        assert executions'[other] == executions[other];
      }
    }
  }

  lemma HolderKeeps(env: Env, w: World, step: Step, who: nat, turns: seq<Turn>, reply: Reply)
    requires Serialized(env, w, turns, reply) && w.owner == Some(who)
    requires Actor(step) == Some(who) && !step.Crash? && !step.Leave?
    ensures Serialized(env, Next(env, w, step), turns, Heard(w, step, reply))
  {
    HolderStep(env, InTurn(env, turns), w, step, who, reply);
    HolderFinishesNothing(env, w, step, who);
  }

  lemma HolderFinishesNothing(env: Env, w: World, step: Step, who: nat)
    requires Stands(w, who) && Actor(step) == Some(who) && !step.Crash? && !step.Leave?
             && InGuard(w.executions[who].phase)
    ensures var w' := Next(env, w, step);
            forall other :: other in w'.executions && w'.executions[other].phase.Finished? ==>
              other in w.executions && w.executions[other] == w'.executions[other]
  {
    var w' := Next(env, w, step);
    forall other | other in w'.executions && w'.executions[other].phase.Finished?
      ensures other in w.executions && w.executions[other] == w'.executions[other]
    {
      if other == who {
        HolderStaysIn(w, step, Consult(env, w, step), who);
      } else {
        OthersStand(w, step, Consult(env, w, step), other);
      }
    }
  }

  lemma HolderStaysIn(w: World, step: Step, answer: Answer, who: nat)
    requires Stands(w, who) && Actor(step) == Some(who) && InGuard(w.executions[who].phase)
    requires !step.Crash? && !step.Leave?
    ensures who in Act(w, step, answer).executions && !Act(w, step, answer).executions[who].phase.Finished?
  {
  }

  // No step of the schedule kills the execution that holds the guard.
  ghost predicate HoldersSurvive(env: Env, steps: seq<Step>) {
    forall i :: 0 <= i < |steps| && steps[i].Crash? ==> After(env, steps[..i]).owner != Some(steps[i].who)
  }

  lemma SerialStep(env: Env, w: World, step: Step, turns: seq<Turn>, reply: Reply)
    returns (turns': seq<Turn>, reply': Reply)
    requires Serialized(env, w, turns, reply) && !(step.Crash? && w.owner == Some(step.who))
    requires AllJustified(env, w)
    ensures Serialized(env, Next(env, w, step), turns', reply')
    ensures turns <= turns'
  {
    turns', reply' := turns, reply;
    if ByOther(w, step) {
      OthersStandBy(env, w, step);
      BystandingKeeps(env, w, Next(env, w, step), turns, reply);
    } else if w.owner.None? {
      if step.Acquire? {
        AcquireStarts(env, w, step.who, turns, reply);
      } else {
        turns' := ChangeTakesTurn(env, w, step.op, turns, reply);
      }
    } else if step.Leave? {
      assert Justified(env, w.log, w.executions[step.who]);
      turns' := LeaveEndsTurn(env, w, step.who, turns, reply);
    } else {
      HolderKeeps(env, w, step, step.who, turns, reply);
      reply' := Heard(w, step, reply);
    }
  }

  lemma {:induction false} Serialisable(env: Env, steps: seq<Step>) returns (turns: seq<Turn>, reply: Reply)
    requires HoldersSurvive(env, steps)
    ensures Serialized(env, After(env, steps), turns, reply)
  {
    if steps == [] {
      turns, reply := [], NotAResponse;
    } else {
      var most, step := steps[..|steps| - 1], steps[|steps| - 1];
      forall i | 0 <= i < |most| && most[i].Crash? ensures After(env, most[..i]).owner != Some(most[i].who) {
        assert most[..i] == steps[..i];
      }
      turns, reply := Serialisable(env, most);
      ProtocolTheorems.Reachable(env, most);
      turns, reply := SerialStep(env, After(env, most), step, turns, reply);
    }
  }

  /**
   Unless an execution dies inside the guard, every schedule that leaves the guard free amounts to a serial history of
   consent changes and whole executions: the same registry and ledger, and each execution returned what its turn
   returns.
   */
  lemma EveryRunIsSerial(env: Env, steps: seq<Step>)
    requires HoldersSurvive(env, steps) && After(env, steps).owner.None?
    ensures var w := After(env, steps);
            exists turns :: ValidTurns(turns) && InTurn(env, turns) == Books(w.registry, w.rows)
              && ResultsServed(env, w.executions, turns)
  {
    var turns, reply := Serialisable(env, steps);
    assert InTurn(env, turns) == Books(After(env, steps).registry, After(env, steps).rows);
  }
}
