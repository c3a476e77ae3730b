/** Gate and executor over the registry, the ledger and the order client: one guarded execution. */
module Executor {
  import opened Wrappers
  import opened Consent
  import opened SqlConsent
  import opened SqlRegistry
  import opened Capability
  import opened Gate
  import opened Ledger
  import opened Provider

  datatype FailureReason = ProviderRefused | OutcomeUncertain | LedgerTransitionFailed

  // Raised stands for any exception that is not an ExecutionError.
  datatype ExecutionResult =
    | GuardBusy
    | Refusal(reason: RefusalReason)
    | Receipt(requestSha: Digest, nonce: string, order: OrderResult)
    | Failure(cause: FailureReason, status: RowStatus)
    | Raised

  datatype GateResult =
    | Granted(request: OrderRequest, requestSha: Digest)
    | GateRefused(reason: RefusalReason)
    | GateRaised

  // The row a provider outcome leaves behind. An escaped error leaves the reservation.
  function SettledRow(requestSha: Digest, outcome: ClientOutcome): LedgerRow {
    match outcome
    case Created(order) => LedgerRow(requestSha, Succeeded, Some(order.orderId))
    case ProviderRejected => LedgerRow(requestSha, Rejected, None)
    case Ambiguous => LedgerRow(requestSha, Uncertain, None)
    case InvalidResponse => LedgerRow(requestSha, Uncertain, None)
    case Escaped => LedgerRow(requestSha, Reserved, None)
  }

  // What the caller of a granted execution gets once the row is settled.
  function ResultFor(requestSha: Digest, nonce: string, outcome: ClientOutcome): ExecutionResult {
    match outcome
    case Created(order) => Receipt(requestSha, nonce, order)
    case ProviderRejected => Failure(ProviderRefused, Rejected)
    case Ambiguous => Failure(OutcomeUncertain, Uncertain)
    case InvalidResponse => Failure(OutcomeUncertain, Uncertain)
    case Escaped => Raised
  }

  function DecideOn(env: Env, t: Tables, p: Presentation): Verdict {
    var payload := p.capability.payload;
    Decide(env, p, ReadCurrent(t, payload.mandateId), ReadRow(t, Key(payload.mandateId, payload.mandateVersion)))
  }

  function RefusalEvent(p: Presentation, reason: RefusalReason): Op {
    var payload := p.capability.payload;
    RecordRefusal(payload.mandateId, payload.mandateVersion, p.now, ReasonText(reason),
                  Evidence(payload.nonce, payload.requestSha, payload.resultSha))
  }

  // The consent part of the gate: at most two reads of the registry.
  method AssessConsent(registry: SqlMandateRegistry, p: Presentation) returns (verdict: Verdict)
    ensures var payload := p.capability.payload;
            verdict == ConsentVerdict(p, ReadCurrent(registry.Value(), payload.mandateId),
                                      ReadRow(registry.Value(), Key(payload.mandateId, payload.mandateVersion)))
  {
    var payload := p.capability.payload;
    var reason: Option<RefusalReason> := None;
    if payload.mandateId != Uuid(p.mandate.payload.uuid) {
      reason := Some(MandateIdMismatch);
    } else {
      var found := registry.GetCurrent(payload.mandateId);
      if found.Undecodable? {
        return Raise;
      }
      if found.Corrupt? {
        reason := Some(ConsentCorrupt);
      } else if found.Absent? {
        reason := Some(ConsentMissing);
      } else if found.state.version != payload.mandateVersion {
        var bound := registry.GetVersion(payload.mandateId, payload.mandateVersion);
        if bound.Undecodable? {
          return Raise;
        }
        var superseded := bound.Present? && bound.state.status.Superseded?;
        reason := Some(if superseded then ConsentSuperseded else ConsentVersionMismatch);
      } else if found.state.status.Revoked? {
        reason := Some(ConsentRevoked);
      } else if found.state.status.Superseded? {
        reason := Some(ConsentSuperseded);
      }
    }
    return if reason.Some? then RefuseAndConsume(reason.value) else Proceed;
  }

  // Consumes the nonce of a capability presented against invalid consent, then records the refusal.
  method ConsumeAndRecord(registry: SqlMandateRegistry, ledger: SqlExecutionLedger, p: Presentation,
                          reason: RefusalReason, requestSha: Digest)
    returns (result: GateResult)
    requires registry.inTransaction && requestSha == p.capability.payload.requestSha
    modifies registry, ledger
    ensures registry.inTransaction && registry.saved == old(registry.saved)
    ensures var nonce := p.capability.payload.nonce;
            if nonce in old(ledger.rows) then
              result == GateRefused(NonceAlreadyUsed) && ledger.rows == old(ledger.rows)
                  && registry.Value() == old(registry.Value())
            else
              var (recorded, outcome) := SqlApply(registry.hash, old(registry.Value()), RefusalEvent(p, reason));
              && ledger.rows == old(ledger.rows)[nonce := LedgerRow(requestSha, Rejected, None)]
              && registry.Value() == recorded
              && result == if outcome.Done? then GateRefused(reason) else GateRaised
  {
    var payload := p.capability.payload;
    var reserved := ledger.ReserveNonce(payload.nonce, requestSha);
    if !reserved {
      return GateRefused(NonceAlreadyUsed);
    }
    var _ := ledger.MarkRejected(payload.nonce, requestSha);
    var outcome := registry.RecordExecutionRefusal(
      payload.mandateId, payload.mandateVersion, p.now, ReasonText(reason),
      Evidence(payload.nonce, requestSha, payload.resultSha), true);
    return if outcome.Done? then GateRefused(reason) else GateRaised;
  }

  // What the gate leaves behind and answers, once the verdict is known.
  function AfterGate(env: Env, t: Tables, rows: LedgerTable, p: Presentation, verdict: Verdict)
    : (Tables, LedgerTable, GateResult)
  {
    var nonce, sha := p.capability.payload.nonce, p.capability.payload.requestSha;
    match verdict
    case RefuseEarly(reason) => (t, rows, GateRefused(reason))
    case Raise => (t, rows, GateRaised)
    case Proceed =>
      if nonce in rows then (t, rows, GateRefused(NonceAlreadyUsed))
      else (t, rows[nonce := LedgerRow(sha, Reserved, None)], Granted(Rebuilt(env, p), sha))
    case RefuseAndConsume(reason) =>
      if nonce in rows then (t, rows, GateRefused(NonceAlreadyUsed))
      else
        var (recorded, outcome) := SqlApply(env.hashEvent, t, RefusalEvent(p, reason));
        (recorded, rows[nonce := LedgerRow(sha, Rejected, None)],
         if outcome.Done? then GateRefused(reason) else GateRaised)
  }

  method ValidateAndReserve(env: Env, registry: SqlMandateRegistry, ledger: SqlExecutionLedger, p: Presentation)
    returns (result: GateResult)
    requires registry.hash == env.hashEvent && registry.inTransaction
    modifies registry, ledger
    ensures registry.inTransaction && registry.saved == old(registry.saved)
    ensures (registry.Value(), ledger.rows, result)
            == AfterGate(env, old(registry.Value()), old(ledger.rows), p, DecideOn(env, old(registry.Value()), p))
  {
    var payload := p.capability.payload;
    EarlyChecksPassExactlyWhenBound(env, p);
    var early := FirstFailing(EarlyChecks(env, p));
    if early.Some? {
      return GateRefused(early.value);
    }
    var request := Rebuilt(env, p);
    var requestSha := env.hashRequest(request);
    var verdict := AssessConsent(registry, p);
    if verdict.Raise? {
      return GateRaised;
    }
    if verdict.RefuseAndConsume? {
      result := ConsumeAndRecord(registry, ledger, p, verdict.reason, requestSha);
      return;
    }
    var reserved := ledger.ReserveNonce(payload.nonce, requestSha);
    return if reserved then Granted(request, requestSha) else GateRefused(NonceAlreadyUsed);
  }

  // Marks the reserved row after the client returned or raised.
  method SettleOrder(ledger: SqlExecutionLedger, nonce: string, requestSha: Digest, outcome: ClientOutcome)
    returns (result: ExecutionResult)
    requires nonce in ledger.rows && ledger.rows[nonce] == LedgerRow(requestSha, Reserved, None)
    modifies ledger
    ensures ledger.rows == old(ledger.rows)[nonce := SettledRow(requestSha, outcome)]
    ensures result == ResultFor(requestSha, nonce, outcome)
  {
    match outcome
    case Created(order) =>
      var changed := ledger.MarkSucceeded(nonce, requestSha, order.orderId);
      return if changed then Receipt(requestSha, nonce, order) else Failure(LedgerTransitionFailed, Reserved);
    case ProviderRejected =>
      var changed := ledger.MarkRejected(nonce, requestSha);
      return if changed then Failure(ProviderRefused, Rejected) else Failure(LedgerTransitionFailed, Reserved);
    case Escaped =>
      return Raised;
    case _ =>
      var changed := ledger.MarkUncertain(nonce, requestSha);
      return if changed then Failure(OutcomeUncertain, Uncertain) else Failure(LedgerTransitionFailed, Reserved);
  }

  // Everything one guarded execution does.
  datatype Effect = Effect(tables: Tables, rows: LedgerTable, sent: seq<OrderRequest>, result: ExecutionResult)

  function NoEffect(t: Tables, rows: LedgerTable, result: ExecutionResult): Effect {
    Effect(t, rows, [], result)
  }

  function EffectOf(env: Env, t: Tables, rows: LedgerTable, p: Presentation, reply: Reply, verdict: Verdict): Effect {
    var nonce, sha := p.capability.payload.nonce, p.capability.payload.requestSha;
    match verdict
    case RefuseEarly(reason) => NoEffect(t, rows, Refusal(reason))
    case Raise => NoEffect(t, rows, Raised)
    case Proceed =>
      if nonce in rows then NoEffect(t, rows, Refusal(NonceAlreadyUsed))
      else
        var outcome := Classify(reply, Rebuilt(env, p));
        Effect(t, rows[nonce := SettledRow(sha, outcome)], [Rebuilt(env, p)], ResultFor(sha, nonce, outcome))
    case RefuseAndConsume(reason) =>
      if nonce in rows then NoEffect(t, rows, Refusal(NonceAlreadyUsed))
      else
        var (recorded, outcome) := SqlApply(env.hashEvent, t, RefusalEvent(p, reason));
        NoEffect(if outcome.Done? then recorded else t, rows[nonce := LedgerRow(sha, Rejected, None)],
                 if outcome.Done? then Refusal(reason) else Raised)
  }

  /**
   At most one request leaves, exactly when the gate proceeds and the nonce is fresh; its amount and currency are the
   presented transaction's, its receipt text the nonce's. Rows only settle, a receipt carries those three values,
   and LEDGER_TRANSITION_FAILED never occurs.
   */
  lemma OneExecution(env: Env, t: Tables, rows: LedgerTable, p: Presentation, reply: Reply, verdict: Verdict)
    ensures var e := EffectOf(env, t, rows, p, reply, verdict);
            var total, currency := p.transaction.payload.totalMinor, p.transaction.payload.orderCurrency;
            var nonce, sha := p.capability.payload.nonce, p.capability.payload.requestSha;
            && e.sent == (if verdict.Proceed? && nonce !in rows
                          then [OrderRequest(total, currency, env.receiptFor(nonce))] else [])
            && (e.sent != [] ==> e.tables == t)
            && Evolves(rows, e.rows)
            && (e.result.Failure? ==> !e.result.cause.LedgerTransitionFailed?)
            && (e.result.Receipt? ==>
                  var order := e.result.order;
                  && e.sent != [] && e.result.nonce == nonce && e.result.requestSha == sha
                  && order.amount == total && order.currency == currency && order.receipt == env.receiptFor(nonce)
                  && e.rows[nonce] == LedgerRow(sha, Succeeded, Some(order.orderId)))
  {
    CreatedExactlyWhen(reply, Rebuilt(env, p));
  }

  /**
   A granted execution settles by the provider's reply: a raised rejection or a complete response outside 2xx ends
   REJECTED, a 2xx reply that echoes the order under an id of 1 to 256 characters ends SUCCEEDED with a receipt, a
   longer id leaves the row RESERVED and raises, and every other reply ends UNCERTAIN. Only the row of the nonce is
   written, under the presented request hash.
   */
  lemma GrantedRowFollowsReply(env: Env, t: Tables, rows: LedgerTable, p: Presentation, reply: Reply)
    requires p.capability.payload.nonce !in rows
    ensures var nonce, sha := p.capability.payload.nonce, p.capability.payload.requestSha;
            var total, currency := p.transaction.payload.totalMinor, p.transaction.payload.orderCurrency;
            var request := OrderRequest(total, currency, env.receiptFor(nonce));
            var e := EffectOf(env, t, rows, p, reply, Proceed);
            && e.tables == t && nonce in e.rows && e.rows == rows[nonce := e.rows[nonce]]
            && if reply.RaisedRejection? || (reply.Response? && !(200 <= reply.code < 300)) then
                 e.rows[nonce] == LedgerRow(sha, Rejected, None) && e.result == Failure(ProviderRefused, Rejected)
               else if exists id :: MatchingOrder(reply, request, id) && 1 <= |id| <= 256 then
                 var id :| MatchingOrder(reply, request, id) && 1 <= |id| <= 256;
                 && e.rows[nonce] == LedgerRow(sha, Succeeded, Some(id))
                 && e.result == Receipt(sha, nonce, OrderResult(id, total, currency, env.receiptFor(nonce)))
               else if exists id :: MatchingOrder(reply, request, id) && |id| > 256 then
                 e.rows[nonce] == LedgerRow(sha, Reserved, None) && e.result == Raised
               else
                 e.rows[nonce] == LedgerRow(sha, Uncertain, None) && e.result == Failure(OutcomeUncertain, Uncertain)
  {
    var request := Rebuilt(env, p);
    RejectedOrAmbiguousExactlyWhen(reply, request);
    CreatedExactlyWhen(reply, request);
    EscapesExactlyWhen(reply, request);
  }

  /**
   An early refusal writes nothing and returns its reason, an undecodable row raises and writes nothing, and a used
   nonce is refused as used without writing, whether or not consent is in order.
   */
  lemma RefusalsWriteNothing(env: Env, t: Tables, rows: LedgerTable, p: Presentation, reply: Reply, verdict: Verdict)
    requires verdict.RefuseEarly? || verdict.Raise? || p.capability.payload.nonce in rows
    ensures var e := EffectOf(env, t, rows, p, reply, verdict);
            && e.tables == t && e.rows == rows && e.sent == []
            && e.result == if verdict.RefuseEarly? then Refusal(verdict.reason)
                           else if verdict.Raise? then Raised
                           else Refusal(NonceAlreadyUsed)
  {
  }

  // A refusal or a receipt is returned; everything else is an exception and rolls the guard back.
  predicate Returned(result: ExecutionResult) {
    result.Refusal? || result.Receipt?
  }

  // The registry tables while the guard is still held.
  function UncommittedTables(env: Env, t: Tables, rows: LedgerTable, p: Presentation, verdict: Verdict): Tables {
    if verdict.RefuseAndConsume? && p.capability.payload.nonce !in rows
    then SqlApply(env.hashEvent, t, RefusalEvent(p, verdict.reason)).0
    else t
  }

  // The gate's part of the whole effect, and what settling a grant adds.
  lemma GateThenSettle(env: Env, t: Tables, rows: LedgerTable, p: Presentation, reply: Reply, verdict: Verdict)
    ensures var (gated, reserved, gate) := AfterGate(env, t, rows, p, verdict);
            var e := EffectOf(env, t, rows, p, reply, verdict);
            var nonce, sha := p.capability.payload.nonce, p.capability.payload.requestSha;
            && gated == UncommittedTables(env, t, rows, p, verdict)
            && match gate
               case GateRaised => e.rows == reserved && e.sent == [] && e.result == Raised
               case GateRefused(reason) => e.rows == reserved && e.sent == [] && e.result == Refusal(reason)
               case Granted(request, requestSha) =>
                 var outcome := Classify(reply, request);
                 && requestSha == sha && nonce in reserved && reserved[nonce] == LedgerRow(sha, Reserved, None)
                 && e.rows == reserved[nonce := SettledRow(sha, outcome)]
                 && e.sent == [request] && e.result == ResultFor(sha, nonce, outcome)
  {
  }

  method ExecuteGuarded(env: Env, registry: SqlMandateRegistry, ledger: SqlExecutionLedger, client: OrdersClient,
                        p: Presentation, reply: Reply)
    returns (result: ExecutionResult)
    requires registry.hash == env.hashEvent && registry.inTransaction
    modifies registry, ledger, client
    ensures registry.inTransaction && registry.saved == old(registry.saved)
    ensures var verdict := DecideOn(env, old(registry.Value()), p);
            var e := EffectOf(env, old(registry.Value()), old(ledger.rows), p, reply, verdict);
            && registry.Value() == UncommittedTables(env, old(registry.Value()), old(ledger.rows), p, verdict)
            && ledger.rows == e.rows
            && client.sent == old(client.sent) + e.sent
            && result == e.result
  {
    GateThenSettle(env, registry.Value(), ledger.rows, p, reply, DecideOn(env, registry.Value(), p));
    var grant := ValidateAndReserve(env, registry, ledger, p);
    if grant.GateRaised? {
      return Raised;
    }
    if grant.GateRefused? {
      return Refusal(grant.reason);
    }
    var outcome := client.CreateOrder(grant.request, reply);
    result := SettleOrder(ledger, p.capability.payload.nonce, grant.requestSha, outcome);
  }

  /** One call of the executor: a busy guard changes nothing; otherwise exactly the effect above. */
  method ExecuteOrder(env: Env, registry: SqlMandateRegistry, ledger: SqlExecutionLedger, client: OrdersClient,
                      p: Presentation, reply: Reply, lockFree: bool)
    returns (result: ExecutionResult)
    requires registry.hash == env.hashEvent && !registry.inTransaction
    modifies registry, ledger, client
    ensures !registry.inTransaction
    ensures var e := if lockFree
                     then EffectOf(env, old(registry.Value()), old(ledger.rows), p, reply,
                         DecideOn(env, old(registry.Value()), p))
                     else NoEffect(old(registry.Value()), old(ledger.rows), GuardBusy);
            && registry.Value() == e.tables
            && ledger.rows == e.rows
            && client.sent == old(client.sent) + e.sent
            && result == e.result
  {
    var begun := registry.Begin(lockFree);
    if !begun {
      return GuardBusy;
    }
    ghost var verdict := DecideOn(env, registry.Value(), p);
    CommittedTables(env, registry.Value(), ledger.rows, p, reply, verdict);
    result := ExecuteGuarded(env, registry, ledger, client, p, reply);
    registry.EndTransaction(Returned(result));
  }

  lemma CommittedTables(env: Env, t: Tables, rows: LedgerTable, p: Presentation, reply: Reply, verdict: Verdict)
    ensures var e := EffectOf(env, t, rows, p, reply, verdict);
            e.tables == if Returned(e.result) then UncommittedTables(env, t, rows, p, verdict) else t
  {
  }
}
