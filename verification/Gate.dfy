/** The execution gate: which presented capabilities may reach the provider. */
module Gate {
  import opened Wrappers
  import opened Consent
  import opened SqlConsent
  import opened Capability

  datatype Presentation = Presentation(
    capability: Signed,
    result: AuthorizationResult,
    mandate: Mandate,
    transaction: Transaction,
    now: Time)

  // A check that refuses with the given reason when it fails.
  datatype Check = Check(holds: bool, reason: RefusalReason)

  // The checks before consent is read, in the order they are made.
  function EarlyChecks(env: Env, p: Presentation): seq<Check> {
    SignatureAndActionChecks(env, p) + ContextChecks(env, p) + HashChecks(env, p)
  }

  function SignatureAndActionChecks(env: Env, p: Presentation): seq<Check> {
    var payload := p.capability.payload;
    [ Check(!Verify(env, p.capability).UnknownKey?, UnknownSigningKey),
      Check(Verify(env, p.capability).Valid?, SignatureInvalid),
      Check(!payload.action.Block?, AuthorizationBlocked),
      Check(!payload.action.Review?, AuthorizationReviewRequired),
      Check(!p.result.finalAction.Block?, AuthorizationBlocked),
      Check(!p.result.finalAction.Review?, AuthorizationReviewRequired) ]
  }

  function ContextChecks(env: Env, p: Presentation): seq<Check> {
    var payload := p.capability.payload;
    [ Check(p.now < payload.expiresAt, CapabilityExpired),
      Check(payload.issuedAt <= p.now + MAX_ISSUED_AT_FUTURE_SKEW, CapabilityNotYetValid),
      Check(payload.environment == env.config.environment, EnvironmentMismatch),
      Check(payload.audience == env.config.audience, AudienceMismatch),
      Check(payload.accountScope == env.config.accountScope, AccountScopeMismatch),
      Check(payload.merchantId == env.config.merchantId, MerchantMismatch),
      Check(p.transaction.payload.merchantId == env.config.merchantId, MerchantMismatch) ]
  }

  function HashChecks(env: Env, p: Presentation): seq<Check> {
    var payload := p.capability.payload;
    [ Check(env.hashMandate(p.mandate.payload) == payload.mandateSha, MandateHashMismatch),
      Check(env.hashResult(p.result) == payload.resultSha, AuthorizationResultHashMismatch),
      Check(env.hashTransaction(p.transaction.payload) == payload.transactionSha, TransactionHashMismatch),
      Check(env.hashRequest(Rebuilt(env, p)) == payload.requestSha, ExecutionRequestHashMismatch) ]
  }

  function Rebuilt(env: Env, p: Presentation): OrderRequest {
    BuildRequest(env, p.transaction, p.capability.payload.nonce)
  }

  /** The reason of the first failing check, if any. */
  function FirstFailing(checks: seq<Check>): Option<RefusalReason> {
    if checks == [] then None
    else if !checks[0].holds then Some(checks[0].reason)
    else FirstFailing(checks[1..])
  }

  lemma {:induction false} NoneFailing(checks: seq<Check>)
    ensures FirstFailing(checks).None? <==> forall i :: 0 <= i < |checks| ==> checks[i].holds
  {
    if checks != [] {
      var rest := checks[1..];
      NoneFailing(rest);
      assert forall i :: 1 <= i < |checks| ==> checks[i] == rest[i - 1];
      assert forall i :: 0 <= i < |rest| ==> rest[i] == checks[1 + i];
    }
  }

  // Raise stands for the ValueError of a stored row that does not decode.
  datatype Verdict =
    | RefuseEarly(reason: RefusalReason)
    | RefuseAndConsume(reason: RefusalReason)
    | Proceed
    | Raise

  // The consent check, given what the two reads of the registry return.
  function ConsentVerdict(p: Presentation, current: Lookup, bound: Lookup): Verdict {
    var payload := p.capability.payload;
    if payload.mandateId != Uuid(p.mandate.payload.uuid) then RefuseAndConsume(MandateIdMismatch)
    else if current.Undecodable? then Raise
    else if current.Corrupt? then RefuseAndConsume(ConsentCorrupt)
    else if current.Present? && current.state.version != payload.mandateVersion && bound.Undecodable? then Raise
    else
      var problem := ConsentProblem(RowOf(current), RowOf(bound), payload.mandateVersion);
      if problem.Some? then RefuseAndConsume(problem.value) else Proceed
  }

  function Decide(env: Env, p: Presentation, current: Lookup, bound: Lookup): Verdict {
    var early := FirstFailing(EarlyChecks(env, p));
    if early.Some? then RefuseEarly(early.value) else ConsentVerdict(p, current, bound)
  }

  // Every binding the gate recomputes, as one condition on the capability and its inputs.
  ghost predicate Bound(env: Env, p: Presentation) {
    var payload := p.capability.payload;
    && Verify(env, p.capability).Valid?
    && payload.action.Allow? && p.result.finalAction.Allow?
    && payload.issuedAt - MAX_ISSUED_AT_FUTURE_SKEW <= p.now < payload.expiresAt
    && payload.environment == env.config.environment
    && payload.audience == env.config.audience
    && payload.accountScope == env.config.accountScope
    && payload.merchantId == env.config.merchantId == p.transaction.payload.merchantId
    && payload.mandateSha == env.hashMandate(p.mandate.payload)
    && payload.resultSha == env.hashResult(p.result)
    && payload.transactionSha == env.hashTransaction(p.transaction.payload)
    && payload.requestSha == env.hashRequest(OrderRequest(
         p.transaction.payload.totalMinor, p.transaction.payload.orderCurrency, env.receiptFor(payload.nonce)))
  }

  // Checks made one list after the other.
  lemma {:induction false} FirstOfBoth(a: seq<Check>, b: seq<Check>)
    ensures FirstFailing(a + b) == if FirstFailing(a).Some? then FirstFailing(a) else FirstFailing(b)
  {
    if a == [] {
      assert a + b == b;
    } else {
      FirstOfBoth(a[1..], b);
      assert (a + b)[1..] == a[1..] + b;
    }
  }

  lemma EarlyChecksInParts(env: Env, p: Presentation)
    ensures var first := FirstFailing(SignatureAndActionChecks(env, p));
            var second := FirstFailing(ContextChecks(env, p));
            FirstFailing(EarlyChecks(env, p)) ==
              if first.Some? then first else if second.Some? then second else FirstFailing(HashChecks(env, p))
  {
    FirstOfBoth(SignatureAndActionChecks(env, p) + ContextChecks(env, p), HashChecks(env, p));
    FirstOfBoth(SignatureAndActionChecks(env, p), ContextChecks(env, p));
  }

  lemma EarlyChecksPassExactlyWhenBound(env: Env, p: Presentation)
    ensures FirstFailing(EarlyChecks(env, p)).None? <==> Bound(env, p)
  {
    EarlyChecksInParts(env, p);
    SignatureAndActionsPass(env, p);
    ContextPasses(env, p);
    HashesPass(env, p);
  }

  lemma SignatureAndActionsPass(env: Env, p: Presentation)
    ensures FirstFailing(SignatureAndActionChecks(env, p)).None? <==>
              Verify(env, p.capability).Valid? && p.capability.payload.action.Allow? && p.result.finalAction.Allow?
  {
    var checks := SignatureAndActionChecks(env, p);
    NoneFailing(checks);
    assert checks[0].holds && checks[1].holds <==> Verify(env, p.capability).Valid?;
    assert checks[2].holds && checks[3].holds <==> p.capability.payload.action.Allow?;
    assert checks[4].holds && checks[5].holds <==> p.result.finalAction.Allow?;
  }

  lemma ContextPasses(env: Env, p: Presentation)
    ensures var payload := p.capability.payload;
            FirstFailing(ContextChecks(env, p)).None? <==>
              && payload.issuedAt - MAX_ISSUED_AT_FUTURE_SKEW <= p.now < payload.expiresAt
              && payload.environment == env.config.environment
              && payload.audience == env.config.audience
              && payload.accountScope == env.config.accountScope
              && payload.merchantId == env.config.merchantId == p.transaction.payload.merchantId
  {
    var checks := ContextChecks(env, p);
    NoneFailing(checks);
    assert (forall i :: 0 <= i < |checks| ==> checks[i].holds) <==>
      (checks[0].holds && checks[1].holds && checks[2].holds && checks[3].holds && checks[4].holds && checks[5].holds
       && checks[6].holds);
  }

  lemma HashesPass(env: Env, p: Presentation)
    ensures var payload := p.capability.payload;
            FirstFailing(HashChecks(env, p)).None? <==>
              && payload.mandateSha == env.hashMandate(p.mandate.payload)
              && payload.resultSha == env.hashResult(p.result)
              && payload.transactionSha == env.hashTransaction(p.transaction.payload)
              && payload.requestSha == env.hashRequest(Rebuilt(env, p))
  {
    var checks := HashChecks(env, p);
    NoneFailing(checks);
    assert (forall i :: 0 <= i < |checks| ==> checks[i].holds) <==>
      (checks[0].holds && checks[1].holds && checks[2].holds && checks[3].holds);
  }

  /** The gate lets a presentation through exactly when it is bound and its consent is current and ACTIVE. */
  lemma ProceedsExactlyWhen(env: Env, p: Presentation, r: Registry)
    ensures var payload := p.capability.payload;
            Decide(env, p, AsLookup(Current(r, payload.mandateId)),
                AsLookup(Version(r, payload.mandateId, payload.mandateVersion))).Proceed?
            <==> && Bound(env, p)
                 && payload.mandateId == Uuid(p.mandate.payload.uuid)
                 && ActiveAt(r, payload.mandateId, payload.mandateVersion)
  {
    EarlyChecksPassExactlyWhenBound(env, p);
  }

  /** Refusals before the consent check never consume the nonce; expiry is one of them. */
  lemma ExpiryPrecedesConsent(env: Env, p: Presentation, current: Lookup, bound: Lookup)
    requires p.now >= p.capability.payload.expiresAt
    ensures Decide(env, p, current, bound).RefuseEarly?
  {
    EarlyChecksPassExactlyWhenBound(env, p);
  }

  /**
   Issuer and gate agree: a capability presented with the inputs it was issued from, under a known
   key, passes exactly inside its window while its mandate version is still current and ACTIVE.
   */
  lemma IssuedCapabilityPassesExactlyWhen(env: Env, atIssue: Registry, q: IssueRequest, p: Presentation, r: Registry)
    requires Issue(env, atIssue, q).Issued? && p.capability == Issue(env, atIssue, q).capability
    requires p.result == q.result && p.mandate == q.scenario.mandate && p.transaction == q.scenario.transaction
    requires q.keyId in env.keys && env.keys[q.keyId] == q.key
    ensures var payload := p.capability.payload;
            Decide(env, p, AsLookup(Current(r, payload.mandateId)),
                AsLookup(Version(r, payload.mandateId, payload.mandateVersion))).Proceed?
            <==> && q.issuedAt - MAX_ISSUED_AT_FUTURE_SKEW <= p.now < q.expiresAt
                 && ActiveAt(r, Uuid(q.scenario.mandate.payload.uuid), q.version)
  {
    IssuedExactlyWhen(env, atIssue, q);
    ProceedsExactlyWhen(env, p, r);
  }
}
