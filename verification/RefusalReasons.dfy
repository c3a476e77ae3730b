/**
 What a refusal reason says: each reason the gate or the issuer gives names a condition that fails, a lone failing
 condition is the one named, and what is decided first hides what is decided later.
 */
module RefusalReasons {
  import opened Wrappers
  import opened Consent
  import opened ConsentHistory
  import opened ConsentOutcomes
  import opened SqlConsent
  import opened Capability
  import opened Gate

  // ----- Before consent is read -----

  // The condition a reason of the early checks stands for.
  ghost predicate Fails(env: Env, p: Presentation, reason: RefusalReason) {
    var payload, config := p.capability.payload, env.config;
    match reason
    case UnknownSigningKey => p.capability.keyId !in env.keys
    case SignatureInvalid =>
      p.capability.keyId in env.keys && env.hmac(env.keys[p.capability.keyId], payload) != p.capability.signature
    case AuthorizationBlocked => payload.action.Block? || p.result.finalAction.Block?
    case AuthorizationReviewRequired => payload.action.Review? || p.result.finalAction.Review?
    case CapabilityExpired => p.now >= payload.expiresAt
    case CapabilityNotYetValid => payload.issuedAt > p.now + 30_000_000
    case EnvironmentMismatch => payload.environment != config.environment
    case AudienceMismatch => payload.audience != config.audience
    case AccountScopeMismatch => payload.accountScope != config.accountScope
    case MerchantMismatch =>
      payload.merchantId != config.merchantId || p.transaction.payload.merchantId != config.merchantId
    case MandateHashMismatch => env.hashMandate(p.mandate.payload) != payload.mandateSha
    case AuthorizationResultHashMismatch => env.hashResult(p.result) != payload.resultSha
    case TransactionHashMismatch => env.hashTransaction(p.transaction.payload) != payload.transactionSha
    case ExecutionRequestHashMismatch =>
      env.hashRequest(OrderRequest(p.transaction.payload.totalMinor, p.transaction.payload.orderCurrency,
                                   env.receiptFor(payload.nonce))) != payload.requestSha
    case _ => false
  }

  // What is checked first: the key, the signature, the actions, the clock, the place, then the hashes.
  function Rank(reason: RefusalReason): nat {
    match reason
    case UnknownSigningKey => 0
    case SignatureInvalid => 1
    case AuthorizationBlocked => 2
    case AuthorizationReviewRequired => 2
    case CapabilityExpired => 3
    case CapabilityNotYetValid => 4
    case EnvironmentMismatch => 5
    case AudienceMismatch => 6
    case AccountScopeMismatch => 7
    case MerchantMismatch => 8
    case MandateHashMismatch => 9
    case AuthorizationResultHashMismatch => 10
    case TransactionHashMismatch => 11
    case ExecutionRequestHashMismatch => 12
    case _ => 13
  }

  // Where the first failing check stands.
  lemma {:induction false} FirstFailingAt(checks: seq<Check>) returns (i: nat)
    requires FirstFailing(checks).Some?
    ensures i < |checks| && !checks[i].holds && FirstFailing(checks) == Some(checks[i].reason)
    ensures forall j :: 0 <= j < i ==> checks[j].holds
  {
    if !checks[0].holds {
      i := 0;
    } else {
      var rest := checks[1..];
      i := FirstFailingAt(rest);
      i := i + 1;
      assert forall j :: 1 <= j < i ==> checks[j] == rest[j - 1];
    }
  }

  // The first failing check of one list, as far as reasons go: it names a failure of least rank among lo..hi.
  ghost predicate Names(env: Env, p: Presentation, first: Option<RefusalReason>, lo: nat, hi: nat) {
    if first.Some? then
      && Fails(env, p, first.value) && lo <= Rank(first.value) <= hi
      && forall other :: Fails(env, p, other) && lo <= Rank(other) ==> Rank(first.value) <= Rank(other)
    else forall other :: Fails(env, p, other) ==> !(lo <= Rank(other) <= hi)
  }

  lemma SignatureAndActionsName(env: Env, p: Presentation)
    ensures Names(env, p, FirstFailing(SignatureAndActionChecks(env, p)), 0, 2)
    ensures FirstFailing(SignatureAndActionChecks(env, p)) == Some(AuthorizationBlocked) ==>
              p.capability.payload.action.Block? || p.capability.payload.action.Allow?
    ensures FirstFailing(SignatureAndActionChecks(env, p)) == Some(AuthorizationReviewRequired) ==>
              p.capability.payload.action.Review? || p.capability.payload.action.Allow?
  {
    var checks := SignatureAndActionChecks(env, p);
    if FirstFailing(checks).Some? {
      var i := FirstFailingAt(checks);
      assert i > 0 ==> checks[0].holds;
      assert i > 1 ==> checks[1].holds;
      assert i > 2 ==> checks[2].holds;
      assert i > 3 ==> checks[3].holds;
      assert i > 4 ==> checks[4].holds;
    } else {
      SignatureAndActionsPass(env, p);
    }
  }

  lemma ContextNames(env: Env, p: Presentation)
    ensures Names(env, p, FirstFailing(ContextChecks(env, p)), 3, 8)
  {
    var checks := ContextChecks(env, p);
    if FirstFailing(checks).Some? {
      var i := FirstFailingAt(checks);
      assert i > 0 ==> checks[0].holds;
      assert i > 1 ==> checks[1].holds;
      assert i > 2 ==> checks[2].holds;
      assert i > 3 ==> checks[3].holds;
      assert i > 4 ==> checks[4].holds;
      assert i > 5 ==> checks[5].holds;
    } else {
      ContextPasses(env, p);
    }
  }

  lemma HashesName(env: Env, p: Presentation)
    ensures Names(env, p, FirstFailing(HashChecks(env, p)), 9, 12)
  {
    var checks := HashChecks(env, p);
    if FirstFailing(checks).Some? {
      var i := FirstFailingAt(checks);
      assert i > 0 ==> checks[0].holds;
      assert i > 1 ==> checks[1].holds;
      assert i > 2 ==> checks[2].holds;
    } else {
      HashesPass(env, p);
    }
  }

  /**
   An early refusal names a condition that fails, and none that is checked before it fails; the capability's own action
   is looked at before the result's. Nothing fails exactly when there is no early refusal.
   */
  lemma EarlyReasonIsFirst(env: Env, p: Presentation)
    ensures var early := FirstFailing(EarlyChecks(env, p));
            && (early.None? <==> forall reason :: !Fails(env, p, reason))
            && (early.Some? ==>
                  && Fails(env, p, early.value)
                  && (forall other :: Fails(env, p, other) ==> Rank(early.value) <= Rank(other))
                  && (early.value.AuthorizationBlocked? ==> !p.capability.payload.action.Review?)
                  && (early.value.AuthorizationReviewRequired? ==> !p.capability.payload.action.Block?))
  {
    EarlyChecksInParts(env, p);
    SignatureAndActionsName(env, p);
    ContextNames(env, p);
    HashesName(env, p);
  }

  /** A lone failing condition is the one an early refusal names. */
  lemma LoneFailureIsNamed(env: Env, p: Presentation, reason: RefusalReason)
    requires Fails(env, p, reason) && forall other :: Fails(env, p, other) ==> other == reason
    ensures forall current, bound :: Decide(env, p, current, bound) == RefuseEarly(reason)
  {
    EarlyReasonIsFirst(env, p);
  }

  // ----- Once consent is read -----

  /** Over any storage: what each answer of the consent check stands for. */
  lemma ConsentReasonExactlyWhen(p: Presentation, current: Lookup, bound: Lookup)
    ensures var payload := p.capability.payload;
            var verdict := ConsentVerdict(p, current, bound);
            var mine := payload.mandateId == Uuid(p.mandate.payload.uuid);
            var here := mine && current.Present? && current.state.version == payload.mandateVersion;
            var elsewhere := mine && current.Present? && current.state.version != payload.mandateVersion;
            && (verdict == RefuseAndConsume(MandateIdMismatch) <==> !mine)
            && (verdict == Raise <==> mine && (current.Undecodable? || (elsewhere && bound.Undecodable?)))
            && (verdict == RefuseAndConsume(ConsentCorrupt) <==> mine && current.Corrupt?)
            && (verdict == RefuseAndConsume(ConsentMissing) <==> mine && current.Absent?)
            && (verdict == RefuseAndConsume(ConsentRevoked) <==> here && current.state.status.Revoked?)
            && (verdict == RefuseAndConsume(ConsentSuperseded) <==>
                  || (here && current.state.status.Superseded?)
                  || (elsewhere && bound.Present? && bound.state.status.Superseded?))
            && (verdict == RefuseAndConsume(ConsentVersionMismatch) <==>
                  elsewhere && (bound.Absent? || bound.Corrupt? || (bound.Present? && !bound.state.status.Superseded?)))
            && (verdict == Proceed <==> here && current.state.status.Active?)
  {
  }

  /**
   Over a registry that some run built, for a presentation that passes the early checks with its own mandate: missing
   consent means nothing is registered; revoked, that the bound version is current and REVOKED; superseded, that its row
   is SUPERSEDED; and a version mismatch, that another version is current and the bound one has no row or a REVOKED one.
   */
  lemma ReachableConsentReason(env: Env, p: Presentation, r: Registry)
    requires Shaped(r) && Bound(env, p) && p.capability.payload.mandateId == Uuid(p.mandate.payload.uuid)
    ensures var id, version := p.capability.payload.mandateId, p.capability.payload.mandateVersion;
            var row := Version(r, id, version);
            var verdict := Decide(env, p, AsLookup(Current(r, id)), AsLookup(row));
            var current := id in r.current && r.current[id] == version;
            && (verdict == Proceed <==> row.Some? && row.value.status.Active?)
            && (verdict == RefuseAndConsume(ConsentMissing) <==> id !in r.current)
            && (verdict == RefuseAndConsume(ConsentRevoked) <==> current && row.Some? && row.value.status.Revoked?)
            && (verdict == RefuseAndConsume(ConsentSuperseded) <==> row.Some? && row.value.status.Superseded?)
            && (verdict == RefuseAndConsume(ConsentVersionMismatch) <==>
                  id in r.current && !current && (row.None? || row.value.status.Revoked?))
  {
    var id, version := p.capability.payload.mandateId, p.capability.payload.mandateVersion;
    CurrentIsPointed(r, id);
    EarlyChecksPassExactlyWhenBound(env, p);
    assert OnlyPointerLive(r.states, r.current) && PointerIsGreatest(r.states, r.current);
    assert Key(id, version) in r.states ==> id in r.current;
  }

  // ----- Issuance -----

  // Everything the issuer asks before it looks at consent.
  ghost predicate Reproduced(env: Env, q: IssueRequest) {
    && q.version >= 1 && q.result.finalAction.Allow?
    && env.authorize(q.scenario).Authorized?
    && env.authorize(q.scenario).result.finalAction.Allow?
    && env.hashResult(env.authorize(q.scenario).result) == env.hashResult(q.result)
  }

  // The lifetime is positive, at most five minutes, and ends within the mandate's.
  ghost predicate InTime(q: IssueRequest) {
    q.issuedAt < q.expiresAt <= q.issuedAt + 300_000_000 && q.expiresAt <= q.scenario.mandate.payload.expiresAt
  }

  // 16 to 128 letters, digits, underscores and hyphens.
  predicate NonceText(s: string) {
    && |s| >= 16 && |s| <= 128
    && forall i :: 0 <= i < |s| ==>
         || s[i] == '_' || s[i] == '-' || '0' <= s[i] <= '9' || 'a' <= s[i] <= 'z' || 'A' <= s[i] <= 'Z'
  }

  lemma NonceTexts(s: string)
    ensures ValidNonce(s) <==> NonceText(s)
  {
    assert forall i :: 0 <= i < |s| ==> (NonceChar(s[i]) <==>
      s[i] == '_' || s[i] == '-' || '0' <= s[i] <= '9' || 'a' <= s[i] <= 'z' || 'A' <= s[i] <= 'Z');
  }

  /** What each refusal of the issuer that does not come from consent stands for, and when it raises instead. */
  lemma IssueRefusedExactlyWhen(env: Env, r: Registry, q: IssueRequest)
    ensures var issue := Issue(env, r, q);
            var replay := env.authorize(q.scenario);
            var asked := q.version >= 1 && q.result.finalAction.Allow?;
            var merchant := q.scenario.transaction.payload.merchantId == env.config.merchantId;
            var active := ActiveAt(r, Uuid(q.scenario.mandate.payload.uuid), q.version);
            && (issue == IssueRefused(AuthorizationBlocked) <==> q.version >= 1 && q.result.finalAction.Block?)
            && (issue == IssueRefused(AuthorizationReviewRequired) <==> q.version >= 1 && q.result.finalAction.Review?)
            && (issue == IssueRefused(AuthorizationContextUnverifiable) <==>
                  asked && (replay.CacheFailure?
                            || (replay.InvalidInput? && q.scenario.mandate.payload.semanticConstraints)))
            && (issue == IssueRefused(AuthorizationContextMismatch) <==>
                  asked && replay.Authorized? && !Reproduced(env, q))
            && (issue == IssueRefused(MerchantMismatch) <==> Reproduced(env, q) && !merchant)
            && (issue == IssueRefused(InvalidCapabilityLifetime) <==> Reproduced(env, q) && merchant && !InTime(q))
            && (issue.IssueRaised? <==>
                  || q.version < 1
                  || (asked && replay.InvalidInput? && !q.scenario.mandate.payload.semanticConstraints)
                  || (Reproduced(env, q) && merchant && InTime(q) && active && !NonceText(q.nonce)))
            && (issue.Issued? <==> Reproduced(env, q) && merchant && InTime(q) && active && NonceText(q.nonce))
  {
    NonceTexts(q.nonce);
  }

  /** Otherwise consent is at fault, and on a registry that some run built the reason says how. */
  lemma IssueRefusedByConsent(env: Env, r: Registry, q: IssueRequest)
    requires Shaped(r) && Reproduced(env, q) && InTime(q)
    requires q.scenario.transaction.payload.merchantId == env.config.merchantId
    ensures var id := Uuid(q.scenario.mandate.payload.uuid);
            var row := Version(r, id, q.version);
            var issue := Issue(env, r, q);
            var current := id in r.current && r.current[id] == q.version;
            && (issue == IssueRefused(ConsentMissing) <==> id !in r.current)
            && (issue == IssueRefused(ConsentRevoked) <==> current && row.Some? && row.value.status.Revoked?)
            && (issue == IssueRefused(ConsentSuperseded) <==> row.Some? && row.value.status.Superseded?)
            && (issue == IssueRefused(ConsentVersionMismatch) <==>
                  id in r.current && !current && (row.None? || row.value.status.Revoked?))
            && (row.Some? && row.value.status.Active? <==> issue.Issued? || issue.IssueRaised?)
  {
    var id := Uuid(q.scenario.mandate.payload.uuid);
    CurrentIsPointed(r, id);
    assert OnlyPointerLive(r.states, r.current) && PointerIsGreatest(r.states, r.current);
    assert Key(id, q.version) in r.states ==> id in r.current;
  }

  /** What an issued capability says, field by field, and whose key signed it. */
  lemma IssuedCapabilitySays(env: Env, r: Registry, q: IssueRequest)
    requires Issue(env, r, q).Issued?
    ensures var capability := Issue(env, r, q).capability;
            var mandate, transaction := q.scenario.mandate.payload, q.scenario.transaction.payload;
            var p, config := capability.payload, env.config;
            var replayed := env.authorize(q.scenario).result;
            && capability.keyId == q.keyId && capability.signature == env.hmac(q.key, p)
            && p.nonce == q.nonce && p.action.Allow? && p.issuedAt == q.issuedAt && p.expiresAt == q.expiresAt
            && p.environment == config.environment && p.audience == config.audience
            && p.accountScope == config.accountScope && p.merchantId == config.merchantId
            && p.mandateId == Uuid(mandate.uuid) && p.mandateVersion == q.version
            && p.mandateSha == env.hashMandate(mandate)
            && p.transactionSha == env.hashTransaction(transaction)
            && p.resultSha == env.hashResult(replayed) == env.hashResult(q.result)
            && p.requestSha == env.hashRequest(
                 OrderRequest(transaction.totalMinor, transaction.orderCurrency, env.receiptFor(q.nonce)))
            && p.semantic == replayed.semantic
  {
    IssuedExactlyWhen(env, r, q);
  }
}
