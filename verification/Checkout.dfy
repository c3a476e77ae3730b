/** The execute branch of a checkout: choose a mandate version, register it, issue, execute. */
module Checkout {
  import opened Wrappers
  import opened Consent
  import opened ConsentHistory
  import opened SqlConsent
  import opened Capability
  import opened Gate

  const CHECKOUT_LIFETIME: int := 2 * 60 * SECOND
  const MANDATE_LIFETIME: int := 15 * 60 * SECOND

  // The version a checkout binds: the caller's, the current ACTIVE one, or a fresh one.
  function ChooseVersion(current: Option<State>, requested: Option<int>): int {
    if requested.Some? then requested.value
    else if current.None? then 1
    else if current.value.status.Active? then current.value.version
    else current.value.version + 1
  }

  /**
   Without a requested version registration never fails unless time moved backwards past a withdrawal;
   a requested version registers exactly when it is the ACTIVE one or newer than a withdrawn one.
   Success leaves the chosen version current and ACTIVE.
   */
  lemma ChosenVersionRegisters(hash: EventHash, r: Registry, id: MandateId, requested: Option<int>, now: Time)
    requires Shaped(r) && id.Uuid?
    ensures var current := Current(r, id);
            var version := ChooseVersion(current, requested);
            var (r', outcome) := ApplyRegister(hash, r, id, version, now);
            && (outcome.Done? <==>
                  if current.None? then version >= 1
                  else if current.value.status.Active? then version == current.value.version
                  else version > current.value.version && now >= current.value.updatedAt)
            && (outcome.Done? ==>
                  && ActiveAt(r', id, version)
                  && id in r'.current && r'.current[id] ==
                       if requested.Some? then requested.value
                       else if id !in r.current then 1
                       else if r.states[Key(id, r.current[id])].status.Active? then r.current[id]
                       else r.current[id] + 1)
  {
  }

  function CheckoutRequest(result: AuthorizationResult, scenario: Scenario, now: Time, nonce: string, version: int,
                           keyId: string, key: string): IssueRequest {
    IssueRequest(result, scenario, now, now + CHECKOUT_LIFETIME, nonce, version, keyId, key)
  }

  // The mandate a checkout builds from the buyer's intent; the checkout's one clock dates it.
  function MandateFromIntent(uuid: string, now: Time, semanticConstraints: bool, rest: string): Mandate {
    Mandate(MandatePayload(uuid, now + MANDATE_LIFETIME, semanticConstraints, rest),
        "agentic-commerce-intent-interpreter-v1")
  }

  /**
   A checkout whose ALLOW is reproduced, under a trusted key, passes the gate straight after issuance, provided
   registration does not meet a later withdrawal time: the mandate it has built outlives its capability.
   */
  lemma CheckoutPassesTheGate(env: Env, r: Registry, uuid: string, semanticConstraints: bool, rest: string,
                              transaction: Transaction, context: string, result: AuthorizationResult, now: Time,
                              nonce: string, keyId: string)
    requires Shaped(r) && keyId in env.keys && ValidNonce(nonce) && result.finalAction.Allow?
    requires var mandate := MandateFromIntent(uuid, now, semanticConstraints, rest);
             env.authorize(Scenario(mandate, transaction, context)) == Authorized(result)
    requires transaction.payload.merchantId == env.config.merchantId
    requires var current := Current(r, Uuid(uuid));
             current.Some? && !current.value.status.Active? ==> now >= current.value.updatedAt
    ensures var id := Uuid(uuid);
            var version := ChooseVersion(Current(r, id), None);
            var r' := ApplyRegister(env.hashEvent, r, id, version, now).0;
            var mandate := MandateFromIntent(uuid, now, semanticConstraints, rest);
            var scenario := Scenario(mandate, transaction, context);
            var q := CheckoutRequest(result, scenario, now, nonce, version, keyId, env.keys[keyId]);
            && Issue(env, r', q).Issued?
            && Decide(env, Presentation(Issue(env, r', q).capability, result, mandate, transaction, now),
                      AsLookup(Current(r', id)), AsLookup(Version(r', id, version))).Proceed?
  {
    var id := Uuid(uuid);
    var mandate := MandateFromIntent(uuid, now, semanticConstraints, rest);
    var version := ChooseVersion(Current(r, id), None);
    ChosenVersionRegisters(env.hashEvent, r, id, None, now);
    var r' := ApplyRegister(env.hashEvent, r, id, version, now).0;
    var scenario := Scenario(mandate, transaction, context);
    var q := CheckoutRequest(result, scenario, now, nonce, version, keyId, env.keys[keyId]);
    assert version >= 1;
    assert LifetimeOk(q);
    IssuedExactlyWhen(env, r', q);
    var p := Presentation(Issue(env, r', q).capability, result, mandate, transaction, now);
    IssuedCapabilityPassesExactlyWhen(env, r', q, p, r');
  }

  /**
   The window of a checkout: its capability passes, while its version stays current and ACTIVE, from thirty seconds
   before the checkout's clock until two minutes after it, within a mandate that lives for fifteen.
   */
  lemma CheckoutWindow(env: Env, r: Registry, uuid: string, semanticConstraints: bool, rest: string,
                       transaction: Transaction, context: string, result: AuthorizationResult, now: Time, version: int,
                       nonce: string, keyId: string, later: Time, r': Registry)
    requires keyId in env.keys
    requires var scenario := Scenario(MandateFromIntent(uuid, now, semanticConstraints, rest), transaction, context);
             Issue(env, r, CheckoutRequest(result, scenario, now, nonce, version, keyId, env.keys[keyId])).Issued?
    ensures var mandate := MandateFromIntent(uuid, now, semanticConstraints, rest);
            var scenario := Scenario(mandate, transaction, context);
            var issue := Issue(env, r, CheckoutRequest(result, scenario, now, nonce, version, keyId, env.keys[keyId]));
            && mandate.payload.expiresAt == now + 900_000_000
            && (Decide(env, Presentation(issue.capability, result, mandate, transaction, later),
                       AsLookup(Current(r', Uuid(uuid))), AsLookup(Version(r', Uuid(uuid), version))).Proceed?
                <==> now - 30_000_000 <= later < now + 120_000_000 && ActiveAt(r', Uuid(uuid), version))
  {
    var mandate := MandateFromIntent(uuid, now, semanticConstraints, rest);
    var q := CheckoutRequest(result, Scenario(mandate, transaction, context), now, nonce, version, keyId,
        env.keys[keyId]);
    IssuedExactlyWhen(env, r, q);
    IssuedCapabilityPassesExactlyWhen(env, r, q,
        Presentation(Issue(env, r, q).capability, result, mandate, transaction, later), r');
  }
}
