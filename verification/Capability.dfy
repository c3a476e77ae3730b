/** Signed execution capabilities: what they commit to, and how they are issued. */
module Capability {
  import opened Wrappers
  import opened Consent

  datatype Action = Allow | Review | Block

  datatype MandatePayload = MandatePayload(uuid: string, expiresAt: Time, semanticConstraints: bool, rest: string)

  // The envelope (attestation and metadata) is outside every hash.
  datatype Mandate = Mandate(payload: MandatePayload, envelope: string)

  datatype TransactionPayload = TransactionPayload(merchantId: string, orderCurrency: string, totalMinor: nat,
      rest: string)

  datatype Transaction = Transaction(payload: TransactionPayload, declaredHash: string)

  datatype SemanticHashes = SemanticHashes(input: Digest, output: Digest)

  datatype AuthorizationResult = AuthorizationResult(finalAction: Action, semantic: Option<SemanticHashes>,
      rest: string)

  // The recorded replay context with the semantic evidence and verifier used beside it.
  datatype Scenario = Scenario(mandate: Mandate, transaction: Transaction, context: string)

  datatype Authorization = Authorized(result: AuthorizationResult) | CacheFailure | InvalidInput

  datatype OrderRequest = OrderRequest(amount: nat, currency: string, receipt: string)

  datatype Config = Config(merchantId: string, accountScope: string, environment: string, audience: string)

  datatype Payload = Payload(
    nonce: string,
    action: Action,
    issuedAt: Time,
    expiresAt: Time,
    environment: string,
    audience: string,
    accountScope: string,
    merchantId: string,
    mandateId: MandateId,
    mandateVersion: int,
    mandateSha: Digest,
    transactionSha: Digest,
    resultSha: Digest,
    requestSha: Digest,
    semantic: Option<SemanticHashes>)

  datatype Signed = Signed(payload: Payload, keyId: string, signature: Digest)

  const SECOND: int := 1_000_000
  const MAX_CAPABILITY_LIFETIME: int := 5 * 60 * SECOND
  const MAX_ISSUED_AT_FUTURE_SKEW: int := 30 * SECOND

  // Everything fixed at deployment: configuration, keys, digests, and the authorization
  // function, which is not modelled beyond being deterministic.
  datatype Env = Env(
    config: Config,
    keys: map<string, string>,
    hmac: (string, Payload) -> Digest,
    hashMandate: MandatePayload -> Digest,
    hashTransaction: TransactionPayload -> Digest,
    hashResult: AuthorizationResult -> Digest,
    hashRequest: OrderRequest -> Digest,
    hashEvent: EventHash,
    receiptFor: string -> string,
    authorize: Scenario -> Authorization)

  // The digests of the three bound inputs determine those inputs.
  ghost predicate BindingHashes(env: Env) {
    && (forall a, b :: env.hashMandate(a) == env.hashMandate(b) ==> a == b)
    && (forall a, b :: env.hashTransaction(a) == env.hashTransaction(b) ==> a == b)
    && (forall a, b :: env.hashResult(a) == env.hashResult(b) ==> a == b)
  }

  predicate NonceChar(c: char) {
    'A' <= c <= 'Z' || 'a' <= c <= 'z' || '0' <= c <= '9' || c == '_' || c == '-'
  }

  predicate ValidNonce(nonce: string) {
    16 <= |nonce| <= 128 && forall i :: 0 <= i < |nonce| ==> NonceChar(nonce[i])
  }

  // What the payload constructor accepts; every capability object satisfies it.
  predicate ValidPayload(p: Payload) {
    && ValidNonce(p.nonce)
    && p.action.Allow?
    && p.issuedAt < p.expiresAt
    && p.expiresAt - p.issuedAt <= MAX_CAPABILITY_LIFETIME
    && p.mandateId.Uuid?
    && p.mandateVersion >= 1
  }

  datatype RefusalReason =
    | AuthorizationBlocked
    | AuthorizationReviewRequired
    | AuthorizationContextMismatch
    | AuthorizationContextUnverifiable
    | AuthorizationResultHashMismatch
    | SignatureInvalid
    | UnknownSigningKey
    | CapabilityExpired
    | CapabilityNotYetValid
    | InvalidCapabilityLifetime
    | EnvironmentMismatch
    | AudienceMismatch
    | AccountScopeMismatch
    | MerchantMismatch
    | MandateHashMismatch
    | MandateIdMismatch
    | ConsentRevoked
    | ConsentSuperseded
    | ConsentCorrupt
    | ConsentMissing
    | ConsentVersionMismatch
    | TransactionHashMismatch
    | ExecutionRequestHashMismatch
    | NonceAlreadyUsed

  // The enum value written into the audit event of a mandate-state refusal.
  function ReasonText(reason: RefusalReason): string {
    match reason
    case MandateIdMismatch => "MANDATE_ID_MISMATCH"
    case ConsentRevoked => "MANDATE_REVOKED"
    case ConsentSuperseded => "MANDATE_SUPERSEDED"
    case ConsentCorrupt => "MANDATE_STATE_CORRUPT"
    case ConsentMissing => "MANDATE_STATE_MISSING"
    case ConsentVersionMismatch => "MANDATE_VERSION_MISMATCH"
    case _ => "OTHER"
  }

  function BuildRequest(env: Env, transaction: Transaction, nonce: string): OrderRequest {
    OrderRequest(transaction.payload.totalMinor, transaction.payload.orderCurrency, env.receiptFor(nonce))
  }

  function Sign(env: Env, keyId: string, key: string, payload: Payload): Signed {
    Signed(payload, keyId, env.hmac(key, payload))
  }

  datatype Verification = Valid | Invalid | UnknownKey

  function Verify(env: Env, capability: Signed): Verification {
    if capability.keyId !in env.keys then UnknownKey
    else if env.hmac(env.keys[capability.keyId], capability.payload) != capability.signature then Invalid
    else Valid
  }

  // ----- Consent as the issuer and the gate read it -----

  // None when the current row is ACTIVE at the wanted version.
  function ConsentProblem(current: Option<State>, bound: Option<State>, version: int): Option<RefusalReason> {
    if current.None? then Some(ConsentMissing)
    else if current.value.version != version then
      Some(if bound.Some? && bound.value.status.Superseded? then ConsentSuperseded else ConsentVersionMismatch)
    else if current.value.status.Revoked? then Some(ConsentRevoked)
    else if current.value.status.Superseded? then Some(ConsentSuperseded)
    else None
  }

  predicate ActiveAt(r: Registry, id: MandateId, version: int) {
    var current := Current(r, id);
    current.Some? && current.value.version == version && current.value.status.Active?
  }

  // ----- Issuance -----

  datatype IssueRequest = IssueRequest(
    result: AuthorizationResult,
    scenario: Scenario,
    issuedAt: Time,
    expiresAt: Time,
    nonce: string,
    version: int,
    keyId: string,
    key: string)

  // IssueRaised stands for a ValueError that leaves the issuer.
  datatype IssueOutcome = Issued(capability: Signed) | IssueRefused(reason: RefusalReason) | IssueRaised

  predicate LifetimeOk(q: IssueRequest) {
    && q.issuedAt < q.expiresAt
    && q.expiresAt - q.issuedAt <= MAX_CAPABILITY_LIFETIME
    && q.expiresAt <= q.scenario.mandate.payload.expiresAt
  }

  function PayloadFor(env: Env, q: IssueRequest, result: AuthorizationResult): Payload {
    var mandate := q.scenario.mandate.payload;
    var transaction := q.scenario.transaction;
    Payload(q.nonce, Allow, q.issuedAt, q.expiresAt,
            env.config.environment, env.config.audience, env.config.accountScope, env.config.merchantId,
            Uuid(mandate.uuid), q.version,
            env.hashMandate(mandate), env.hashTransaction(transaction.payload), env.hashResult(result),
            env.hashRequest(BuildRequest(env, transaction, q.nonce)), result.semantic)
  }

  function Issue(env: Env, r: Registry, q: IssueRequest): IssueOutcome {
    var mandate := q.scenario.mandate.payload;
    if q.version < 1 then IssueRaised
    else if q.result.finalAction.Block? then IssueRefused(AuthorizationBlocked)
    else if q.result.finalAction.Review? then IssueRefused(AuthorizationReviewRequired)
    else
      match env.authorize(q.scenario)
      case CacheFailure => IssueRefused(AuthorizationContextUnverifiable)
      case InvalidInput =>
        if mandate.semanticConstraints then IssueRefused(AuthorizationContextUnverifiable) else IssueRaised
      case Authorized(result) =>
        var id := Uuid(mandate.uuid);
        var problem := ConsentProblem(Current(r, id), Version(r, id, q.version), q.version);
        if !result.finalAction.Allow? || env.hashResult(result) != env.hashResult(q.result) then
          IssueRefused(AuthorizationContextMismatch)
        else if q.scenario.transaction.payload.merchantId != env.config.merchantId then IssueRefused(MerchantMismatch)
        else if !LifetimeOk(q) then IssueRefused(InvalidCapabilityLifetime)
        else if problem.Some? then IssueRefused(problem.value)
        else if !ValidNonce(q.nonce) then IssueRaised
        else Issued(Sign(env, q.keyId, q.key, PayloadFor(env, q, result)))
  }

  /**
   A capability exists exactly for a reproduced ALLOW, inside the mandate's own lifetime, for the
   configured merchant, against consent that is ACTIVE at the bound version.
   */
  lemma IssuedExactlyWhen(env: Env, r: Registry, q: IssueRequest)
    ensures Issue(env, r, q).Issued? <==>
            && q.version >= 1
            && q.result.finalAction.Allow?
            && env.authorize(q.scenario).Authorized?
            && env.authorize(q.scenario).result.finalAction.Allow?
            && env.hashResult(env.authorize(q.scenario).result) == env.hashResult(q.result)
            && q.scenario.transaction.payload.merchantId == env.config.merchantId
            && LifetimeOk(q)
            && ActiveAt(r, Uuid(q.scenario.mandate.payload.uuid), q.version)
            && ValidNonce(q.nonce)
    ensures Issue(env, r, q).Issued? ==>
              var p := Issue(env, r, q).capability.payload;
              ValidPayload(p) && p == PayloadFor(env, q, env.authorize(q.scenario).result)
  {
  }
}
