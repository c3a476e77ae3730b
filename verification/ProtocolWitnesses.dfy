/** Schedules that end in the two unsettled accounts the kernel's theorems name. */
module ProtocolWitnesses {
  import opened Wrappers
  import opened Consent
  import opened Capability
  import opened Gate
  import opened Ledger
  import opened Provider
  import opened Executor
  import opened Protocol
  import opened ProtocolAccounting
  import opened ProtocolAgreement

  lemma AfterOne(env: Env, steps: seq<Step>, step: Step)
    ensures After(env, steps + [step]) == Next(env, After(env, steps), step)
  {
    assert (steps + [step])[..|steps|] == steps;
  }

  // Up to and including the gate's verdict.
  function OpeningSteps(who: nat, input: Presentation): seq<Step> {
    [Submit(who, input), Acquire(who), Validate(who)]
  }

  lemma OpeningIsScheduled(env: Env, steps: seq<Step>, who: nat, input: Presentation)
    ensures After(env, steps + OpeningSteps(who, input)) == Opening(env, After(env, steps), who, input)
  {
    var s1 := steps + [Submit(who, input)];
    var s2 := s1 + [Acquire(who)];
    AfterOne(env, steps, Submit(who, input));
    AfterOne(env, s1, Acquire(who));
    AfterOne(env, s2, Validate(who));
    assert s2 + [Validate(who)] == steps + OpeningSteps(who, input);
  }

  function DecidingSteps(who: nat): seq<Step> {
    [Step.ReserveNonce(who), RejectRow(who), RecordEvent(who)]
  }

  lemma DecidingIsScheduled(env: Env, steps: seq<Step>, who: nat)
    ensures After(env, steps + DecidingSteps(who)) == Deciding(env, After(env, steps), who)
  {
    var s1 := steps + [Step.ReserveNonce(who)];
    var s2 := s1 + [RejectRow(who)];
    AfterOne(env, steps, Step.ReserveNonce(who));
    AfterOne(env, s1, RejectRow(who));
    AfterOne(env, s2, RecordEvent(who));
    assert s2 + [RecordEvent(who)] == steps + DecidingSteps(who);
  }

  function ClosingSteps(who: nat, reply: Reply): seq<Step> {
    [BeginCall(who), ReturnCall(who, reply), Settle(who), Leave(who)]
  }

  lemma ClosingIsScheduled(env: Env, steps: seq<Step>, who: nat, reply: Reply)
    ensures After(env, steps + ClosingSteps(who, reply)) == Closing(env, After(env, steps), who, reply)
  {
    var s1 := steps + [BeginCall(who)];
    var s2 := s1 + [ReturnCall(who, reply)];
    var s3 := s2 + [Settle(who)];
    AfterOne(env, steps, BeginCall(who));
    AfterOne(env, s1, ReturnCall(who, reply));
    AfterOne(env, s2, Settle(who));
    AfterOne(env, s3, Leave(who));
    assert s3 + [Leave(who)] == steps + ClosingSteps(who, reply);
  }

  // ----- Register, issue, present -----

  // A request the issuer grants once its mandate version is registered, under a trusted key.
  predicate Issuable(env: Env, q: IssueRequest) {
    && q.version >= 1 && q.result.finalAction.Allow? && env.authorize(q.scenario) == Authorized(q.result)
    && q.scenario.transaction.payload.merchantId == env.config.merchantId
    && LifetimeOk(q) && ValidNonce(q.nonce)
    && q.keyId in env.keys && env.keys[q.keyId] == q.key
  }

  function Capable(env: Env, q: IssueRequest): Signed {
    Sign(env, q.keyId, q.key, PayloadFor(env, q, q.result))
  }

  // The capability presented with its own inputs at the moment of issue.
  function Presented(env: Env, q: IssueRequest): Presentation {
    Presentation(Capable(env, q), q.result, q.scenario.mandate, q.scenario.transaction, q.issuedAt)
  }

  function Registration(q: IssueRequest): Op {
    RegisterActive(Uuid(q.scenario.mandate.payload.uuid), q.version, q.issuedAt)
  }

  function IssuingSteps(q: IssueRequest): seq<Step> {
    [ChangeConsent(Registration(q)), IssueCapability(q)]
  }

  function IssuedWorld(env: Env, q: IssueRequest): World {
    var registry := Apply(env.hashEvent, EMPTY_REGISTRY, Registration(q)).0;
    World(registry, registry, map[], None, map[],
          [ConsentChanged(Registration(q)), CapabilityIssued(q, Capable(env, q))])
  }

  lemma IssuingIsScheduled(env: Env, q: IssueRequest)
    requires Issuable(env, q)
    ensures After(env, IssuingSteps(q)) == IssuedWorld(env, q)
  {
    var register, issue := ChangeConsent(Registration(q)), IssueCapability(q);
    var w := IssuedWorld(env, q);
    AfterOne(env, [], register);
    AfterOne(env, [register], issue);
    assert [] + [register] == [register] && [register] + [issue] == IssuingSteps(q);
    var w1 := w.(log := [ConsentChanged(Registration(q))]);
    assert After(env, [register]) == w1;
    IssuedExactlyWhen(env, w.registry, q);
    assert w1.log + [CapabilityIssued(q, Capable(env, q))] == w.log;
  }

  lemma PresentedProceeds(env: Env, q: IssueRequest)
    requires Issuable(env, q)
    ensures var w := IssuedWorld(env, q); var input := Presented(env, q);
            MayPresent(env, w, input) && VerdictFor(env, w.registry, Execution(input, Entered)) == Proceed
  {
    var w := IssuedWorld(env, q);
    var input := Presented(env, q);
    IssuedExactlyWhen(env, w.registry, q);
    IssuedCapabilityPassesExactlyWhen(env, w.registry, q, input, w.registry);
    assert w.log[1].capability.payload == input.capability.payload;
  }

  // Issued, presented and admitted; the nonce is reserved and the provider not yet called.
  function HoldingSteps(env: Env, q: IssueRequest): seq<Step> {
    IssuingSteps(q) + OpeningSteps(0, Presented(env, q)) + DecidingSteps(0)
  }

  function ReservedWorld(env: Env, q: IssueRequest): World {
    var input := Presented(env, q);
    IssuedWorld(env, q).(rows := map[q.nonce := LedgerRow(input.capability.payload.requestSha, Reserved, None)])
  }

  lemma HoldingIsScheduled(env: Env, q: IssueRequest)
    requires Issuable(env, q)
    ensures After(env, HoldingSteps(env, q)) == Held(ReservedWorld(env, q), 0, Presented(env, q), Holding)
  {
    var w := IssuedWorld(env, q);
    var input := Presented(env, q);
    IssuingIsScheduled(env, q);
    PresentedProceeds(env, q);
    OpeningIsScheduled(env, IssuingSteps(q), 0, input);
    OpeningReachesVerdict(env, w, 0, input);
    DecidingIsScheduled(env, IssuingSteps(q) + OpeningSteps(0, input), 0);
    GrantedReserves(env, w, 0, input);
    var row := LedgerRow(input.capability.payload.requestSha, Reserved, None);
    assert ReservedWorld(env, q).rows == w.rows[q.nonce := row];
  }

  // ----- An overlong order id -----

  // A 2xx response that matches the request, with the given order id.
  function OrderReply(request: OrderRequest, orderId: string): Reply {
    Response(200, Object(Text("order"), Text(orderId), Integer(request.amount), Text(request.currency),
                         Text(request.receipt), Text("created")))
  }

  function OverlongSteps(env: Env, q: IssueRequest, orderId: string): seq<Step> {
    HoldingSteps(env, q) + ClosingSteps(0, OrderReply(Rebuilt(env, Presented(env, q)), orderId))
  }

  /**
   A matching order with an overlong id leaves its row RESERVED, with the guard free, nothing in flight and no crash,
   whatever was issued.
   */
  lemma OverlongIdStaysReserved(env: Env, q: IssueRequest, orderId: string)
    requires Issuable(env, q) && |orderId| > MAX_ORDER_ID
    ensures var w := After(env, OverlongSteps(env, q, orderId));
            && w.owner.None? && (forall i :: 0 <= i < |w.log| ==> !w.log[i].Crashed?)
            && q.nonce in w.rows && w.rows[q.nonce].status.Reserved?
            && 0 in w.executions && w.executions[0].phase == Finished(Raised)
  {
    var input := Presented(env, q);
    var reply := OrderReply(Rebuilt(env, input), orderId);
    HoldingIsScheduled(env, q);
    ClosingIsScheduled(env, HoldingSteps(env, q), 0, reply);
    HoldingSettles(env, ReservedWorld(env, q), 0, input, reply);
    assert Classify(reply, Rebuilt(env, input)) == Escaped;
  }

  // ----- A crash during the call -----

  function CrashSteps(env: Env, q: IssueRequest): seq<Step> {
    HoldingSteps(env, q) + [BeginCall(0), Crash(0)]
  }

  lemma CrashedWorld(env: Env, q: IssueRequest)
    requires Issuable(env, q)
    ensures var r := ReservedWorld(env, q); var input := Presented(env, q);
            After(env, CrashSteps(env, q))
            == r.(log := r.log + [CallBegan(input, Rebuilt(env, input)), Crashed(input, true)])
  {
    var r := ReservedWorld(env, q);
    var input := Presented(env, q);
    var called := r.(log := r.log + [CallBegan(input, Rebuilt(env, input))]);
    HoldingIsScheduled(env, q);
    var steps := HoldingSteps(env, q);
    AfterOne(env, steps, BeginCall(0));
    AfterOne(env, steps + [BeginCall(0)], Crash(0));
    assert steps + [BeginCall(0)] + [Crash(0)] == CrashSteps(env, q);
    assert After(env, steps + [BeginCall(0)]) == Held(called, 0, input, Calling);
    assert called.log + [Crashed(input, true)] == r.log + [CallBegan(input, Rebuilt(env, input)), Crashed(input, true)];
    assert Held(called, 0, input, Calling).executions - {0} == map[];
  }

  /** A crash while the call is in flight leaves a RESERVED row, one call and no refusal event, with the guard free. */
  lemma CrashLeavesRowBehind(env: Env, q: IssueRequest)
    requires Issuable(env, q)
    ensures var w := After(env, CrashSteps(env, q));
            && w.owner.None? && AbandonedAccount(w, q.nonce)
            && w.rows[q.nonce].status.Reserved? && CallsOf(w.log, q.nonce) == 1
  {
    var r := ReservedWorld(env, q);
    var input := Presented(env, q);
    CrashedWorld(env, q);
    var w := After(env, CrashSteps(env, q));
    var began, crashed := CallBegan(input, Rebuilt(env, input)), Crashed(input, true);
    OneCall(ConsentChanged(Registration(q)), CapabilityIssued(q, Capable(env, q)), began, crashed, q.nonce);
    assert w.log == [ConsentChanged(Registration(q)), CapabilityIssued(q, Capable(env, q)), began, crashed];
    assert Abandons(w.log[3], q.nonce);
    RegistrationRefusesNothing(env, q);
  }

  lemma OneCall(a: Observation, b: Observation, began: Observation, crashed: Observation, nonce: string)
    requires !a.CallBegan? && !b.CallBegan? && CallCount(began, nonce) == 1 && !crashed.CallBegan?
    ensures CallsOf([a, b, began, crashed], nonce) == 1
  {
    assert [] + [a] == [a] && [a] + [b] == [a, b] && [a, b] + [began] == [a, b, began];
    assert [a, b, began] + [crashed] == [a, b, began, crashed];
    CallsAppend([], a, nonce);
    CallsAppend([a], b, nonce);
    CallsAppend([a, b], began, nonce);
    CallsAppend([a, b, began], crashed, nonce);
  }

  lemma RegistrationRefusesNothing(env: Env, q: IssueRequest)
    ensures NeverRefused(IssuedWorld(env, q).registry, q.nonce)
  {
    ConsentChangeRefusesNothing(env.hashEvent, EMPTY_REGISTRY, Registration(q), q.nonce);
    SameRefusalsCarry(EMPTY_REGISTRY, IssuedWorld(env, q).registry, q.nonce);
    assert NeverRefused(EMPTY_REGISTRY, q.nonce);
  }

  // ----- One concrete deployment -----

  const DEMO_RESULT := AuthorizationResult(Allow, None, "")

  const DEMO_SCENARIO := Scenario(
    Mandate(MandatePayload("00000000-0000-4000-8000-000000000000", 1000, false, ""), ""),
    Transaction(TransactionPayload("merchant", "INR", 100, ""), ""), "")

  const DEMO_REQUEST := IssueRequest(DEMO_RESULT, DEMO_SCENARIO, 0, 500, "0123456789abcdef", 1, "key", "secret")

  predicate AcceptsDemo(env: Env) {
    && env.config.merchantId == "merchant"
    && env.keys == map["key" := "secret"]
    && env.authorize(DEMO_SCENARIO) == Authorized(DEMO_RESULT)
  }

  function LongId(): (id: string)
    ensures |id| == 257
  {
    seq(257, i => 'x')
  }

  lemma DemoIsIssuable(env: Env)
    requires AcceptsDemo(env)
    ensures Issuable(env, DEMO_REQUEST)
  {
    var nonce := DEMO_REQUEST.nonce;
    assert |nonce| == 16;
  }

  /** A row RESERVED at rest without a crash, and a row left behind by a crash, in twelve and ten concrete steps. */
  lemma UnsettledRowsExist(env: Env)
    requires AcceptsDemo(env)
    ensures var steps := OverlongSteps(env, DEMO_REQUEST, LongId()); var w := After(env, steps);
            && |steps| == 12 && w.owner.None? && (forall i :: 0 <= i < |w.log| ==> !w.log[i].Crashed?)
            && DEMO_REQUEST.nonce in w.rows && w.rows[DEMO_REQUEST.nonce].status.Reserved?
    ensures var steps := CrashSteps(env, DEMO_REQUEST); var w := After(env, steps);
            |steps| == 10 && w.owner.None? && AbandonedAccount(w, DEMO_REQUEST.nonce)
  {
    DemoIsIssuable(env);
    OverlongIdStaysReserved(env, DEMO_REQUEST, LongId());
    CrashLeavesRowBehind(env, DEMO_REQUEST);
  }
}
