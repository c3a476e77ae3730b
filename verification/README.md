# MandateGuard in Dafny

MandateGuard lets an agent spend money only under a buyer's mandate. This project models its execution kernel,
the canonical encoding and journal every digest rests on, and the algorithms it reports results with, and proves
what they promise for all inputs and all runs.

**The execution kernel.** A registry of versioned consent (ACTIVE, REVOKED, SUPERSEDED) exists twice, as Python
dictionaries (`Consent`, `InMemoryConsent`) and as SQLite tables (`SqlConsent`, `SqlRegistry`); `ConsentRefinement`
proves that the tables follow the dictionaries over every sequence of calls. `ConsentOutcomes` gives every answer of a
consent call its exact condition and every success its exact effect, `RefusalReasons` does so for the gate and the
issuer. `Capability`, `Gate`, `Ledger`, `Provider` and `Executor` give issuance, the ordered gate checks, the single-use
nonce ledger, the order client and one guarded execution. `Protocol` puts any number of callers, crashes and consent
changes over one registry and one ledger as an interleaved step system; its guarantees are in `ProtocolTheorems`, and
`ProtocolAgreement` proves that an execution nobody interrupts does in the step system what one call of the executor
does. `ProtocolSerial` proves that every schedule without a death inside the guard amounts to a serial history of such
calls; `ProtocolWitnesses` exhibits the rows that stay unsettled.

**The encoding.** `Json`, `JsonParser` and `CanonicalJson` give normalisation, the sorted compact printer and a strict
reader (RFC 8259, sections 2 to 7), with the reader inverting the printer. `CanonicalJson.Stands` says part by part what
a value's text means, `RecordText` what the text of a dataclass is. `Records`, `DecisionEvents` and `EventText` carry
this to decision events, `EventRecords` says which are accepted and what their records hold; `Framing`, `HashChain` and
`Journal` to the append-only file. `ConsentDigest` closes the loop: over canonical JSON, an injective SHA-256 is the
collision-free digest the registry proofs ask for.

**The algorithms.** `Ranking` (ROC AUC, recall at a false-positive rate), `Fusion` and `RetrievalMetrics`
(reciprocal-rank fusion, de-duplication, recall, NDCG), `Quantization` (eight-bit linear scoring), `Percentile` and
`RunSummary` (benchmark tallies), `Manifest` (the manifest printer, its line reader and the write-once rewrite).

Where the program updates state or loops, the model is a class or a method with loops, proved against a specification
function; the lemmas are about that function. Exceptions are values of result types. `dafny verify dfyconfig.toml`
checks the whole project.

## What the code does that its texts do not say

- The dictionary registry validates `mandate_id` in `revoke` and `supersede`; the SQLite one does not, so a malformed id
  is answered "missing" or "not current" instead of a `ValueError`. `ConsentRefinement.SqlRefinesDictionaries` shows that
  these are the only calls on which the two ever answer differently, and that their states still agree.
- An order response that is valid but whose id is longer than 256 characters raises a plain `ValueError` from the result
  object. It is none of the three error classes the executor handles, and the ledger row stays RESERVED although the
  provider created an order. `Provider.EscapesExactlyWhen` and `ProtocolTheorems.ReservedRowsEscaped` give the exact
  conditions, `ProtocolWitnesses.OverlongIdStaysReserved` the schedule. (A 2xx body with an integer of more than 4300
  digits, which CPython's decoder refuses with a plain `ValueError`, escapes in the same way; such bodies are left out.)
- A crash while the provider call is in flight releases the SQLite guard. The call counts and the single use of the nonce
  still hold; the row stays RESERVED and the refusal event, if one was being written, is rolled back
  (`ProtocolTheorems.BooksBalance` names this account, `ProtocolWitnesses.CrashLeavesRowBehind` reaches it).
- A printed manifest reads back exactly when its preamble ends a line and no line of it is the key
  (`Manifest.ReadsBackExactlyWhen`). The reader looks for a line break before `cases:`, so it finds nothing after an empty
  preamble (`Manifest.EmptyPreambleIsNotRead`). The digest pinned in `frozen_preamble` keeps other preambles, the empty one
  included, out of the rewrite, so this is reachable only by calling `render_manifest`.
- `_recall_at_fpr` is not always the best recall within its target. Without negatives it returns zero
  (`Ranking.NoNegativesMissPositives`), and from a target of one on it still excludes the least negative
  (`Ranking.FullTargetMayMissPositives`). `Ranking.RecallIsBestExactlyWhen` gives the exact condition.
- The gate's two checks of the capability's own action cannot fail, because its constructor accepts only ALLOW.

## Assumptions

- SHA-256 is a function parameter. Where a result needs injectivity this is an explicit hypothesis (`Consent.CollisionFree`,
  `Capability.BindingHashes`, `ConsentDigest.Injective`); `HashChain.HeadCommitsToHistory` needs none and exhibits the collision.
- A capability whose HMAC (section 2 of RFC 2104) verifies carries a payload that was issued (`Protocol.MayPresent`).
- `authorize_transaction` is a deterministic function of its recorded scenario.
- Time is an instant; its text is any rendering that can be read back (`CanonicalJson.Readable`).
- Scores, weights and discounts are real numbers; `log` and `sqrt` are parameters.

## Model

| member | source | states |
|---|---|---|
| ProtocolTheorems.Reachable | src/mandateguard/execution/executor.py:31-139 | Every world that any schedule of executions, crashes, consent changes and issuances can reach satisfies the kernel invariant |
| ProtocolTheorems.ConsentHoldsThroughCall | src/mandateguard/execution/executor.py:46-63 | From the gate's positive verdict until the row is settled, the execution is alone in the guard and the current row of its mandate is ACTIVE at exactly the bound version |
| ProtocolTheorems.NoCallUnderWithdrawnConsent | src/mandateguard/execution/executor.py:48-63 | No provider call begins under a version whose revocation or supersession committed earlier |
| ProtocolTheorems.BusyChangesNothing | src/mandateguard/execution/mandate_state.py:505-537 | While the guard is held, a consent change, a second acquire or a busy answer writes nothing |
| ProtocolTheorems.NonceCalledAtMostOnce | src/mandateguard/execution/ledger.py:62-82 | Over any run a decision nonce gets at most one provider call, however often it is presented |
| ProtocolTheorems.RowsOnlySettle | src/mandateguard/execution/ledger.py:84-108 | A ledger row keeps its request hash for ever and leaves RESERVED at most once |
| ProtocolTheorems.ResultsFit | src/mandateguard/execution/executor.py:95-139 | LEDGER_TRANSITION_FAILED is unreachable, and every receipt names the presented nonce and request hash and carries the presented transaction's total and currency and the nonce's receipt text |
| ProtocolTheorems.CallsAreBoundToIssuance | src/mandateguard/execution/authorization.py:78-184 | Every provider call traces to an earlier issuance, granted while the bound version was current and ACTIVE in the world of that moment, with the same mandate payload, transaction body and ALLOW result; the amount and currency sent are the issued transaction's total and currency, the receipt text is the issued nonce's, and the call's clock lies in the capability's window |
| ProtocolTheorems.ReceiptsCarryTheIssuedOrder | src/mandateguard/execution/request.py:12-28 | Over every run, each receipt returned carries the total and currency of the transaction its capability was issued for and the receipt text of the issued nonce |
| ProtocolTheorems.WithdrawalTakesEffect | src/mandateguard/execution/mandate_state.py:769-856 | With the guard free, a revocation or supersession that its conditions allow commits at once: the version is no longer ACTIVE, a successor is, and nothing else of the world changes |
| ProtocolTheorems.WithdrawalStopsCalls | src/mandateguard/execution/executor.py:48-63 | After such a withdrawal no continuation ever finds the version ACTIVE or begins a provider call under it |
| ProtocolTheorems.IssuedAgainstItsWorld | src/mandateguard/execution/authorization.py:78-184 | Every issuance in the log was granted by the issuer against the consent committed at that moment |
| ProtocolTheorems.BooksBalance | src/mandateguard/execution/gate.py:156-179 | Every nonce is untouched, in flight, gate-refused (REJECTED, no call, one refusal event), called (one call, no refusal event, the status its outcome fixes) or left behind by a crash |
| ProtocolTheorems.OrderIdsStandOnSuccess | src/mandateguard/execution/models.py:232-243 | In every reachable world an order id stands exactly in SUCCEEDED rows |
| ProtocolTheorems.ReservedRowsEscaped | src/mandateguard/execution/models.py:254-260 | Without crashes and with nothing in flight, a row is still RESERVED exactly when its one call returned an order id the result object refuses |
| ProtocolWitnesses.OverlongIdStaysReserved | src/mandateguard/execution/razorpay.py:198-204 | Whatever was issued, a matching order whose id is longer than 256 characters ends in a RESERVED row with the guard free, nothing in flight and no crash |
| ProtocolWitnesses.CrashLeavesRowBehind | src/mandateguard/execution/mandate_state.py:529-537 | Whatever was issued, a crash during the call ends in a RESERVED row with one call, no refusal event and the guard free: the account left behind by a crash |
| ProtocolWitnesses.UnsettledRowsExist | src/mandateguard/execution/executor.py:66-139 | Concrete schedules of twelve and ten steps reach both |
| ProtocolSerial.EveryRunIsSerial | src/mandateguard/execution/executor.py:31-139 | Unless an execution dies inside the guard, every schedule leaves the registry and ledger that consent changes and whole executions leave one after the other, and each execution returned what its own turn returns |
| ProtocolSerial.TurnsAreExecutions | src/mandateguard/execution/executor.py:31-139 | Turn by turn, the executor on SQLite leaves tables that represent those books and the same ledger |
| ProtocolSerial.TurnIsExecution | src/mandateguard/execution/executor.py:66-139 | One turn has the tables, ledger, request and result of one call of the executor |
| ProtocolSerial.RequestLeavesExactlyWhen | src/mandateguard/execution/executor.py:81-139 | One request leaves exactly for a bound presentation of current, ACTIVE consent under a fresh nonce; it asks for the presented transaction's total and currency under the nonce's receipt text, and a receipt with these values comes back exactly when the reply echoes them under an id of 1 to 256 characters |
| ProtocolSerial.CapabilityChargesItsOrder | src/mandateguard/execution/request.py:20-28 | However an issued capability is presented, the one request that can leave, and any receipt, carry the issued transaction's total and currency and the issued nonce's receipt text |
| ProtocolSerial.ConsentRefusalConsumes | src/mandateguard/execution/gate.py:156-171 | A fresh capability refused for want of consent sends nothing, leaves a REJECTED row and changes the registry by one event with the reason's value, the clock, the nonce, both hashes and the observed status |
| ProtocolAgreement.UninterruptedMatchesExecutor | src/mandateguard/execution/executor.py:66-139 | Ten uninterrupted steps of one execution leave the ledger, result, request, log and registry that one call of the executor leaves |
| ProtocolAccounting.AccountStep | src/mandateguard/execution/gate.py:156-179 | Each step, whoever takes it, keeps every nonce accounted for |
| ProtocolAccounting.ConsentChangeRefusesNothing | src/mandateguard/execution/mandate_state.py:729-856 | Registering, revoking and superseding write no refusal event |
| ProtocolAccounting.RecordAddsOne | src/mandateguard/execution/mandate_state.py:858-895 | Recording a refusal adds exactly one refusal event, for its own nonce only |
| ProtocolHistory.LateCallStep | src/mandateguard/execution/gate.py:124-154 | One step cannot start a call under a version already withdrawn |
| ProtocolHistory.TracedStep | src/mandateguard/execution/gate.py:70-122 | One step keeps every call in the log traced to an issuance |
| ProtocolInvariants.ConsentHeldStep | src/mandateguard/execution/mandate_state.py:505-537 | One step keeps the bound version current and ACTIVE for the admitted execution |
| ProtocolInvariants.RowHeldStep | src/mandateguard/execution/ledger.py:84-108 | One step keeps the row of the execution between reservation and settlement RESERVED under its own request hash |
| Executor.OneExecution | src/mandateguard/execution/executor.py:81-139 | One request leaves, exactly when the gate proceeds and the nonce is fresh, with the presented transaction's total and currency and the nonce's receipt text; rows only settle; a receipt carries those values and its row is SUCCEEDED with its order id |
| Executor.GrantedRowFollowsReply | src/mandateguard/execution/executor.py:92-139 | For a granted fresh execution the reply alone decides: rejection or a complete non-2xx response ends REJECTED, a matching order with an id of 1 to 256 characters SUCCEEDED with its receipt, a longer id stays RESERVED and raises, everything else ends UNCERTAIN; no other row changes |
| Executor.RefusalsWriteNothing | src/mandateguard/execution/gate.py:70-179 | An early refusal, an undecodable row and a used nonce write nothing and send nothing; each has its one answer |
| Executor.ExecuteOrder | src/mandateguard/execution/executor.py:31-63 | A busy guard changes nothing; otherwise tables, ledger, sent requests and result are exactly the effect of one execution, rolled back on an exception |
| Executor.ExecuteGuarded | src/mandateguard/execution/executor.py:66-139 | Gate, call and settlement compose to that effect inside the open transaction |
| Executor.ValidateAndReserve | src/mandateguard/execution/gate.py:37-179 | The gate's three outcomes with what each writes: refused early (nothing), refused and consumed, granted |
| Executor.AssessConsent | src/mandateguard/execution/gate.py:124-154 | The branches over the two registry reads compute the consent verdict |
| Executor.ConsumeAndRecord | src/mandateguard/execution/gate.py:156-171 | A consumed nonce leaves a REJECTED row and one refusal event, a used nonce leaves nothing |
| Executor.SettleOrder | src/mandateguard/execution/executor.py:95-131 | Each client outcome settles the reserved row to its one status and yields its one result |
| Executor.GateThenSettle | src/mandateguard/execution/executor.py:92-139 | What settling a grant adds to what the gate left is the whole effect |
| Executor.CommittedTables | src/mandateguard/execution/mandate_state.py:529-535 | The tables that survive are the uncommitted ones exactly when a value was returned |
| Gate.EarlyChecksPassExactlyWhenBound | src/mandateguard/execution/gate.py:70-122 | The ordered early checks all pass exactly when every commitment of the capability is recomputed |
| Gate.ProceedsExactlyWhen | src/mandateguard/execution/gate.py:70-179 | The gate proceeds exactly when the presentation is bound and the bound version is current and ACTIVE |
| Gate.ExpiryPrecedesConsent | src/mandateguard/execution/gate.py:86-87 | An expired capability is refused before consent is read, so its nonce is not consumed |
| Gate.NoneFailing | src/mandateguard/execution/gate.py:70-122 | No check of a list fails exactly when all hold |
| RefusalReasons.EarlyReasonIsFirst | src/mandateguard/execution/gate.py:70-122 | An early refusal names a condition that fails and none checked before it fails; nothing fails exactly when there is no early refusal |
| RefusalReasons.LoneFailureIsNamed | src/mandateguard/execution/gate.py:70-122 | If one condition alone fails, the gate refuses with its reason, whatever consent says |
| RefusalReasons.ConsentReasonExactlyWhen | src/mandateguard/execution/gate.py:124-154 | Over any storage, each reason of the consent check is given exactly under its condition on the two reads |
| RefusalReasons.ReachableConsentReason | src/mandateguard/execution/gate.py:124-154 | On a registry some run built: missing means nothing is registered, revoked and superseded are the bound row's own status, a mismatch means another version is current and the bound one has no row or a REVOKED one |
| Gate.IssuedCapabilityPassesExactlyWhen | src/mandateguard/execution/authorization.py:111-184 | Issuer and gate agree: an issued capability with its own inputs passes exactly inside its window while its version is current and ACTIVE |
| Capability.IssuedExactlyWhen | src/mandateguard/execution/authorization.py:78-184 | A capability is issued exactly for a reproduced ALLOW, in the mandate's lifetime, for the configured merchant, against an ACTIVE bound version; its payload carries the recomputed commitments |
| RefusalReasons.IssueRefusedExactlyWhen | src/mandateguard/execution/authorization.py:78-184 | Each refusal of the issuer before consent, and each ValueError, is answered exactly under its condition |
| RefusalReasons.IssueRefusedByConsent | src/mandateguard/execution/authorization.py:125-152 | The remaining refusals say how consent fails on a registry some run built |
| RefusalReasons.IssuedCapabilitySays | src/mandateguard/execution/authorization.py:154-184 | Every field of an issued capability: the request's nonce, times and version, the configuration, the recomputed hashes, ALLOW, the replayed semantic hashes, signed under the given key |
| Checkout.ChosenVersionRegisters | src/mandateguard/intelligence/orchestration.py:668-699 | The version a checkout chooses registers exactly when it may, and is then current and ACTIVE: the requested one, one for a new mandate, the ACTIVE one again, or one more than a withdrawn one |
| Checkout.CheckoutPassesTheGate | src/mandateguard/intelligence/orchestration.py:668-720 | Building the mandate (fifteen minutes, line 264), registering, issuing and presenting in one checkout always passes the gate unless registration meets a later withdrawal time |
| Checkout.CheckoutWindow | src/mandateguard/intelligence/orchestration.py:668-720 | A checkout's capability passes from thirty seconds before the checkout until two minutes after it, while its version stays current and ACTIVE, under a mandate that lives fifteen minutes |
| Ledger.SqlExecutionLedger.ReserveNonce | src/mandateguard/execution/ledger.py:62-82 | Inserts a RESERVED row or, on a used nonce, changes nothing |
| Ledger.SqlExecutionLedger.Update | src/mandateguard/execution/ledger.py:84-108 | Updates the row exactly when nonce, request hash and RESERVED all match |
| Ledger.SqlExecutionLedger.MarkSucceeded | src/mandateguard/execution/ledger.py:110-121 | Conditional move to SUCCEEDED with the order id |
| Ledger.SqlExecutionLedger.MarkRejected | src/mandateguard/execution/ledger.py:123-131 | Conditional move to REJECTED without an order id |
| Ledger.SqlExecutionLedger.MarkUncertain | src/mandateguard/execution/ledger.py:133-141 | Conditional move to UNCERTAIN without an order id |
| Ledger.ReservesExactlyWhen | src/mandateguard/execution/ledger.py:62-82 | A nonce is reserved exactly when it has no row, and only that row is new |
| Ledger.SettlesExactlyWhen | src/mandateguard/execution/ledger.py:84-108 | A row is settled exactly when it is RESERVED under the same request hash, and only it changes |
| Ledger.EvolvesTransitive | src/mandateguard/execution/ledger.py:84-108 | Settling composes: rows that only settle over two stretches only settle over both |
| Provider.CreatedExactlyWhen | src/mandateguard/execution/razorpay.py:171-204 | An order is accepted exactly on a 2xx reply that echoes amount, currency and receipt, is created, and has an id of 1 to 256 characters |
| Provider.EscapesExactlyWhen | src/mandateguard/execution/razorpay.py:198-204 | Of the replies whose body decodes, exactly an otherwise valid order whose id is longer than 256 characters raises outside the three classes |
| Provider.RejectedOrAmbiguousExactlyWhen | src/mandateguard/execution/razorpay.py:131-161 | Rejected exactly on a raised rejection or a response code outside 200 to 299, ambiguous exactly on any other unforeseen exception or a non-response |
| Provider.InvalidExactlyWhen | src/mandateguard/execution/razorpay.py:135-195 | Invalid exactly on a raised invalid response or a 2xx response that is no order matching the request under a non-empty id |
| ConsentHistory.ReachableIsShaped | src/mandateguard/execution/mandate_state.py:255-382 | After any calls the pointer is the greatest version, only it can be ACTIVE, it is never SUPERSEDED, times follow versions and a superseded row names the next existing version |
| ConsentHistory.TerminalRowsAreFinal | src/mandateguard/execution/mandate_state.py:255-382 | No call changes or removes a REVOKED or SUPERSEDED row |
| ConsentHistory.TerminalForever | src/mandateguard/execution/mandate_state.py:255-382 | Over any continuation of a run a terminal row stays as it is |
| ConsentHistory.OtherMandatesUntouched | src/mandateguard/execution/mandate_state.py:255-413 | A call changes nothing of another mandate |
| ConsentHistory.ApplyKeepsShape | src/mandateguard/execution/mandate_state.py:255-413 | Each of the four calls keeps the shape |
| ConsentHistory.ReachableIsChained | src/mandateguard/execution/mandate_state.py:223-253 | After any calls every audit log is a valid hash chain of its own mandate |
| ConsentHistory.HeadCommitsToLog | src/mandateguard/execution/mandate_state.py:897-921 | Two valid audit logs of one mandate that end in the same hash are equal, given a collision-free digest |
| ConsentHistory.AuditLogRebuildsState | src/mandateguard/execution/mandate_state.py:223-413 | Replaying a mandate's log from empty rebuilds its rows and pointer, and every event's previous and current status are the replayed ones around it, refusals included |
| ConsentHistory.ApplyKeepsReplay | src/mandateguard/execution/mandate_state.py:255-413 | Each call keeps the log replaying to the state |
| ConsentOutcomes.RegistersExactlyWhen | src/mandateguard/execution/mandate_state.py:255-293 | On every reachable registry: when registration succeeds, and each refusal exactly under its condition, with nothing changed |
| ConsentOutcomes.RegistrationLeaves | src/mandateguard/execution/mandate_state.py:271-293 | Registering the ACTIVE version again changes nothing; otherwise one ACTIVE row, the pointer and one event are new |
| ConsentOutcomes.RevokesExactlyWhen | src/mandateguard/execution/mandate_state.py:295-307 | Revocation succeeds exactly for a valid id whose current row has that version and is REVOKED, or ACTIVE and no later; each refusal exactly under its condition |
| ConsentOutcomes.RevocationLeaves | src/mandateguard/execution/mandate_state.py:304-327 | The ACTIVE row becomes REVOKED with both times the call's, the pointer stays, one event follows; revoking again changes nothing |
| ConsentOutcomes.SupersedesExactlyWhen | src/mandateguard/execution/mandate_state.py:329-347 | Supersession succeeds exactly on the current ACTIVE version, by a greater version at no earlier time; each refusal exactly under its condition |
| ConsentOutcomes.SupersessionLeaves | src/mandateguard/execution/mandate_state.py:348-382 | The old row names its successor, the new version is current and ACTIVE, and the retirement's event comes before the registration's |
| ConsentOutcomes.RefusalIsRecorded | src/mandateguard/execution/mandate_state.py:384-413 | Recording succeeds exactly under a valid id and version and adds one event with the observed status before and after, nothing else |
| ConsentOutcomes.SqlRegistration | src/mandateguard/execution/mandate_state.py:729-767 | Over any tables: each answer exactly under its condition on the row read, and the row, pointer and event of a success, or the UNIQUE hash undoes it |
| ConsentOutcomes.SqlRevocation | src/mandateguard/execution/mandate_state.py:769-801 | The same for revocation, which does not check the id |
| ConsentOutcomes.SqlSupersessionRefuses | src/mandateguard/execution/mandate_state.py:803-834 | The same for the refusals of supersession |
| ConsentOutcomes.SqlSupersession | src/mandateguard/execution/mandate_state.py:835-856 | Both rows, the pointer and both events, or nothing |
| ConsentOutcomes.SqlRefusal | src/mandateguard/execution/mandate_state.py:858-895 | Recording a refusal over any tables: corrupt and missing rows are annotated without a status |
| ConsentOutcomes.RowDecodesExactlyWhen | src/mandateguard/execution/mandate_state.py:540-561 | A stored row decodes exactly when its id, version and the columns of its status fit |
| ConsentOutcomes.CorruptExactlyWhen | src/mandateguard/execution/mandate_state.py:563-619 | The current row is corrupt exactly when the version pointed to is missing, another one is ACTIVE or a greater one exists |
| InMemoryConsent.InMemoryRegistry.GetCurrent | src/mandateguard/execution/mandate_state.py:207-211 | A malformed id is refused; otherwise the row under the pointer, if any, is returned |
| InMemoryConsent.InMemoryRegistry.AppendEvent | src/mandateguard/execution/mandate_state.py:223-253 | Appends the next chained event |
| InMemoryConsent.InMemoryRegistry.RegisterActive | src/mandateguard/execution/mandate_state.py:255-293 | The dict updates are the registration rule's new state and answer |
| InMemoryConsent.InMemoryRegistry.Revoke | src/mandateguard/execution/mandate_state.py:295-327 | The dict updates are the revocation rule's new state and answer, which `ConsentOutcomes.RevokesExactlyWhen` and `RevocationLeaves` pin |
| InMemoryConsent.InMemoryRegistry.Supersede | src/mandateguard/execution/mandate_state.py:329-382 | Two rows, the pointer and two events change together, as the supersession rule says |
| InMemoryConsent.InMemoryRegistry.RecordExecutionRefusal | src/mandateguard/execution/mandate_state.py:384-413 | Only the log changes, by one refusal event |
| SqlRegistry.SqlMandateRegistry.Begin | src/mandateguard/execution/mandate_state.py:515-528 | Takes the write lock and remembers the committed tables, or is busy and writes nothing |
| SqlRegistry.SqlMandateRegistry.EndTransaction | src/mandateguard/execution/mandate_state.py:529-537 | Commits a normal exit and restores the remembered tables after an exception |
| SqlRegistry.SqlMandateRegistry.AssertConsistent | src/mandateguard/execution/mandate_state.py:563-603 | The steps of the consistency check (current version, versions by status, ACTIVE list, newer list) pass exactly when the current version exists, none is newer and no other is ACTIVE |
| SqlRegistry.SqlMandateRegistry.ActiveAndNewer | src/mandateguard/execution/mandate_state.py:588-600 | The loop lists the ACTIVE versions, each once, and the versions newer than the pointer |
| SqlRegistry.SqlMandateRegistry.GetCurrent | src/mandateguard/execution/mandate_state.py:605-619 | Check, then read and decode: absent, corrupt, undecodable or the row, as the tables say |
| SqlRegistry.SqlMandateRegistry.AppendUnlocked | src/mandateguard/execution/mandate_state.py:674-727 | The next event from the last stored row, refused by the UNIQUE hash |
| SqlRegistry.SqlMandateRegistry.RegisterActive | src/mandateguard/execution/mandate_state.py:729-767 | One transaction with the relational rule's tables and answer, or busy and unchanged |
| SqlRegistry.SqlMandateRegistry.Revoke | src/mandateguard/execution/mandate_state.py:769-801 | One transaction with the relational rule's tables and answer, which `ConsentOutcomes.SqlRevocation` pins, or busy and unchanged |
| SqlRegistry.SqlMandateRegistry.Supersede | src/mandateguard/execution/mandate_state.py:803-856 | One transaction with both rows, the pointer and both events, or busy and unchanged |
| SqlRegistry.SqlMandateRegistry.RecordExecutionRefusal | src/mandateguard/execution/mandate_state.py:858-895 | Joins the open transaction or runs its own |
| SqlRegistry.SqlMandateRegistry.AuditEvents | src/mandateguard/execution/mandate_state.py:897-921 | Revalidates the stored chain before returning it |
| ConsentRefinement.SqlRefinesDictionaries | src/mandateguard/execution/mandate_state.py:198-921 | On every sequence of calls the tables represent the dictionaries, and the answers agree exactly except on a malformed id given to revoke or supersede |
| ConsentRefinement.SqlReadsRefineDictionaries | src/mandateguard/execution/mandate_state.py:563-640 | After every run the reads agree, the stored events are the dictionary's log and their chain revalidates |
| ConsentRefinement.ApplyRefines | src/mandateguard/execution/mandate_state.py:729-895 | One call: the representation is kept and the answers agree exactly outside that case |
| ConsentRefinement.ReadsAgree | src/mandateguard/execution/mandate_state.py:563-619 | On reachable storage the consistency check never raises and the row read is the dictionary's |
| ConsentRefinement.LastRowIsListEnd | src/mandateguard/execution/mandate_state.py:688-709 | Numbering and linking from the last stored row give the event that the list length gives |
| ConsentRefinement.NewHashIsFree | src/mandateguard/execution/mandate_state.py:491-503 | The UNIQUE constraint on event hashes cannot fire |
| ConsentRefinement.InsertMatchesAppend | src/mandateguard/execution/mandate_state.py:674-727 | Inserting an event keeps the audit table equal to the dictionary's lists and never fails |
| ConsentRefinement.MalformedRevokeAnswersDiffer | src/mandateguard/execution/mandate_state.py:769-801 | The smallest call on which the two registries answer differently |
| ConsentDigest.CanonicalDigestIsCollisionFree | src/mandateguard/execution/mandate_state.py:167-195 | Over canonical JSON, an injective hash is collision free on every event body the registry can write |
| ConsentDigest.RegistriesAgreeOverCanonicalJson | src/mandateguard/execution/mandate_state.py:711-725 | The refinement of the dictionaries with the digest the program uses |
| ConsentDigest.StoredEventRehashes | src/mandateguard/execution/mandate_state.py:897-921 | A stored event parsed back, stripped of its hash and serialised again is the text that was hashed |
| ConsentDigest.BodyStarts | src/mandateguard/execution/mandate_state.py:167-195 | The first six members of the hashed body of an audit event, by name and value |
| ConsentDigest.BodyEnds | src/mandateguard/execution/mandate_state.py:167-195 | Its last six members |
| ConsentDigest.StatusReads | src/mandateguard/execution/mandate_state.py:167-195 | A status is written by name, an unobserved one as null |
| Json.CanonSpec | src/mandateguard/core/canonical.py:60-67 | Sorting the keys at every depth gives a canonical tree with the same value |
| Json.CanonicalIsUnique | src/mandateguard/core/canonical.py:60-67 | A canonical tree is determined by the value it stands for |
| Json.SameCanonExactlyWhenEqual | src/mandateguard/core/canonical.py:60-67 | Two trees have one canonical form exactly when they are the same value up to member order; True and 1 stay apart |
| Json.SortSpec | src/mandateguard/core/canonical.py:63 | Sorted members are in key order and are the same members |
| Json.Print | src/mandateguard/core/canonical.py:60-67 | The text is never empty and holds no character below U+0020 |
| JsonParser.ParseInvertsPrint | src/mandateguard/core/canonical.py:56-70 | Parsing inverts printing on every tree of dicts, whatever the member order |
| JsonParser.ValueRoundTrip | src/mandateguard/core/canonical.py:60-67 | Inside any document, scanning a printed value returns it and stops at its end |
| JsonParser.StringRoundTrip | src/mandateguard/core/canonical.py:60-67 | Every string, control characters included, is read back from its escapes |
| JsonParser.NumberRoundTrip | src/mandateguard/core/canonical.py:60-67 | Every integer is read back from its digits |
| JsonParser.IntegerExactlyWhen | src/mandateguard/core/canonical.py:56-70 | A run of digits is read as an integer exactly when no fraction or exponent follows |
| JsonParser.ScannedIsDictTree | src/mandateguard/audit/journal.py:35-41 | Whatever the text, a parsed document has no duplicate key at any depth |
| CanonicalJson.CanonicalTextDeterminesValue | src/mandateguard/core/canonical.py:56-70 | Two values have the same canonical text exactly when their normalised values are equal, and the text parses back to that value |
| CanonicalJson.TextSaysTheValue | src/mandateguard/core/canonical.py:22-70 | A value stands for a dictionary, list or scalar, given part by part, exactly when its text exists and parses to that |
| CanonicalJson.NormalizedStands | src/mandateguard/core/canonical.py:22-53 | Normalisation keeps every part: an enum is its value, a list its items, a mapping its entries, a dataclass the fields that are not both None and marked to be omitted |
| CanonicalJson.RecordHoldsItsFields | src/mandateguard/core/canonical.py:33-41 | A name stands in a dataclass's object exactly when its field is not left out, with the meaning of the field's normalised value |
| CanonicalJson.StandsForOne | src/mandateguard/core/canonical.py:22-53 | A value stands for one thing only |
| CanonicalJson.SameTextExactlyWhenSame | src/mandateguard/core/canonical.py:56-70 | Two values have one text exactly when they stand for the same |
| RecordText.RecordReads | src/mandateguard/core/canonical.py:33-41 | The text of a dataclass is its written fields in name order, each a quoted name and the text of its value |
| RecordText.HardConstraintsRead | src/mandateguard/models/mandate.py:61-74 | The text of a mandate's hard constraints: absent merchant and SKU allowlists are null, an absent product family allowlist is not written |
| RecordText.PlainQuote | src/mandateguard/core/canonical.py:60-67 | A text without control characters, quotation marks and backslashes is written between two quotation marks |
| RecordText.EscapedAs | src/mandateguard/core/canonical.py:60-67 | Quotation mark, backslash and five control characters are escaped by a letter, the other control characters by four hexadecimal digits, nothing else |
| RecordText.ListReads | src/mandateguard/core/canonical.py:49-50 | The text of a list is its items' texts between brackets; an enum's text is its value's |
| CanonicalJson.SameTextExactlyWhenEqual | src/mandateguard/core/canonical.py:56-70 | The same for normalised trees: printing is injective and blind to insertion order |
| CanonicalJson.TextParsesBack | src/mandateguard/core/canonical.py:56-70 | Canonical text parses to the normalised value with its members in key order |
| CanonicalJson.InsertionOrderDoesNotShow | src/mandateguard/core/canonical.py:44-49 | All insertion orders of the same entries under distinct keys have the same text, or all none |
| CanonicalJson.AdjacentEntriesCommute | src/mandateguard/core/canonical.py:44-49 | Swapping two neighbouring entries of different keys changes nothing, also beside repeated keys |
| CanonicalJson.RefusesExactlyUnrepresentable | src/mandateguard/core/canonical.py:21-53 | Serialising fails exactly when a float, a naive time, a non-string key or an unsupported object occurs at some depth |
| CanonicalJson.NormalizedIsDictTree | src/mandateguard/core/canonical.py:21-53 | Normalisation yields objects with distinct keys at every depth |
| CanonicalJson.AssignFields | src/mandateguard/core/canonical.py:45-49 | Filling the result dict is dict assignment |
| DecisionEvents.FromJson | src/mandateguard/audit/event.py:340-387 | Whatever the strict decoder accepts is an event the constructor accepts |
| DecisionEvents.RecordRoundTrip | src/mandateguard/audit/event.py:335-387 | The decoder returns the event whose record was sorted and written |
| EventRecords.AcceptedExactlyWhen | src/mandateguard/audit/event.py:169-257 | The decoder returns an event for its record exactly when schema, sequence, times, digests, the results A1 to A8, the findings of B1 to B10 and the action are what the constructor asks for |
| EventRecords.ActionSaysTheFindings | src/mandateguard/audit/event.py:133-145 | A valid event is BLOCK exactly with a Tier B finding or a failed check, REVIEW exactly without these but with a check that could not be evaluated, ALLOW exactly when all eight passed |
| EventRecords.RecordStarts | src/mandateguard/audit/event.py:96-130 | The first eight members of an event's record, by name and value |
| EventRecords.RecordEnds | src/mandateguard/audit/event.py:96-130 | Its last eight members |
| EventRecords.ResultAndFindingSay | src/mandateguard/audit/event.py:79-93 | The members of a check result's and a finding's record |
| DecisionEvents.RecordNormalizes | src/mandateguard/audit/event.py:439-442 | Serialising the record of a constructed event never fails and gives the text of its record |
| DecisionEvents.ComposerAgreesWithEvent | src/mandateguard/audit/event.py:133-147 | The action an event must carry is the one the decision composer reaches from the findings, because every FAIL carries its finding |
| DecisionEvents.FindingRoundTrip | src/mandateguard/audit/event.py:399-413 | A finding is read back from its record |
| DecisionEvents.ResultRoundTrip | src/mandateguard/audit/event.py:416-430 | A Tier A result is read back from its record |
| EventText.RecordTextReadsBack | src/mandateguard/audit/journal.py:70-88 | A valid event is read back from its canonical line |
| EventText.ReadRecord | src/mandateguard/audit/journal.py:70-88 | A line is accepted only as the canonical text of a valid event |
| EventText.BodyTextDeterminesBody | src/mandateguard/audit/event.py:433-436 | Two valid events with one body text differ at most in their own hash |
| HashChain.VerifyHashChain | src/mandateguard/audit/hash_chain.py:29-48 | The loop accepts exactly the chains with one-based sequence numbers, right back links and right hashes |
| HashChain.ChainGrows | src/mandateguard/audit/hash_chain.py:29-48 | A chain grows exactly by events that link to its head |
| HashChain.HeadCommitsToHistory | src/mandateguard/audit/hash_chain.py:29-48 | Two valid chains with one head hash are equal event for event, or two of their own events collide; nothing is assumed of the hash |
| Framing.ReadsExactlyTexts | src/mandateguard/audit/journal.py:63-89 | A text of lines is accepted exactly when it is the concatenation of valid records' lines |
| Framing.ReadEach | src/mandateguard/audit/journal.py:69-89 | The read loop returns all records or fails at the first refused line |
| Framing.PrefixReadsAsPrefix | src/mandateguard/audit/journal.py:63-67 | A prefix of an accepted text is refused or reads as a prefix of the records |
| Framing.SplitLosesNothing | src/mandateguard/audit/journal.py:69 | Splitting at newlines loses nothing |
| Journal.AcceptsExactlyHistories | src/mandateguard/audit/journal.py:56-95 | read_all accepts a text exactly when it is the canonical lines of a valid chain, and returns that chain |
| Journal.AppendThenRead | src/mandateguard/audit/journal.py:97-128 | Appending a linked event is read back as the old history plus the event |
| Journal.TruncationLosesOnlyTheTail | src/mandateguard/audit/journal.py:56-95 | A truncated journal is refused or read as a prefix of the history |
| Journal.HeadCommitsToText | src/mandateguard/audit/hash_chain.py:29-48 | Two accepted journals with one head hash are the same text or exhibit a collision |
| Journal.CreatedIsSelfHashed | src/mandateguard/audit/event.py:259-314 | A created event carries the hash of its own body |
| Journal.DecisionJournal.Read | src/mandateguard/audit/journal.py:56-95 | The reading method computes the specification of read_all |
| Journal.DecisionJournal.Append | src/mandateguard/audit/journal.py:97-128 | Append succeeds exactly when the file reads and the event links to it; then the file reads as the old history plus the event, otherwise it is unchanged |
| Journal.ObjectWithoutDuplicateKeys | src/mandateguard/audit/journal.py:35-41 | Returns the pairs exactly when no key repeats |
| Ranking.RocAuc | src/mandateguard/ml/anomaly_eval.py:283-306 | The rank-sum loop over sorted pairs equals the pairwise definition on the caller's order |
| Ranking.AverageRanks | src/mandateguard/ml/anomaly_eval.py:286-295 | The nested loops give every position its tie-averaged rank |
| Ranking.RankSumCountsPairs | src/mandateguard/ml/anomaly_eval.py:300-306 | The positives' rank sum less its least value counts wins plus half the ties |
| Ranking.RunRank | src/mandateguard/ml/anomaly_eval.py:289-294 | All members of a maximal run of equal scores have the run's average position as rank |
| Ranking.AucIsInUnitInterval | src/mandateguard/ml/anomaly_eval.py:283-306 | AUC lies between zero and one |
| Ranking.NegatingComplementsAuc | src/mandateguard/ml/anomaly_eval.py:283-306 | Negating every score gives one minus the AUC |
| Ranking.RecallAtFpr | src/mandateguard/ml/anomaly_eval.py:323-337 | The method reads the threshold the specification names and counts the positives above it |
| Ranking.RecallIsBestWithinTarget | src/mandateguard/ml/anomaly_eval.py:323-337 | Below a target of one the threshold keeps the false positives within the target and no other such threshold finds more positives |
| Ranking.RecallIsBestExactlyWhen | src/mandateguard/ml/anomaly_eval.py:323-337 | For a target of zero or more, the recall returned is the best within the target exactly when there are no positives, or there are negatives and the target is below one or every positive scores above the least negative |
| Ranking.NoNegativesMissPositives | src/mandateguard/ml/anomaly_eval.py:330-331 | Without negatives zero is returned although a threshold without false positives finds every positive |
| Ranking.FullTargetMayMissPositives | src/mandateguard/ml/anomaly_eval.py:332-333 | At a target of one the least negative is still excluded, so a better admissible threshold can exist |
| Fusion.FuseRrf | src/mandateguard/ml/semantic_v2_eval.py:273-280 | The two passes over one dict give exactly the ranking of all candidates by fused score, each once |
| Fusion.Accumulate | src/mandateguard/ml/semantic_v2_eval.py:276-279 | One pass adds each document's reciprocal-rank credit and keeps the keys in insertion order |
| Fusion.RankingIsUnique | src/mandateguard/ml/semantic_v2_eval.py:280 | There is one ranking of a set of candidates by a score |
| Fusion.FusionIsSymmetric | src/mandateguard/ml/semantic_v2_eval.py:273-280 | Swapping the two inputs changes nothing |
| Fusion.FusionRespectsDominance | src/mandateguard/ml/semantic_v2_eval.py:273-280 | A document ahead of another in both rankings is ahead in the fusion |
| Fusion.BothPrecedeOne | src/mandateguard/ml/semantic_v2_eval.py:273-280 | A document among the first 62 of both rankings precedes every document that only one holds, except in the one tie, rank 62 twice against rank 1, where the smaller number comes first |
| Fusion.Deduplicate | src/mandateguard/ml/semantic_v2_eval.py:297-318 | Keeps a subsequence in which no outside offer repeats, and stops early only at the limit |
| Fusion.KeptCoversSeen | src/mandateguard/ml/semantic_v2_eval.py:302-315 | Every offer seen is kept, itself or as an earlier equal |
| Fusion.OwnIsKept | src/mandateguard/ml/semantic_v2_eval.py:302-315 | An own product is always kept |
| Fusion.OutsideKeptExactlyWhenNew | src/mandateguard/ml/semantic_v2_eval.py:302-315 | An outside offer is kept exactly when no kept one before it has its identity |
| Fusion.SubsequenceKeepsDistinct | src/mandateguard/ml/semantic_v2_eval.py:297-318 | De-duplication of a ranking without duplicates has none |
| RetrievalMetrics.HitsAreBounded | src/mandateguard/ml/semantic_v2_eval.py:322-323 | A duplicate-free ranking hits at most as often as there are positions or relevant documents |
| RetrievalMetrics.RecallIsFraction | src/mandateguard/ml/semantic_v2_eval.py:322-323 | Recall lies between zero and one and is one exactly when as many were found as could be |
| RetrievalMetrics.GainAtMostIdeal | src/mandateguard/ml/semantic_v2_eval.py:329-338 | The gain of some hits is at most that of as many leading hits, with equality exactly when they lead |
| RetrievalMetrics.NdcgIsOneExactlyWhenLeading | src/mandateguard/ml/semantic_v2_eval.py:330-344 | NDCG lies between zero and one and is one exactly when the first min(10, relevant) results are all relevant |
| RetrievalMetrics.OneRelevantDocument | src/mandateguard/ml/semantic_v2_eval.py:322-344 | With one relevant document at rank r, NDCG is the discount of r over that of one up to rank ten and zero beyond, recall at k one up to k and zero beyond |
| Quantization.SignedInvertsToByte | src/mandateguard/discovery/classifier.py:37-38 | Unpacking inverts packing exactly on signed bytes |
| Quantization.ClampNeverBites | src/mandateguard/discovery/classifier.py:173 | In exact arithmetic the clamp changes nothing |
| Quantization.CoefficientError | src/mandateguard/discovery/classifier.py:160-176 | Each coefficient read back is off by at most half of its row's scale |
| Quantization.RoundsHalvesToEven | src/mandateguard/discovery/classifier.py:173 | Rounding goes to the nearest integer and from the middle to the even one |
| Quantization.PeakPacksToTheEnd | src/mandateguard/discovery/classifier.py:166-174 | The largest coefficient of a row packs to 127 or -127 |
| Quantization.QuantizeRows | src/mandateguard/discovery/classifier.py:160-176 | The loop packs the rows end to end with one scale per row |
| Quantization.DecisionScores | src/mandateguard/discovery/classifier.py:103-132 | The nested loops compute each class score from its slice of the packed bytes, over the norm that `NormIsLength` characterises |
| Quantization.NormIsLength | src/mandateguard/discovery/classifier.py:119-121 | The divisor is positive, its square is the sum of the squared weights when some weight is not zero, and it is one otherwise |
| Quantization.OneTermScore | src/mandateguard/discovery/classifier.py:122-131 | With one matched term of positive weight a score is the intercept plus the term's coefficient read back |
| Quantization.DotAdds | src/mandateguard/discovery/classifier.py:128-130 | Terms contribute one by one |
| Quantization.ScoreIgnoresLength | src/mandateguard/discovery/classifier.py:103-132 | Multiplying every weight by one positive factor leaves every score unchanged |
| Quantization.DotError | src/mandateguard/discovery/classifier.py:122-131 | Coefficients off by half a scale move a dot product by at most half the scale times the total absolute weight |
| Quantization.ScoreError | src/mandateguard/discovery/classifier.py:103-132 | A class score is off by at most half the scale times the sum of absolute term weights over their norm |
| Quantization.DecisionScoreError | src/mandateguard/discovery/classifier.py:103-132 | The same with the divisor decision_scores uses, which is the length of the weight vector |
| Quantization.ScoreErrorByTerms | src/mandateguard/discovery/classifier.py:103-132 | Whatever the weights, quantisation moves a score by at most half the row's scale times the square root of the number of matched terms |
| Quantization.PackedRowAt | src/mandateguard/discovery/classifier.py:126-130 | The slice at class times dimensions is that class's packed row |
| Percentile.NearestRankPercentile | src/mandateguard/benchmark/results.py:271-280 | Returns an element with at least the rank many values at or below it and fewer strictly below, or says why there is none |
| Percentile.RankIsUnique | src/mandateguard/benchmark/results.py:271-280 | At most one number stands at a rank |
| RunSummary.BuildRunSummary | src/mandateguard/benchmark/results.py:379-423 | The loop builds its six tables and four lists as each is defined on its own, and fails exactly on a label without a bucket |
| RunSummary.Count | src/mandateguard/benchmark/results.py:294-306 | _tally adds one result's tally to the bucket of one key |
| RunSummary.PartitionAddsUp | src/mandateguard/benchmark/results.py:396-404 | The buckets of a partition add up, field by field, to the tally of what they partition |
| RunSummary.FamiliesAndTiersAddUp | src/mandateguard/benchmark/results.py:397-400 | Families and tiers each partition the results |
| RunSummary.TargetStatusesAddUp | src/mandateguard/benchmark/results.py:401-404 | The registered target statuses partition their tier |
| RunSummary.ActionsAddUpToCompleted | src/mandateguard/benchmark/results.py:405-425 | The action counts sum to the completed cases, of which the errors are the rest |
| RunSummary.BucketBalances | src/mandateguard/benchmark/results.py:294-306 | In every bucket matches and mismatches sum to the total, for statuses and for actions |
| RunSummary.BucketCounts | src/mandateguard/benchmark/results.py:294-306 | A bucket counts the places of the results under its key, of those whose observed status is the target, whose observed action is the expected one, and that observed nothing |
| RunSummary.FamilyAndTierTables | src/mandateguard/benchmark/results.py:396-400 | The tables by family and tier count the results of each |
| RunSummary.TargetTables | src/mandateguard/benchmark/results.py:401-404 | The two target tables count the results of tier A, and of any other tier, by target status |
| RunSummary.ObservationTables | src/mandateguard/benchmark/results.py:405-412 | The tables of observations count the completed results by final action and by family status |
| RunSummary.ListsExtend | src/mandateguard/benchmark/results.py:405-423 | One more result extends each list exactly where it errored, missed its status, missed its action or observed something |
| RunSummary.BenchmarkKeysAreSound | src/mandateguard/benchmark/results.py:31-33 | The program's keys are distinct and its tiers are two |
| Manifest.ManifestRoundTrip | src/mandateguard/benchmark/manifest.py:54-126 | Reading a printed manifest returns its records, and the preamble check returns the preamble it was printed after |
| Manifest.ReadsBackExactlyWhen | src/mandateguard/benchmark/manifest.py:54-126 | Records and preamble of a printed manifest both read back exactly when the preamble is accepted, ends a line and holds no line that is the key |
| Manifest.RenderingReadsBackExactlyWhen | src/mandateguard/benchmark/manifest.py:54-126 | The same for every list the printer accepts: reading gives the records' projections to the registered fields |
| Manifest.RenderManifest | src/mandateguard/benchmark/manifest.py:110-126 | Prints exactly non-empty lists of records that have every field with a safe scalar, in field order, and refuses the rest |
| Manifest.WritablePrintsAsIs | src/mandateguard/benchmark/manifest.py:110-126 | Records with exactly the registered fields in order are printed as they stand |
| Manifest.ReadManifest | src/mandateguard/benchmark/execution.py:176-191 | The reading loop computes the line-by-line specification |
| Manifest.PreambleReadsBack | src/mandateguard/benchmark/manifest.py:54-75 | In a printed manifest the preamble check finds the one key where it was printed |
| Manifest.CellReadsBack | src/mandateguard/benchmark/execution.py:188-189 | A printed field line reads back as its field |
| Manifest.RecordReadsAs | src/mandateguard/benchmark/manifest.py:110-126 | A record is written field by field, the first after a dash, each as name, colon and quoted text or null |
| Manifest.BlockReadsAs | src/mandateguard/benchmark/manifest.py:110-126 | The block of cases is its key and every record's lines, each ended by a newline |
| Manifest.CaseStartsAs | src/mandateguard/benchmark/manifest.py:28-40 | The first six of the eleven lines of a case |
| Manifest.CaseEndsAs | src/mandateguard/benchmark/manifest.py:28-40 | The last five |
| Manifest.UnseparatedCell | src/mandateguard/benchmark/execution.py:188-189 | A line without a separator is a key with an empty text |
| Manifest.StampedExactlyWhen | src/mandateguard/benchmark/execution.py:582-587 | A case that ran is stamped exactly when its first_run_at is null, and only that field changes |
| Manifest.EmptyPreambleIsNotRead | src/mandateguard/benchmark/execution.py:176-178 | After an empty preamble the printed manifest is not read at all |
| Manifest.ApplyFirstRun | src/mandateguard/benchmark/execution.py:579-592 | The loop stamps the cases that ran and counts them, or refuses at the first that ran before |
| Manifest.StampChangesOnlyFirstRun | src/mandateguard/benchmark/execution.py:582-587 | Stamping changes first_run_at and nothing else, and cannot be done twice |
| Manifest.StampingIsWriteOnce | src/mandateguard/benchmark/execution.py:579-592 | Stamping succeeds exactly when no case that ran has run before; a second stamp of the same case is refused |
| Manifest.RewriteStampsRecords | src/mandateguard/benchmark/execution.py:579-596 | The rewrite gives the same preamble over the stamped records, or fails where stamping fails |
| Manifest.SecondRewriteIsRefused | src/mandateguard/benchmark/execution.py:579-596 | A second rewrite for any case of the first is refused |
| Manifest.RegisteredFieldsArePlain | src/mandateguard/benchmark/manifest.py:28-40 | The registered field names are distinct and carry no separator |

## Left out

- UTF-8 and lone surrogates: texts are sequences of Unicode characters. A `\ud800` escape without its pair has no character here and is refused by the reader; the program decodes it and then fails to encode it again.
- CPython limits: recursion depth and the 4300-digit limit on integer text.
- The text of times: naive times are refused by the serialiser, calendars and offsets are not modelled.
- SQLite internals: busy waits in seconds, 64-bit integers, type affinity, file durability; one write lock, atomic commit and rollback. The stored event JSON is kept as the event; `ConsentDigest.StoredEventRehashes` justifies this.
- Argument type checks that raise `TypeError`, and the digest pattern check of `record_execution_refusal`, whose callers pass digests.
- UUID parsing: an id is a text that Python's `UUID` accepts or does not.
- HMAC and SHA-256 internals, key material checks, credentials and HTTP: a reply is a transport outcome or a status with a decoded body.
- The re-entrant lock of the dictionary registry: the step system has one guard for all consent changes, as the SQLite registry does.
- The Tier A/B policy, the semantic verifier, replay, the buyer, the sandbox and the user interface.
- `_average_precision`, `fuse_weighted`, `_minmax`, `predict` and `observed_compositions`: they would add members of the same kind as `RankIsUnique` and `PartitionAddsUp`.
- Normalisation of product texts before de-duplication: an offer's identity is the tuple after trimming and case folding.
- Turning text into terms before scoring, and single-precision storage of scales: `DecisionScores` starts from positions and weights.
- RecallAtFpr: a negative target, which would index the sorted negatives from the other end, is not modelled.
- NearestRankPercentile: the rank is the exact ceiling; the program computes the quotient in floating point first.
- The corpus half of the first-run rewrite, which goes through the case codec, and the line-ending normalisation before the manifest is read.
- Manifest.ApplyFirstRun: the check that a record's fields have not drifted is made once over the stamped records in `Manifest.Rewrite`, not inside the loop; either way nothing is written.
- RunSummary.BuildRunSummary: the fields copied from the seal, the error types and messages, the counts taken outside the loop (compositions, extra findings, semantic decisions and constraints) and the latency percentiles are not part of the summary here.
- Provider.EscapesExactlyWhen: a body with an integer of more than 4300 digits, on which CPython's JSON decoder raises a plain `ValueError`, is not a reply of the model.
- ProtocolSerial.EveryRunIsSerial: a death inside the guard is excluded, because it leaves part of an execution behind; `ProtocolTheorems.BooksBalance` accounts for it.
