# Procurement intelligence: money, evidence and time

A Dafny model of the parts of the procurement intelligence service whose correctness depends on several
functions together. Each module follows one component of the program. What the program computes as an
expression is a function here, what it does step by step is a method with loops or a class with fields, and
each such method is proved equal to a specification function about which the theorems are proved.

Modules whose name ends in `Exact` say what the operations of their component do in terms of the tables, texts and
numbers they work on, not of the functions they are made of.

- **Credits and hosted extraction.** `Ledger` is the account, its holds and its append-only entries. `Fence`
  puts the extraction protocol on top of it as a transition system: any number of workers, one row lock per
  version, a clock that never goes back, crashes and rollbacks at any point, changing inputs, operator grants
  and operator decisions. `FenceSafety` proves what every interleaving keeps, `FenceProgress` what an
  attempt achieves whatever the others do meanwhile, and `FenceService` that the stepwise service does those transitions.
- **Sandbox billing.** `Billing`, `BillingBooks` and `BillingTotals`: at-least-once deliveries in any order end
  with the balances of exactly-once crediting, and the books are one to one.
- **Evidence grounding.** `Text`, `Spans`, `Validation`, `Deterministic`: a line scanner, a quote matcher and a
  three-pass validator whose verdict has an exact declarative meaning, and an extractor complete for it.
  `TrustedView`: conflicts with upstream values and the view that withholds them, money as one group.
- **Versions, lifecycle links and replay.** `Versioning`, `Linker`, `Lifecycle`, `Replay`, with `Sorting`.
- **Traversals.** `Pagination`, `Timeline`, `Koneps`.
- **Comparison and scoring.** `Delta`, `Metrics`, `Ranking`.

Modelling choices: digests and derived keys are the data they are derived from, so equal keys mean equal
content; instants are integers; a failed transaction leaves the state as it was; decimals are exact reals.

## Where the code does not do what one might expect

Each of these is stated with the exact condition under which the expected behaviour holds.

- A refund of an open hold can be refused: granting checks the available balance only, so available plus
  reserved can exceed the integer range (`Ledger.RefundSucceedsIff`, `Ledger.RefundCanBeRefused`).
- A settlement whose idempotency key names another hold of equal amount and reference reports success and
  settles nothing (`Ledger.SettledAsDecidedUnlessKeyIsForeign`, `Ledger.ForeignKeySettlesNothing`).
- Without a credit policy a crash leaves no trace, and the provider call can be repeated. The bound of one call
  holds for a piece of work exactly when every attempt that could be for it must carry a policy
  (`FenceSafety.NeverRepeatsIff`).
- A worker whose input changed may be unable to return the units, and then leaves the hold open for review
  (`FenceProgress.ChangedInputIsRefunded`, with a run for every piece of work in
  `FenceProgress.WorkerRefundCanBeRefused`); when an operator can settle an open hold is
  `FenceProgress.OldHoldIsResolvableIff`.
- After the second lock the reservation status may be the copy the session already holds. The age check alone
  makes the call safe (`FenceSafety.RecheckedHoldIsOpen`).
- The order of arrival of a record's inputs is irrelevant to its current content exactly when all inputs with
  the greatest effective time have the same content (`Versioning.ArrivalOrderIsIrrelevantIff`).
- Document changes rebuild the later manifest exactly when every difference is visible to the comparison
  (`Delta.ApplyGivesNewIff`).
- The budget looks for the amount in the raw payload under its normalized name. A payload that is mapped before it
  is normalized, as KONEPS notices are, has it under another name, so the version's own amount never makes a
  budget: there is one exactly when an attachment's money passes conflict detection, that is, claims the
  normalized currency, be it only the normalizer's default, and an amount that does not differ
  (`Delta.BudgetIsTrusted`, `Delta.MappedAmountIsNoBudget`, `Delta.PricedNoticeWithoutBudget`).
- A KONEPS cursor whose window ends in the future is accepted, but the window after it may be refused
  (`Koneps.NextWindowAcceptedIff`). That takes a cursor discovery did not store, or a clock that went back by more
  than an hour (`Koneps.RefusedWindows`). Windows reach the present exactly when no gap between calls is longer
  than the remaining calls can catch up with (`Koneps.WindowsReachPresentIff`).
- Without usable requirements a profile's capability score is all or nothing (`Ranking.CapabilityIsAllOrNothing`).

## Model

| member | source | states |
|---|---|---|
| `Ledger.PerformKeepsValid` | apps/api/app/credits/service.py:134-300 | every grant, reserve, commit and refund, applied, replayed or raised, keeps: balances in range, reserved equal to the sum of open holds, each entry's running balances equal to the fold of its prefix, distinct keys, one reserve entry per hold and one settlement exactly when it is terminal |
| `Ledger.ReachableAccounting` | apps/api/app/credits/service.py:134-300 | after any sequence of requests: available + reserved + committed = granted, reserved = sum of open holds, entries are a true audit trail |
| `Ledger.BalanceConserves` | apps/api/app/credits/service.py:109-131 | any list of entries posts to balances that conserve the granted total |
| `Ledger.InconsistentGuardNeverFires` | apps/api/app/credits/service.py:278-279 | in every reachable state, no settlement meets the "balance is inconsistent" guard |
| `Ledger.RunIsLater` | apps/api/app/credits/service.py:109-131 | no run removes or rewrites an entry or changes a settled hold |
| `Ledger.ReplayIsNoOp` | apps/api/app/credits/service.py:71-101 | repeating a request that once succeeded, after any other requests, returns its original entry, applies nothing and leaves the account unchanged |
| `Ledger.RefundSucceedsIff` | apps/api/app/credits/service.py:242-300 | a fresh refund of an open hold succeeds exactly when available plus the hold fits the column; a fresh commit always does |
| `Ledger.RefundCanBeRefused` | apps/api/app/credits/service.py:158-160 | a reachable account, for any keys, whose open hold cannot be refunded |
| `Ledger.SettledAsDecidedUnlessKeyIsForeign` | apps/api/app/credits/service.py:71-101 | a successful settlement leaves its hold as decided unless its key already names an entry of another hold, and then nothing changes |
| `Ledger.ForeignKeySettlesNothing` | apps/api/app/credits/service.py:242-274 | a reachable account where a settlement reports success and the hold stays open |
| `LedgerExact.GrantSucceedsIff` | apps/api/app/credits/service.py:134-174 | when a grant with a fresh key succeeds, in numbers, and what it adds; which error otherwise |
| `LedgerExact.ReserveSucceedsIff` | apps/api/app/credits/service.py:177-239 | when a reservation with a fresh key succeeds, in numbers, and what it moves; which error otherwise |
| `LedgerExact.SettleSucceedsIff` | apps/api/app/credits/service.py:242-300 | when a settlement with a fresh key succeeds, and where the units of the hold go; which error otherwise |
| `LedgerExact.KeyIsBound` | apps/api/app/credits/service.py:71-101 | after a successful request and anything in between, another admissible request with its key succeeds exactly when it asks for the same operation, amount and reference, and is refused as a reuse otherwise; nothing changes either way |
| `Ledger.CreditAccount.constructor` | apps/api/app/models/schema.py:252-267 | a new account is empty |
| `Ledger.CreditAccount.Find` | apps/api/app/credits/service.py:81-88 | finds the entry with an idempotency key, if there is one |
| `Ledger.CreditAccount.Record` | apps/api/app/credits/service.py:109-131 | appends one entry carrying the balances after the mutation, and touches nothing else |
| `Ledger.CreditAccount.GrantCredits` | apps/api/app/credits/service.py:134-174 | the in-place grant is the specified transaction, including which error wins |
| `Ledger.CreditAccount.ReserveCredits` | apps/api/app/credits/service.py:177-239 | the in-place reservation is the specified transaction |
| `Ledger.CreditAccount.Settle` | apps/api/app/credits/service.py:242-300 | the in-place commit or refund is the specified transaction |
| `FenceSafety.StepKeepsInv` | apps/api/app/extraction/service.py:109-166 | every transaction, crash, input change, grant and operator decision keeps the invariant that ties tickets, locks, holds, calls and results together |
| `FenceSafety.RecheckedHoldIsOpen` | apps/api/app/credits/extraction.py:91-106 | a hold young enough to start a call under is open, without looking at its status |
| `FenceSafety.AtMostOneFundedCall` | apps/api/app/extraction/service.py:117-166 | in every interleaving at most one credit-funded provider call ever starts for a version and extraction identity, whichever account pays |
| `FenceSafety.AtMostOneCall` | apps/api/app/credits/extraction.py:48-66 | with a policy on every attempt that could be for this work, at most one provider call of any kind ever starts for it, whatever happens to other work |
| `FenceSafety.RepeatingCallsTwice` | apps/api/app/extraction/service.py:138-139 | for every piece of work there is a run, with a crash between two attempts without a policy, that starts two calls |
| `FenceSafety.NeverRepeatsIff` | apps/api/app/extraction/service.py:137-141 | over the policies a deployment permits for a piece of work: no run starts two calls for it exactly when an attempt without a policy is not permitted |
| `FenceSafety.CallStartsUnderOpenHold` | apps/api/app/extraction/service.py:148-158 | a funded call starts only under a hold that is really open and had no call; an unfunded one only when no account has a hold |
| `FenceSafety.NoCallAfterSettlement` | apps/api/app/credits/extraction.py:127-165 | once a hold is settled by anybody, no call for its work starts in any continuation; once it exists, no unfunded call does |
| `FenceSafety.ChargedIffStored` | apps/api/app/extraction/service.py:158-162 | a credit-funded result is stored exactly when the hold is committed by the worker's own entry in that account |
| `FenceSafety.WorkerRefundMeansNoCall` | apps/api/app/extraction/service.py:154-157 | a worker's refund entry means that no funded call ever started |
| `FenceSafety.FailureLeavesHoldOpen` | apps/api/app/extraction/service.py:142-166 | a worker that fails anywhere after its ticket leaves all tables as they are, nothing stored, and its hold on record: open, or closed by an operator after the grace period, and always open during the call; the existing-result branch of the recheck is never taken |
| `FenceSafety.LedgersStayValid` | apps/api/app/credits/extraction.py:69-88 | every account keeps the ledger's invariant through any run of the protocol |
| `FenceSafety.SettleEffect` | apps/api/app/credits/extraction.py:109-124 | a settlement that does not raise closes exactly this hold for exactly this purpose and leaves the standing of all others |
| `FenceExact.TicketIff` | apps/api/app/extraction/service.py:117-141 | an attempt under a policy reserves exactly for an idle worker, an unlocked version, work that nobody holds or stored, the key the job expects, and an account that can pay; otherwise nothing changes |
| `FenceExact.UnfundedCallIff` | apps/api/app/extraction/service.py:117-139 | the same for the call of an attempt without a policy |
| `FenceExact.StaleJobDoesNothing` | apps/api/app/extraction/service.py:126-128 | a job that expects another key than the current input gives changes nothing |
| `FenceExact.JobStartsWhatItExpects` | apps/api/app/extraction/service.py:126-141 | whatever a job starts is the extraction it expects, on the input that is current |
| `FenceExact.AttemptRefusals` | apps/api/app/extraction/service.py:124-137 | each refusal of an attempt, with its exact condition: no pages, stale, stored, in progress, to be reviewed |
| `FenceExact.RecheckStartsIff` | apps/api/app/extraction/service.py:148-158 | after the second lock a call starts exactly for an open hold younger than two minutes on unchanged input |
| `FenceExact.UnfundedResultIsStored` | apps/api/app/extraction/service.py:138-139 | the result of a call without a policy is stored and nothing is charged |
| `FenceExact.ResolveRefusals` | apps/api/app/credits/extraction.py:134-156 | when an operator is told that a hold is not found or too recent |
| `FenceExact.LockedIff` | apps/api/app/extraction/service.py:118-123 | whose work holds the lock of a version |
| `FenceExact.RecheckGuards` | apps/api/app/extraction/service.py:147-157 | no call starts for stored work or under a hold read as settled, in whatever state the tables are |
| `FenceExact.GrantAdds` | apps/api/app/credits/service.py:134-174 | a grant creates the missing budget and adds its units exactly when they fit |
| `FenceProgress.AttemptIsCharged` | apps/api/app/extraction/service.py:117-162 | with any actions of others in between, an attempt of a job that is not stale, whose input and keys are left alone and that rechecks within the grace period, starts one call, stores one result, and moves exactly the policy's units out of the account |
| `FenceProgress.ChangedInputIsRefunded` | apps/api/app/extraction/service.py:154-157 | if the input changed before the recheck, the worker starts no call and restores both balances, and only the integer range can prevent that |
| `FenceProgress.WorkerRefundCanBeRefused` | apps/api/app/extraction/service.py:154-166 | for every piece of work there is a run in which the range refuses the worker's refund: it stops for review with the hold open and no call made |
| `FenceProgress.OthersKeepPending` | apps/api/app/credits/extraction.py:127-165 | nothing that others do, operators included, ends an attempt that is young or holds the version's lock |
| `FenceProgress.OldHoldIsResolvableIff` | apps/api/app/credits/extraction.py:144-165 | in every reachable state an operator can settle an open hold exactly when the version is unlocked, the grace period is over, the operator's key is free, and a refund fits the range; then the hold's units leave the reserved balance, a refund makes them available again, and nothing else changes |
| `FenceService.ExtractionTables.constructor` | apps/api/app/extraction/service.py:109-116 | starts with no accounts, results or calls |
| `Ledger.Charge` | apps/api/app/credits/service.py:48-68 | the stepwise lock, insertion of a missing account, request on the row object and rollback of a raised one are together the specified transaction on the table |
| `FenceService.ExtractionTables.AssertNoPriorAttempt` | apps/api/app/credits/extraction.py:48-66 | raises for a hold on any account: in progress when open and young, review otherwise |
| `FenceService.ExtractionTables.BeginAttempt` | apps/api/app/extraction/service.py:117-141 | the first transaction is the attempt transition |
| `FenceService.ExtractionTables.TakeLockAgain` | apps/api/app/extraction/service.py:143-147 | taking the row lock again is the relock transition |
| `FenceService.ExtractionTables.AssertOpenReservation` | apps/api/app/credits/extraction.py:91-106 | passes exactly for a hold of this account, read as open and younger than the grace period |
| `FenceService.ExtractionTables.RecheckAndStart` | apps/api/app/extraction/service.py:148-158 | the recheck is the recheck transition, whether the status is read fresh or from the session |
| `FenceService.ExtractionTables.StoreResult` | apps/api/app/extraction/service.py:158-166 | storing the result and the debit is one transition, or none |
| `FenceService.ExtractionTables.ResolveReservation` | apps/api/app/credits/extraction.py:127-165 | the operator's resolution is the resolve transition |
| `Billing.RunKeepsInv` | apps/api/app/billing/service.py:51-164 | any mixture of registrations, deliveries and internal credit requests keeps mappings, grant entries, applications and observations in agreement |
| `Billing.OnlyConflictsAndRangeFail` | apps/api/app/billing/service.py:97-145 | in every reachable state a delivery fails only for a malformed scope, conflicting input or the integer range; the guards against a missing account and a grant without its application are never taken |
| `BillingBooks.BooksBalance` | apps/api/app/billing/service.py:110-162 | in every reachable state grant entries, applications and "applied" observations determine each other one to one with equal amounts, and each sandbox balance is the sum of its applications with nothing reserved |
| `Billing.CreditEffect` | apps/api/app/billing/service.py:128-157 | crediting an invoice appends one grant of the policy's units, one application and one observation; only the range can stop it |
| `BillingExact.CreditedIff` | apps/api/app/billing/service.py:97-157 | a delivery is credited exactly when scope, event and invoice are new and valid, the customer is mapped, the price is registered for the very currency and amount paid, and the units fit; then they are added, and otherwise no account changes |
| `BillingExact.ReviewedIff` | apps/api/app/billing/service.py:120-131 | each review reason of a paid invoice has its exact condition |
| `BillingExact.RecordedOutcome` | apps/api/app/billing/service.py:107-164 | what is recorded of every other delivery, and when it is a duplicate or a conflict |
| `BillingExact.ReplayedOutcome` | apps/api/app/billing/service.py:100-105 | a replay repeats what was recorded, and other content under its identity is refused |
| `BillingExact.RegistrationIff` | apps/api/app/billing/service.py:51-71 | when a customer is registered, and with which account |
| `BillingExact.PriceIsFixed` | apps/api/app/billing/service.py:74-94 | a price is registered once, for valid terms, and never changed |
| `BillingExact.ScopeIff` | apps/api/app/billing/contract.py:22-22 | which scopes are valid |
| `BillingExact.CurrencyIff` | apps/api/app/billing/service.py:81-82 | which currencies are valid |
| `BillingExact.IdIff` | apps/api/app/billing/contract.py:21-21 | which identifiers are valid |
| `Billing.RepeatedDeliveryIsNoOp` | apps/api/app/billing/service.py:104-113 | a recorded event changes nothing when delivered again, whatever happened in between |
| `Billing.BudgetSparesSandbox` | apps/api/app/credits/service.py:66-68 | internal credit requests never reach a sandbox account |
| `Billing.BillingTables.constructor` | apps/api/app/billing/service.py:51-53 | starts with empty tables |
| `Billing.BillingTables.AddCustomer` | apps/api/app/billing/service.py:51-71 | the stepwise registration is the specified one, with its checks of scope and identifier |
| `Billing.BillingTables.AddPrice` | apps/api/app/billing/service.py:74-94 | the stepwise price registration is the specified one, with its checks of scope, identifier, amounts and currency |
| `Billing.BillingTables.Process` | apps/api/app/billing/service.py:97-164 | the stepwise delivery is the specified one: status, review, application and observation |
| `BillingTotals.EachInvoiceIsCreditedOnce` | apps/api/app/billing/service.py:97-164 | from any state of the books, deliveries raise a mapped balance by exactly the units of its distinct new invoices whose price is registered for what was paid |
| `BillingTotals.DeliveryOrderIsIrrelevant` | apps/api/app/billing/service.py:97-164 | from any state of the books, two delivery sequences with the same events, in any order and multiplicity, end with the same balances |
| `Spans.FindQuoteEnd` | apps/api/app/extraction/validation.py:120-134 | the depth loop returns the first index where the nesting depth is zero again, and none exactly when the text opens nothing or never closes |
| `Spans.QuoteEndStable` | apps/api/app/extraction/validation.py:120-134 | appending text never moves a quote end that was found |
| `Spans.TwoLineTitleWasOpen` | apps/api/app/extraction/validation.py:161-197 | a title joined over two lines was unclosed after the first and closes exactly at the end of the join |
| `Spans.SpansAreBounded` | apps/api/app/extraction/validation.py:161-197 | one trimmed span per line, reaching at most into the next line, and only over a plain value line unless it is a split heading; the lines lose no text |
| `Spans.ComputeSpan` | apps/api/app/extraction/validation.py:161-197 | one turn of the generator is the specified span of that line |
| `Spans.ComputeSpans` | apps/api/app/extraction/validation.py:161-197 | the generator yields the specified spans |
| `Text.SplitLinesKeepsText` | apps/api/app/extraction/validation.py:161-163 | splitting into lines with their ends loses nothing |
| `Text.LineEndsAtBreak` | apps/api/app/extraction/validation.py:161-163 | a line ends with its only boundary, and only the last may have none |
| `SpansExact.LabelIsRead` | apps/api/app/extraction/validation.py:95-104 | a label is what stands before the first colon, a value what stands after it |
| `SpansExact.ListLabels` | apps/api/app/extraction/validation.py:200-231 | which labels name which list fields |
| `SpansExact.ScalarLabels` | apps/api/app/extraction/validation.py:200-231 | which labels name which other fields |
| `SpansExact.StatedList` | apps/api/app/extraction/validation.py:224-230 | a list is stated whole, as the trimmed pieces between semicolons, and only when none of them is negated |
| `SpansExact.SplitJoins` | apps/api/app/extraction/validation.py:226-226 | the pieces joined again are the value, and none holds a semicolon |
| `SpansExact.StatedTitle` | apps/api/app/extraction/validation.py:141-149 | a title is taken out of an enclosure that closes at the end, is empty when it never closes, and stands otherwise |
| `SpansExact.ClosesIff` | apps/api/app/extraction/validation.py:120-134 | an enclosure closes with the first character by which as many marks are closed as were opened, and never when there is none |
| `SpansExact.EnclosingMarks` | apps/api/app/extraction/validation.py:120-134 | the six pairs of enclosing marks |
| `SpansExact.StatedBudget` | apps/api/app/extraction/validation.py:209-220 | a budget states currency and amount together, or nothing |
| `SpansExact.StatedScalar` | apps/api/app/extraction/validation.py:231-265 | any other label states its own field, or nothing |
| `SpansExact.NothingStated` | apps/api/app/extraction/validation.py:205-223 | a line without a known label and a value states nothing |
| `SpansExact.JoinedIff` | apps/api/app/extraction/validation.py:161-197 | a line takes the next exactly for a split heading, a title the next line closes at its end, or a known label without a value before a plain line |
| `Validation.ValidateExtraction` | apps/api/app/extraction/validation.py:268-347 | the validator accepts exactly the proposals that are schema-valid, agree with a coherent document and cite only spans that decode to their values; and reports exactly the specified issues |
| `Validation.AcceptedIffNoIssue` | apps/api/app/extraction/validation.py:268-347 | for schema-valid proposals the declarative rule and the absence of issues coincide |
| `ValidationExact.AcceptedIffContained` | apps/api/app/extraction/validation.py:268-347 | acceptance read off the spans: in format, every claim cited by spans that state it, and a valid map of the whole document, of the fields some span states and none negates, that contains the claims |
| `ValidationExact.AcceptedClaimsStand` | apps/api/app/extraction/validation.py:286-295 | no claim of an accepted proposal is negated or contradicted by any span of the document |
| `ValidationExact.OmittedFieldMayBeNegated` | apps/api/app/extraction/validation.py:302-305 | a negation does not stand in the way of a proposal that leaves the field out |
| `ValidationExact.QualifiedIff` | apps/api/app/extraction/validation.py:286-292 | a field counts as qualified exactly when some span labels it as a list with a negated value |
| `ValidationExact.QualifiedReportedIff` | apps/api/app/extraction/validation.py:284-294 | a claim is reported as qualified exactly when a span of the document negates its field |
| `ValidationExact.ContradictionReportedIff` | apps/api/app/extraction/validation.py:302-342 | a claim is reported as contradicted exactly when a span states another value; an unclaimed field exactly when two spans state different values and none negates it |
| `ValidationExact.EvidenceReportedIff` | apps/api/app/extraction/validation.py:321-340 | when evidence is missing, on no page, or does not state the value |
| `ValidationExact.SourceKeys` | apps/api/app/extraction/validation.py:302-306 | which stated fields are checked together with the claims |
| `ValidationExact.FormatReportedIff` | apps/api/app/extraction/validation.py:311-320 | where each error of the format is reported |
| `Validation.Observe` | apps/api/app/extraction/validation.py:282-295 | the first pass collects exactly the stated values in document order, the qualified fields and their issues |
| `Validation.CheckSource` | apps/api/app/extraction/validation.py:297-320 | the second pass reports exactly the contradictions and schema errors of the document itself |
| `Validation.CheckClaim` | apps/api/app/extraction/validation.py:321-341 | which codes one claimed field gets, each with its exact condition |
| `Validation.CheckClaims` | apps/api/app/extraction/validation.py:321-341 | the third pass reports exactly those codes for every claim |
| `Deterministic.Extract` | apps/api/app/extraction/deterministic.py:14-30 | the extractor proposes the first stated value of each field with every span that states it |
| `Deterministic.ExtractIsNeverUngrounded` | apps/api/app/extraction/validation.py:321-345 | its proposals never lack or misplace evidence, and quote an unsupporting span only for a field the document contradicts |
| `Deterministic.ExtractAcceptedIff` | apps/api/app/extraction/validation.py:282-346 | they are accepted exactly when the stated values are schema-valid, consistent, and no stated list field is qualified |
| `Deterministic.ExtractAcceptedExactly` | apps/api/app/extraction/validation.py:282-346 | the same read off the spans: no two spans state a field differently and no stated field is negated |
| `Deterministic.ExtractIsExact` | apps/api/app/extraction/deterministic.py:14-30 | every field some span states is proposed, with a stated value, cited by exactly the spans that state it |
| `Deterministic.AcceptedProposalsAgree` | apps/api/app/extraction/validation.py:297-320 | two accepted proposals, from any extractors, agree on every field both claim, and nothing is accepted on an incoherent document |
| `Versioning.UpsertKeepsValid` | apps/api/app/repositories/opportunities.py:79-149 | numbers contiguous from 1, one initial version, each predecessor the version that was current, with other content |
| `Versioning.UpsertTracks` | apps/api/app/repositories/opportunities.py:79-111 | an input at or after the watermark becomes the current content and watermark; an earlier one changes neither |
| `Versioning.CurrentIsLatestInput` | apps/api/app/repositories/opportunities.py:79-111 | after any arrivals, watermark and current content are those of the lexicographic maximum of (effective time, arrival) |
| `Versioning.ArrivalOrderIsIrrelevantIff` | apps/api/app/repositories/opportunities.py:79-149 | the watermark never depends on the order of arrival, and the current content is independent of it exactly when all inputs with the greatest effective time have the same content |
| `Versioning.TopCanWin` | apps/api/app/repositories/opportunities.py:102-104 | every input with the greatest effective time is the current one after some order of arrival |
| `Versioning.VersionsAreInputs` | apps/api/app/repositories/opportunities.py:102-127 | every version is one input as it arrived, with its content, effective time and raw record, and later versions are later inputs |
| `Versioning.AnsweredVersionHasContent` | apps/api/app/repositories/opportunities.py:79-159 | an input gets a version of its own exactly when its content is not the current one, historical exactly when it is older than the watermark; the answer names a version with its content |
| `Versioning.ChainOfReachable` | apps/api/app/repositories/opportunities.py:102-149 | the chain from the current version visits exactly the versions that became current, strictly descending, with different content at each step |
| `Versioning.PredecessorAscends` | apps/api/app/delta/service.py:169-199 | every predecessor picked has a lower number, differs in content for a current version, and is missing only for the initial one |
| `Versioning.HighestBelowExact` | apps/api/app/delta/service.py:174-185 | the predecessor of a historical version is the greatest lower number, none exactly when there is no lower one |
| `Linker.DecisionIgnoresOrder` | apps/api/app/lifecycle/linker.py:110-227 | the decision is the same for every permutation of candidates with distinct ids |
| `Linker.SelectedIff` | apps/api/app/lifecycle/linker.py:86-107 | a stage resolves to a candidate exactly when it is the only compatible match |
| `LinkerExact.ForwardIff` | apps/api/app/lifecycle/linker.py:71-79 | a parent is another opportunity at an earlier of the five stages |
| `LinkerExact.ReferencesDecide` | apps/api/app/lifecycle/linker.py:117-141 | with official references a candidate is linked exactly when there is one reference, it alone matches it, and it comes earlier; when the reference is not found or ambiguous |
| `LinkerExact.IdentifiersDecide` | apps/api/app/lifecycle/linker.py:143-167 | without references a shared identifier decides alone: exactly for the only earlier match |
| `LinkerExact.FingerprintsDecide` | apps/api/app/lifecycle/linker.py:169-193 | then source, title, buyer, amount and thirty days between publications decide, exactly for the only earlier match |
| `LinkerExact.SemanticDecides` | apps/api/app/lifecycle/linker.py:195-221 | then the comparator decides: exactly for the one best of the first twenty comparable candidates, from 0.95 |
| `LinkerExact.SemanticRefusals` | apps/api/app/lifecycle/linker.py:222-227 | ambiguous exactly for a tie of the best, and no match otherwise |
| `LinkerExact.NothingDecides` | apps/api/app/lifecycle/linker.py:195-227 | without a comparator there is no link |
| `Linker.ResolvedParentIsForward` | apps/api/app/lifecycle/linker.py:71-79 | every resolved parent is a candidate of strictly lower stage rank, and the only compatible one of its kind |
| `Lifecycle.NormalizeKeepsInv` | apps/api/app/repositories/opportunities.py:35-159 | normalization keeps valid chains and active links between current versions |
| `Lifecycle.RelinkKeepsInv` | apps/api/app/workers/lifecycle.py:70-169 | so does a linking step |
| `Lifecycle.ActiveLinksAreCurrent` | apps/api/app/workers/lifecycle.py:70-169 | in every interleaving each active link joins the current versions of its ends, goes strictly forward, and is the child's only one |
| `Lifecycle.ActiveLinksFormForest` | apps/api/app/lifecycle/linker.py:71-79 | a path along active links never repeats and has at most five opportunities |
| `Lifecycle.RelinkMatchesDecision` | apps/api/app/workers/lifecycle.py:103-158 | after a linking step the child's active link is exactly the decided one, and other children's links are untouched |
| `Lifecycle.RelinkIgnoresOrder` | apps/api/app/workers/lifecycle.py:55-63 | the order in which opportunities are read does not matter to a linking step |
| `Lifecycle.SupersededLinksAreRetracted` | apps/api/app/repositories/opportunities.py:131-149 | normalization retracts an active link exactly when the current version of one of its ends changes |
| `Lifecycle.RunCurrentIsLatest` | apps/api/app/repositories/opportunities.py:52-111 | interleaved with other keys and links, and with repeated raw records, an opportunity still holds its latest input |
| `Lifecycle.CurrentParents` | apps/api/app/notifications/triggers.py:181-192 | maps every child of an active link to that link |
| `Lifecycle.NoticeWatchers` | apps/api/app/notifications/triggers.py:204-221 | at one node, every watch on it that was observed in time gets one notice, in order |
| `Lifecycle.WalkAncestors` | apps/api/app/notifications/triggers.py:193-226 | the walk ends at an opportunity without an active parent, never by revisiting, after at most five different ones, and the notices are exactly those due to watchers of the nodes walked, each with the links walked so far |
| `Lifecycle.AncestorsAreWalked` | apps/api/app/notifications/triggers.py:193-226 | every opportunity from which active links lead down to the outcome is on its walk, so exactly the watchers of the outcome and its ancestors are told |
| `Lifecycle.Repository.constructor` | apps/api/app/repositories/opportunities.py:35-39 | starts with empty tables |
| `Lifecycle.Repository.UpsertVersion` | apps/api/app/repositories/opportunities.py:35-159 | the stepwise upsert is the normalization transaction, and raises, changing nothing, exactly for a raw record that is not stored or has another identity |
| `Replay.SelectVisible` | apps/api/app/evaluation/replay.py:41-73 | the selection loop fails exactly on a repeated version id, and otherwise gives the newest visible event of each record in record order |
| `ReplayExact.RowsAreLastEvents` | apps/api/app/evaluation/replay.py:41-73 | the rows are exactly the last event of every record that had happened, was observed and was recorded by the instant, with its enrichment exactly when that was available |
| `ReplayExact.EveryPastRecordHasARow` | apps/api/app/evaluation/replay.py:49-55 | every record with a past event has a row, and every row is past |
| `ReplayExact.UsedFields` | apps/api/app/evaluation/replay.py:63-68 | the fields that decisions may use |
| `ReplayExact.RowsIgnoreFuture` | apps/api/app/evaluation/replay.py:41-73 | tables that know the same of the past give the same rows, in the same order |
| `ReplayExact.ReplayIsExact` | apps/api/app/evaluation/replay.py:76-158 | a replay decides, with the latest profile available, on exactly those rows, orders by descending score, then record, and ranks what is allowed in that order |
| `ReplayExact.ReplayFailsIff` | apps/api/app/evaluation/replay.py:46-85 | when there is no replay, and why |
| `ReplayExact.ReplayIgnoresFuture` | apps/api/app/evaluation/replay.py:143-158 | events with any instant after the instant of the replay, later enrichments and profiles, and the order of the tables leave the replay unchanged |
| `ReplayExact.SelectionNeverRegresses` | apps/api/app/evaluation/replay.py:41-73 | as the instant grows, a record's event never moves back |
| `Replay.ComputeReplay` | apps/api/app/evaluation/replay.py:143-158 | the loop computes the specified replay |
| `Pagination.ListOpportunities` | apps/api/app/api/opportunities.py:270-313 | the batch loop with its ten-batch cap returns the specified page for its cursor |
| `Pagination.PagesCoverTable` | apps/api/app/api/opportunities.py:270-313 | following the cursors yields exactly the filtered rows in order, no page over the limit, and every cursor leaves strictly fewer rows |
| `Pagination.NextContinues` | apps/api/app/api/opportunities.py:283-313 | a cursor names the last row consumed, lies strictly below the one before, and the next page starts right after it |
| `Pagination.RequestsAreFew` | apps/api/app/api/opportunities.py:283-313 | how many requests read everything: apart from the last page every page is full or its request passed over a thousand rows, and without the filter every one is full |
| `Timeline.Component` | apps/api/app/api/opportunities.py:316-345 | the frontier loop finds the least set of opportunities closed under active links, and its links, or nothing exactly for components over the display limit |
| `Timeline.TimelineFor` | apps/api/app/api/opportunities.py:316-361 | returns the component in order, exactly its active links and exactly the retracted links that touch it, each by creation and identifier |
| `Koneps.ReceiveAnswer` | apps/api/app/sources/koneps.py:136-217 | reading an answer stepwise, envelope, header, body, items, counts and consistency in order, is the specified reading, with which error wins |
| `Koneps.CodesDecide` | apps/api/app/sources/koneps.py:136-157 | only the code of success gives a body, three other codes may pass when tried again, all others are refused |
| `Koneps.ItemsAreListed` | apps/api/app/sources/koneps.py:203-217 | where items are listed, when there are none, and when they are refused |
| `Koneps.CountReadsDecimal` | apps/api/app/sources/koneps.py:159-168 | a count may be a number or its decimal digits |
| `Koneps.NothingElseCounts` | apps/api/app/sources/koneps.py:159-168 | nothing negative or not made of digits is a count |
| `Koneps.ConsistentPageIff` | apps/api/app/sources/koneps.py:170-179 | which pages are consistent with the request |
| `Koneps.RunDiscover` | apps/api/app/sources/koneps.py:219-244 | one stepwise discovery call is the specified one, errors included |
| `Koneps.FirstWindow` | apps/api/app/sources/koneps.py:229-231 | without a cursor discovery reads the registrations of the last days up to now |
| `Koneps.WindowGoesOn` | apps/api/app/sources/koneps.py:221-228 | a cursor is read on as it is, and a done one opens the window from an hour before its end, for a day or up to now |
| `Koneps.AcceptedIff` | apps/api/app/sources/koneps.py:181-200 | which cursors are refused |
| `Koneps.StoredCursorsAreAccepted` | apps/api/app/sources/koneps.py:181-244 | with a monotone clock every cursor discovery emits is accepted later, and whatever the server answers, neither an invalid cursor nor the no-progress error ever arises |
| `Koneps.NextWindowAcceptedIff` | apps/api/app/sources/koneps.py:181-200 | when the window after an arbitrary accepted cursor is accepted |
| `Koneps.RefusedWindows` | apps/api/app/sources/koneps.py:181-231 | at every instant an accepted cursor exists whose next window is refused, and a stored one is refused only after the clock went back by more than an hour |
| `Koneps.WindowsAdvance` | apps/api/app/sources/koneps.py:219-232 | consecutive windows overlap, ends never move back, and each ends at the present or 23 hours further |
| `Koneps.WindowsCover` | apps/api/app/sources/koneps.py:219-232 | no chain of windows skips an instant |
| `Koneps.WindowsReachPresentIff` | apps/api/app/sources/koneps.py:219-232 | for any monotone clock, the last window ends at the present exactly when neither the backlog nor any gap between calls exceeds 23 hours for each call after it |
| `Koneps.BacklogShrinks` | apps/api/app/sources/koneps.py:219-232 | however the clock moves, calls catch up 23 hours each until they reach the present of the first |
| `Koneps.ReadList` | apps/api/app/sources/koneps.py:219-244 | calls until the cursor leaves a stable list deliver exactly its items in order, one successful call per page |
| `Koneps.DrainWindow` | apps/api/app/sources/koneps.py:219-244 | for stable lists a window delivers exactly the registered and then the changed items, in order, and ends done |
| `Delta.ApplyGivesNewIff` | apps/api/app/delta/engine.py:157-180 | applying the document changes to the earlier manifest gives the later one exactly when every difference is visible |
| `Delta.CompleteManifestsAreReproduced` | apps/api/app/delta/engine.py:157-180 | with complete manifests and known checksums it always does |
| `Delta.AdditionsAndRemovalsAreReal` | apps/api/app/delta/engine.py:157-180 | an incomplete manifest never yields a false addition or removal |
| `Delta.CompareDocuments` | apps/api/app/delta/engine.py:149-175 | the merge of two attachment lists, indexed by url and gone through in order, yields the specified changes |
| `Delta.AttachmentMoneyStandsAlone` | apps/api/app/delta/engine.py:87-106 | without an amount in the raw payload, the budget depends on the attachment claims alone |
| `Delta.PayloadBudgetIff` | apps/api/app/delta/engine.py:39-106 | with an amount in the raw payload the budget has that amount, and the first of the payload's currency, the attachment's, the normalizer's and the won |
| `Delta.AttachmentBudgetIff` | apps/api/app/delta/engine.py:87-106 | without one the budget is what the attachment claims, if it claims amount and currency |
| `Delta.BudgetIsTrusted` | apps/api/app/delta/engine.py:39-106 | through conflict detection and the trusted view, every budget carries the normalized currency: with the amount in the raw payload the normalized amount stands, otherwise there is a budget exactly when a trusted attachment claims that currency and an amount that does not differ from the normalized one |
| `Delta.MappedAmountIsNoBudget` | apps/api/app/services/normalize.py:105-109 | the amount of a mapped payload never makes a budget: none without an extraction, with an attachment silent on money, or with one that claims another amount |
| `Delta.PricedNoticeWithoutBudget` | apps/api/app/sources/koneps.py:61-76 | a priced notice with an attachment silent on money has no budget |
| `TrustedView.FindConflicts` | apps/api/app/extraction/service.py:177-195 | the loop records exactly the claims that differ from upstream, and both halves of the money when either differs |
| `TrustedView.DiffersIff` | apps/api/app/extraction/service.py:94-106 | when a stated value differs: lists by their items, numbers and instants as they are read, any other value by itself, and nothing from an empty list |
| `TrustedView.TrustedClaims` | apps/api/app/extraction/service.py:229-251 | the loop withholds exactly the recorded fields, closed under the money group |
| `TrustedView.ViewKeepsMoneyTogether` | apps/api/app/extraction/service.py:246-250 | amount and currency survive together or not at all, whatever was recorded, so older records read like grouped ones |
| `TrustedView.WithheldIff` | apps/api/app/extraction/service.py:177-250 | a claim is withheld exactly when it differs from upstream, or is money and either half of the money does |
| `Delta.FieldChangesAreComplete` | apps/api/app/delta/engine.py:139-156 | applying the field changes to the earlier claims gives the later ones |
| `Delta.CompareFields` | apps/api/app/delta/engine.py:138-148 | the field loop, over upstream values first and trusted attachment claims second, yields the specified changes with the evidence of both values |
| `Delta.ValuesAreTraced` | apps/api/app/delta/engine.py:39-106 | when every trusted claim has a reference, every compared value has evidence, and only its own sources speak for it: never an attachment for what the payload affirms |
| `Delta.FieldEvidenceIsComplete` | apps/api/app/delta/engine.py:39-106 | the evidence of a field is exactly the raw record, or every reference of the claim |
| `Delta.BudgetEvidenceIsComplete` | apps/api/app/delta/engine.py:39-106 | the evidence of a budget is exactly what its amount and currency were read from |
| `Delta.ClassifyImpact` | apps/api/app/delta/rules.py:16-54 | the loop finds exactly the reasons of all changes and the highest of their severities |
| `Delta.ReasonsEmptyIffNoChange` | apps/api/app/delta/rules.py:16-54 | there are no reasons exactly when there are no changes |
| `Delta.ReversalMirrorsReasons` | apps/api/app/delta/rules.py:27-50 | undoing a field change gives exactly the mirrored reasons: known and unknown, increased and decreased, earlier and later, added and removed change places |
| `Delta.ReasonsSayWhatHappened` | apps/api/app/delta/rules.py:27-48 | budget, currency, deadline and requirement reasons each have their exact condition, with their direction |
| `Delta.RegionReasons` | apps/api/app/delta/rules.py:38-50 | so do regions, participation terms and period, and no reason names another field |
| `Delta.LevelMeaning` | apps/api/app/delta/rules.py:16-54 | the impact is high exactly when some field tightens (earlier deadline, restricted or changed regions, added requirement, other participation terms) and low exactly when nothing but documents was added |
| `Delta.MoreChangesNeverLower` | apps/api/app/delta/rules.py:16-54 | adding changes never lowers the level or loses a reason |
| `Delta.ComputeDelta` | apps/api/app/delta/engine.py:129-185 | succeeds exactly for ascending snapshots of one opportunity with matching raw records; the changes rebuild the later claims, each carries the evidence of both values, and reasons are empty exactly when nothing changed |
| `Metrics.DistinctKeysGainAtMostTop` | apps/api/app/evaluation/metrics.py:34-51 | no duplicate-free choice gains more than the best grades of that number |
| `Metrics.PrefixDominance` | apps/api/app/evaluation/metrics.py:34-51 | domination of prefix sums carries over to sums under any positive non-increasing discount |
| `Metrics.DcgAtMostIdeal` | apps/api/app/evaluation/metrics.py:34-51 | discounted gain never exceeds that of the ideal order |
| `Metrics.MetricsInUnitInterval` | apps/api/app/evaluation/metrics.py:34-51 | nDCG and recall lie in [0, 1] for every duplicate-free ranking and cutoff |
| `Metrics.IdealOrderScoresOneIff` | apps/api/app/evaluation/metrics.py:34-51 | under strictly decreasing discounts nDCG is one exactly when the gains, position by position up to the cutoff, are those of the ideal order |
| `Metrics.DiscountedAdds` | apps/api/app/evaluation/metrics.py:43-46 | a position adds the power of two of its grade less one, discounted |
| `Metrics.MetricsFailIff` | apps/api/app/evaluation/metrics.py:37-40 | when the measures are refused, and why |
| `Metrics.HitsAreCounted` | apps/api/app/evaluation/metrics.py:41-51 | hits are the keys of positive grade among the first k, and recall is their share |
| `Metrics.PercentilesAreMonotone` | apps/api/app/evaluation/metrics.py:54-62 | a higher percentile is never lower |
| `Metrics.PercentilesSpanSamples` | apps/api/app/evaluation/metrics.py:54-62 | percentiles range from the least to the greatest sample |
| `Ranking.SharesInUnit` | apps/api/app/ranking/features.py:43-59 | a share lies in [0, 1] and is one exactly when everything wanted is found |
| `Ranking.CapabilityIsAllOrNothing` | apps/api/app/ranking/features.py:51-59 | without usable requirements the capability score is one exactly when the text names a capability of the profile, and zero otherwise |
| `Ranking.AmountsInUnit` | apps/api/app/ranking/features.py:69-87 | the amount score lies in [0, 1] and is positive only for a known amount in range and in the profile's currency, case aside |
| `Ranking.RecencyInUnit` | apps/api/app/ranking/features.py:90-103 | so does the recency and deadline score |
| `Ranking.AmountScoreShape` | apps/api/app/ranking/features.py:69-87 | the amount score is one in the middle of the range and falls to zero at its ends, with each reason |
| `Ranking.RecencyScoreShape` | apps/api/app/ranking/features.py:90-103 | publication and deadline count a half each, falling over thirty and forty-five days |
| `Ranking.CategoryIsAllOrNothing` | apps/api/app/ranking/features.py:62-66 | the category counts fully exactly when it is an industry of the profile |
| `Ranking.FeaturesContribute` | apps/api/app/ranking/ranker.py:29-35 | how much each feature contributes |
| `Ranking.SemanticContributes` | apps/api/app/ranking/ranker.py:97-112 | a semantic score counts a fifth |
| `Ranking.TiesGoToEven` | apps/api/app/ranking/ranker.py:68-69 | a value half way between two fifth places goes to the even one |
| `Ranking.RequiredAreCounted` | apps/api/app/ranking/features.py:51-59 | the share of the required capabilities that the profile has, blank ones aside |
| `Ranking.InterestsAreCounted` | apps/api/app/ranking/features.py:43-48 | the share of the words of industries and capabilities found in title, body or category |
| `Ranking.QuantizeIsClose` | apps/api/app/ranking/ranker.py:68-69 | half-even rounding moves a value by at most half a unit in the fifth place |
| `Ranking.ClampIsIdle` | apps/api/app/ranking/ranker.py:72-100 | the weights sum to one, so the clamps of both scores never change a value |
| `Ranking.ScoreIsMonotone` | apps/api/app/ranking/ranker.py:72-100 | raising a feature or the semantic score never lowers the final score |
| `Ranking.OpportunityScoreIsClose` | apps/api/app/ranking/ranker.py:83-96 | every feature of an opportunity lies in [0, 1] and its rounded score stays within 0.00001 of the exact weighted sum |

## Left out

- HTTP, sessions, queues, storage, OCR, mail and webhooks: foreign calls; the provider call is an event.
- SQL text and row mapping: tables are maps and sequences, statements are atomic steps under the locks named.
- Digests, signatures and cursor encodings: treated as injective, so tampered or malformed encodings are not modelled.
- Regular expressions, Unicode categories, date parsing, the Pydantic schema and text similarity: arbitrary total functions of their text.
- Deterministic.ExtractAcceptedIff: assumes that the heading expression does not match empty text, which is true of the one in use, and that pages have the format their own schema checks.
- Ledger.Charge: the table maps owners to values, so one account object shared by two callers is not captured; the row object of one call is `Ledger.CreditAccount`.
- Billing.BillingTables.Process: accounts are keyed by their owner, so the check that a grant landed on the mapped account is implied and not repeated.
- BillingTotals.EachInvoiceIsCreditedOnce: mappings and policies are fixed while the events are delivered, new events and invoices have one content per identity, and the sums must fit the integer range.
- Lifecycle.Repository.UpsertVersion: content is compared as data instead of by hash.
- Lifecycle.WalkAncestors: one notice stands for those on every channel a user prefers, and when a watch counts as observed is a parameter.
- Replay.ComputeReplay: the eligibility and ranking decision is an arbitrary pure function, and record and version identifiers are integers.
- Delta.ComputeDelta: attachment URLs are numbers in their order, values are given in their canonical form, and the row identifiers inside attachment evidence are not carried.
- TrustedView.FindConflicts: comparing decimals and instants is a parameter, and the claims are those of the schema, which has amount and currency only together.
- Pagination.ListOpportunities: the SQL filters and joins are the given table; rows inserted between two requests are not modelled.
- Koneps.DrainWindow: the lists do not change while a window is read; looking up one record by scanning windows is not modelled.
- Koneps.RunDiscover: an answer is parsed JSON or none, transport errors are not modelled, and the identity format of an item is a parameter.
- Metrics.DcgAtMostIdeal: the logarithmic discount is any positive non-increasing sequence.
- Ranking.OpportunityScoreIsClose: case folding and tokenizing are arbitrary functions, and Decimal precision limits other than the five-place rounding are not modelled.
- Ranking.CapabilityIsAllOrNothing: its clause about capabilities that normalize to nothing concerns only profiles built outside the profile API, which rejects blank values.
- Prompt, cost and latency accounting of an extraction: projection only.
- Job retries, dead letters and leases of the workers.
- Evaluation reports, OCR comparison, migrations, demo data and the web application.
