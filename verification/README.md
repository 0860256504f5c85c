# Financial transitions of GuestPost, modelled and proved in Dafny

GuestPost is a money platform. Its financial transitions are state machines over database rows:
wallets and their ledger, deposit attempts, payment disputes, publisher payouts, deliveries and
their fraud flags, and an outbox. Several sources race to drive each machine: signed webhooks,
authenticated retrievals, polls, staff, workers whose lease may have been taken over. This project
states what those machines promise and proves it for every input, every interleaving and every
reachable state.

One committed serialisable transaction is one atomic step. Each machine is written three times:

* a **specification function** on a value that holds all the tables (`DepositCredit.Finalize`,
  `PaymentDisputes.Transition`, `PayoutFinalization.Finalize`, `DeliveryVerification.Verify`, ...),
  which has the branches, their order, the error codes and the constants of the source;
* a **class `Tables`** whose methods write the rows one after the other, roll back when the source
  throws, loop where the source loops, and retry where it retries. Each method is proved equal to
  its specification function;
* **runs**, where the transactions interleave with what the rest of the platform does to the same
  rows (claims and returns of leases, attempts, reservations, staff decisions, new executions). A
  transaction that lost a race is one that left the state alone, after which others may commit.

The theorems are about the specification functions and the runs, so they hold for the methods.
The `...Effects` modules say a second time, without the functions that the specification is made of,
when each machine commits and what it leaves in every column: provider texts, stages, roles and
amounts are written out there, and the two accounts are proved to be the same.

| file | what it holds |
|---|---|
| `Outcomes`, `Text`, `DepositStatus` | options and thrown errors; trimming and upper case; the two status sets |
| `WalletState`, `WalletInvariant` | the finance tables, sums over rows; the invariants of all reachable states |
| `DepositCredit`, `PaymentDispute`, `OrderRefund`, `SeedFunding` | the specification of the four finance transactions and of order payment |
| `DepositCreditProof`, `PaymentDisputeProof`, `DisputeTransitionProof`, `SeedFundingProof` | each branch keeps the invariants; defensive errors are unreachable |
| `CreditEffects`, `DisputeEffects` | exactly when a credit or a dispute event commits, and what it then moves and writes, in the columns of the rows |
| `CreditSources`, `DisputeConfluence` | two evidence sources, or two events, in either order |
| `FinanceRuns`, `FinanceRunsProof`, `FinanceHistory`, `FinanceTheorems`, `FinanceOrigins` | runs, what they keep, what they never rewrite, the promises that follow, and the evidence behind every credit and case |
| `FinanceTables` | the finance transactions as they write their rows |
| `PayoutState`, `PayoutFinalization`, `PayoutRuns`, `PayoutInvariant`, `PayoutProof`, `PayoutTheorems`, `PayoutTables` | the same for publisher payouts |
| `PayoutEffects`, `PayoutOrigins` | exactly when a payout completes or is recognised, what is written, and the evidence behind every completion of a run |
| `DeliveryState`, `DeliveryFraud`, `DeliveryVerification`, `DeliveryTheorems`, `DeliveryTables` | fraud signals, automatic verification, link re-checks |
| `DeliveryEffects` | exactly what a page, the claims on its URL and the decisions of staff lead to, and what is written |
| `HoldSweep` | the paged sweep over held settlements |
| `CommunicationOutbox`, `OutboxEffects`, `OutboxConvergence`, `OutboxTables` | the outbox: what any calls leave, whom a call reaches, when the order of calls does not show, and the rows as written |
| `Decimals`, `Money` | the decimal parsers and printers, canonical money texts |
| `CanonicalJson`, `CanonicalJsonProof`, `CanonicalTexts`, `JobSigning` | the canonical printer and the signatures of queue payloads |

## Reading the model

* **Money.** Wallets, ledger and cases count USD minor units; payouts count units of 10^-30, which
  is what `scaledDecimal` computes. `Decimals` proves that the texts in between are exact:
  what the minor-unit printer writes reads back as that many cents at thirty places
  (`MoneyScales`), and the two `scaledDecimal` functions are one function (`ParsersAgree`).
* **Row ids.** Tables whose rows are never deleted are sequences, and a row id is a position.
  Other tables are maps. Unique indexes are modelled, and a violation is an error of the write.
* **References.** A ledger reference is a free text or one of the three references of a dispute.
  The two kinds never collide, because the database reserves the prefix for disputes
  (`packages/database/prisma/migrations/20260729090000_payment_dispute_cases/migration.sql`).
* **Digests.** A SHA-256 digest stands for the facts it is computed from. The keyed hash of a job
  is an arbitrary function that returns 32 bytes; where injectivity matters, a lemma assumes it for
  the two texts at hand and for nothing else.
* **Times** are integers in milliseconds. One transaction reads the clock once.
* **`PROCESSING`** of the payment inbox is called `CLAIMED`, to keep it apart from the deposit status.

Where code and intent differ, the model follows the code:

* `finalizeDepositCredit` cannot throw `CONCURRENT_CHANGE`: its last lost race is rethrown as it
  is (`packages/shared/src/deposit-credit-core.ts:778-802`). The retry method returns the race.
* `minorToMoney` is right for amounts that are not negative, as it is used, and for negative
  amounts without cents; any other text it prints is not a decimal. `MinorRoundTrip` is the exact
  condition.
* `canonicalize` prints `[]` and `[undefined]` alike, and numbers that are not finite as `null`.
  `CanonicalIdentifies` is the exact equivalence; `CanonicalCollides` gives the two inputs.
* A dispute that is won before it was opened records no hold, while one that is opened first keeps
  the amount it had held. `HoldsAgreeExactly` says when the two orders record the same hold. Besides
  the hold and the shortfall of a won case, confluence leaves out the ledger rows that held and
  resolved a case and their ids (the balance sums over the ledger agree), and the version counters.
* The order of outbox calls shows on an event that a dispatcher holds or has failed, and on a key
  that has no event yet. `OutboxConvergence.CallsConverge` is the exact condition.
* A deposit that the webhook credits records no charge id. The two orders of the evidence sources
  agree on everything else.
* The re-check of a link counts every skip that is not `not_verified`, `superseded` or
  `no_active_delivery` as checked.

## Model

| member | source | states |
|---|---|---|
| FinanceTheorems.WalletSafety | packages/shared/src/payment-dispute-core.ts:672-985 | after any run of credits, disputes, refunds, order payments and seeding, every wallet has available + reserved = its non-reservation ledger rows, neither is negative, reserved = open holds + unpaid reservations, and chargeback and dispute-hold rows repeat the holds of lost and of reserved cases |
| FinanceTheorems.ParityAlwaysHolds | packages/shared/src/development-seed-funding.ts:166-184 | the parity assertion passes for every wallet in every reachable state, so seed funding is never refused for it |
| FinanceTheorems.DepositStatusIsProjection | packages/shared/src/payment-dispute-core.ts:479-522 | a credited deposit is refund-projected, or CHARGEBACK if a case is lost, else DISPUTED if one is open, else SUCCEEDED; an uncredited one has no case |
| FinanceTheorems.CreditedExactlyOnce | packages/shared/src/deposit-credit-core.ts:685-745 | credit-backed status, a linked ledger row and the existence of a deposit row for the attempt are equivalent, and there is at most one such row, of exactly the wallet credit |
| FinanceTheorems.SecondCreditIsReplay | packages/shared/src/deposit-credit-core.ts:574-692 | a second successful call for one attempt, after any run (disputes included), returns the same ledger id with credited = false and moves no money |
| CreditSources.EvidenceSourcesCommute | packages/shared/src/deposit-credit-core.ts:330-488 | webhook and retrieval that both could credit a deposit do so in either order: the first credits, the second replays, and the final states differ in the charge id alone |
| FinanceTheorems.ProcessedEventOnlyReplays | packages/shared/src/deposit-credit-core.ts:427-452 | an event that an earlier delivery processed never authorises a credit and changes nothing |
| DepositCreditProof.FinalizeKeepsValid | packages/shared/src/deposit-credit-core.ts:614-776 | a credit or replay keeps every invariant of the finance tables |
| DepositCreditProof.FinalizeReads | packages/shared/src/deposit-credit-core.ts:654-745 | a crediting call was admitted with no earlier row for its session or payment and appends exactly one row; any other successful call found the credit of the attempt |
| CreditEffects.CreditsExactly | packages/shared/src/deposit-credit-core.ts:206-425 | from a valid state a deposit is credited if and only if mode, facts paid in full in USD, the named attempt and its USD wallet, a claim that is held (a checkout webhook of either event type, or a retrieval with its stored evidence), a creditable status, and a session and payment that are on no ledger row all hold, each spelled out in columns |
| CreditEffects.ReplaysExactly | packages/shared/src/deposit-credit-core.ts:574-683 | a call replays if and only if mode, facts, attempt and wallet are in order as for a credit, the attempt is SUCCEEDED, DISPUTED, CHARGEBACK or in a refund view, and the claim is held, or the event was processed for this very attempt and has not changed since it was read |
| CreditEffects.CommitWrites | packages/shared/src/deposit-credit-core.ts:693-776 | a credit adds the one deposit row and its amount to one wallet and links the attempt, a replay does neither; both use up the claim, and no other row changes |
| DisputeTransitionProof.TransitionCommitsExactly | packages/shared/src/payment-dispute-core.ts:543-1026 | from a valid state a dispute event commits if and only if lease, envelope, deposit link and branch conditions hold; HOLD_MISSING, WALLET_NEGATIVE, missing rows, duplicate references and lost updates cannot occur |
| DisputeEffects.CommitsExactly | packages/shared/src/payment-dispute-core.ts:317-477 | from a valid state an event commits if and only if the claimed row holds it column by column, its status is one of the texts that the provider gives to open, won or lost disputes, it is about a credited deposit, and it neither overdraws that deposit nor contradicts the recorded case |
| DisputeEffects.FirstEventMoves | packages/shared/src/payment-dispute-core.ts:801-985 | a first opening or loss holds the disputed amount or all that is available, whichever is less; that much leaves the available balance and becomes reserved only by an opening; a first win holds 0 and moves nothing; one ledger row says so, and the case records the command |
| DisputeEffects.LaterEventMoves | packages/shared/src/payment-dispute-core.ts:587-799 | a late opening only attaches itself; a close of an open case takes its hold off the reserved balance and gives it back to the available one if and only if won; a repeated close changes no case and no money |
| DisputeEffects.EventCompletes | packages/shared/src/payment-dispute-core.ts:479-541 | a committed event ends its lease and names its deposit and case; the deposit keeps a refund view, else shows CHARGEBACK with a lost case, DISPUTED with an open one, and SUCCEEDED otherwise; no other row changes |
| DisputeTransitionProof.TransitionKeepsValid | packages/shared/src/payment-dispute-core.ts:587-1026 | opening, attaching, winning, losing and replaying a dispute keep every invariant |
| DisputeTransitionProof.StoredRowIsExact | packages/shared/src/payment-dispute-core.ts:228-315 | the input rebuilt from a claimed inbox row is the one and only input that is exact for that row and has a supported target status |
| DisputeConfluence.HoldsAgreeExactly | packages/shared/src/payment-dispute-core.ts:805-985 | the two orders record the same hold if and only if the dispute was lost or the wallet had nothing available |
| DisputeConfluence.OrderDoesNotMatter | packages/shared/src/payment-dispute-core.ts:587-1026 | created then closed is admitted exactly when closed then created is, neither second event is refused, and both orders agree on balances, balance-row sums, case status, provider status, exposure, evidence links, deposit status and inbox |
| FinanceTheorems.LeaseEnds | packages/shared/src/payment-dispute-core.ts:523-541 | committing a transition or returning a lease ends that lease |
| FinanceTheorems.LeaseStaysOver | packages/shared/src/payment-dispute-core.ts:523-566 | a lease that is over stays over in every run: only a fresh claim opens the next one |
| FinanceTheorems.StaleCallsChangeNothing | packages/shared/src/payment-dispute-core.ts:317-355 | after any run, a dispute or webhook-credit call that holds a lease which is over changes no row |
| FinanceTheorems.InboxRowCommitsOnce | packages/shared/src/payment-dispute-core.ts:523-541 | one inbox row commits one dispute transition in its whole life |
| FinanceTheorems.RecoveryLeaseIsFenced | packages/shared/src/deposit-credit-core.ts:452-488 | a recovery claim is spent by its credit or its return, and a call that still holds it changes nothing in any later state |
| FinanceTheorems.DisputeBounds | packages/shared/src/payment-dispute-core.ts:801-846 | the cases of a deposit never dispute more than it credited; held + shortfall = amount with neither negative, exposure is zero if won and the shortfall otherwise |
| FinanceTheorems.CaseIsImmutable | packages/shared/src/payment-dispute-core.ts:587-670 | identity, amount, held and shortfall of a case never change in a run, and WON and LOST are final |
| FinanceTheorems.EvidenceIsDistinct | packages/shared/src/payment-dispute-core.ts:735-752 | no event opens or resolves two cases, or opens and resolves one |
| FinanceTheorems.ContradictionChangesNothing | packages/shared/src/payment-dispute-core.ts:645-652 | a close that contradicts the recorded outcome leaves the whole state unchanged |
| OrderRefunds.RefundClosesOrder | packages/shared/src/order-refund-core.ts:108-147 | a refund cancels exactly the open assignments of its order, and leaves one order event that names the ledger row of the money |
| OrderRefunds.RefundsExactly | packages/shared/src/order-refund-core.ts:48-107 | a refund goes through if and only if the order is PAID or SUBMITTED, captured, in USD and unchanged, the wallet is the one of its organisation in USD, and the reference is free |
| OrderRefunds.RefundPays | packages/shared/src/order-refund-core.ts:77-130 | the wallet gets the amount of the order, the order is refunded under the given responsibility, and one USD row carries the reference |
| FinanceTheorems.RefundedOnce | packages/shared/src/order-refund-core.ts:77-130 | a refunded order is never refunded again, whatever happens in between |
| FinanceTheorems.SeededOnce | packages/shared/src/development-seed-funding.ts:218-284 | seed money is created once for the whole ledger, whichever wallet asks next and whatever happened in between |
| SeedFundingProof.FundingKeepsValid | packages/shared/src/development-seed-funding.ts:218-270 | opening the wallet and funding it keep every invariant of the finance tables |
| SeedFundingProof.FundsExactly | packages/shared/src/development-seed-funding.ts:59-96 | from a valid state funding succeeds if and only if the wallet, if there is one, is the one of this organisation and user in USD, and the seed reference is free or on the exact row of this wallet; it creates money only in the first case |
| SeedFundingProof.FundingSeeds | packages/shared/src/development-seed-funding.ts:218-270 | new funding adds 500000 cents and the one seed row that says so, a repeated one nothing; a missing wallet is opened for this organisation and user |
| FinanceRunsProof.RunKeepsValid | packages/shared/src/payment-dispute-core.ts:543-1026 | every run of the finance tables keeps all invariants, from any state that satisfies them |
| FinanceOrigins.DepositWasAuthorised | packages/shared/src/deposit-credit-core.ts:614-745 | every provider-backed row that a run adds to the ledger was written by one credit step of the run, for a still creditable attempt that the paid-in-full facts name in id, owner, session and exact amount, under a checkout event or a frozen recovery evidence claimed at that moment |
| FinanceOrigins.CreditIsAuthorised | packages/shared/src/deposit-credit-core.ts:206-425 | one crediting call had such facts and such an authority in the tables; an event that was processed before never credits |
| FinanceOrigins.CaseWasAuthorised | packages/shared/src/payment-dispute-core.ts:317-431 | every case that a run adds was recorded by one dispute step, whose claimed event stored exactly the ids, amount and currency of the case, about a credited deposit of at least its amount, and the case still says the same |
| FinanceHistory.RunEvolves | packages/shared/src/payment-dispute-core.ts:587-985 | in every run the ledger only grows, credits stay linked, cases keep their booking, leases are never reopened, processed events and refunded orders stay as they are |
| WalletState.CaseSumUpdate | packages/shared/src/payment-dispute-core.ts:805-812 | a sum over cases moves by the difference of the one case that changes |
| DepositStatus.StatusesPartition | packages/shared/src/deposit-status.ts:5-55 | every deposit status is either still creditable or backed by a credit, never both |
| FinanceTables.Tables.CompleteEvent | packages/shared/src/payment-dispute-core.ts:479-541 | the loop over the cases re-projects the deposit and the update consumes exactly the owned lease; equal to the specification |
| FinanceTables.Tables.ResolveOpen | packages/shared/src/payment-dispute-core.ts:672-752 | the writes that release or debit a hold give the specified state or the specified error |
| FinanceTables.Tables.BookCase | packages/shared/src/payment-dispute-core.ts:801-985 | the writes that book a first event give the specified state or the specified error |
| FinanceTables.Tables.TransitionPaymentDispute | packages/shared/src/payment-dispute-core.ts:543-1064 | the bounded retry commits at most one transition, on top of what others committed while it waited, and keeps the invariants |
| FinanceTables.Tables.FinalizeDepositCredit | packages/shared/src/deposit-credit-core.ts:614-801 | the bounded retry credits at most once, on top of what others committed while it waited |
| FinanceTables.Tables.RefundUnacceptedPaidOrder | packages/shared/src/order-refund-core.ts:34-147 | wallet, order, assignments, ledger and order event are written in this order, together or not at all; equal to the specification |
| FinanceTables.Tables.EnsureDevelopmentSeedFunding | packages/shared/src/development-seed-funding.ts:218-270 | identity (organisation, user, currency), evidence and parity are checked in order, and wallet and row are written together or rolled back |
| PayoutTheorems.PayoutConservation | packages/shared/src/payout-finalization-core.ts:1032-1053 | after any run what a publisher was paid is the sum of its completed withdrawals |
| PayoutTheorems.ConservationFrom | packages/shared/src/payout-finalization-core.ts:1032-1053 | from any state that satisfies the invariants, a run adds to lifetimePaid exactly the withdrawals it completes |
| PayoutTheorems.PaidOnce | packages/shared/src/payout-finalization-core.ts:908-925 | a withdrawal is completed if and only if one of its executions is, and never two of them |
| PayoutTheorems.EvidenceServesOnce | packages/shared/src/payout-finalization-core.ts:927-952 | no provider reference or bank receipt of a provider, and no webhook, completes two executions |
| PayoutTheorems.CompletionWasBacked | packages/shared/src/payout-finalization-core.ts:810-906 | a completed execution paid what the unreleased, positive USD allocations add up to; automated evidence equals the destination in minor units and names the provider object; a manual checker differs from requester, approver and initiator |
| PayoutProof.CompletionIsBacked | packages/shared/src/payout-finalization-core.ts:639-906 | whatever passes the checks of the transaction leaves a completed execution with fitting, sufficient evidence |
| PayoutProof.CompletionIsUnique | packages/shared/src/payout-finalization-core.ts:908-952 | from a valid state the checks before the write leave nothing for the unique indexes to reject |
| PayoutProof.OnlyFaultIsMissingBalance | packages/shared/src/payout-finalization-core.ts:954-1070 | from a valid state the transaction throws if and only if it decides to complete and the publisher has no balance row |
| PayoutEffects.CompletesExactly | packages/shared/src/payout-finalization-core.ts:477-952 | from a valid state a call completes its payout if and only if its claim is held, provider, mode and rows are on its route, the evidence says so (a webhook with the text COMPLETED, its event type, account, amount and currency; a report on the object of the provider; staff in a finance role), execution and withdrawal are PROCESSING or FAILED at a listed stage, amounts and reservation agree, a manual confirmation passes four eyes, no other execution competes or has the evidence, and the publisher has a balance |
| PayoutEffects.RecognisesExactly | packages/shared/src/payout-finalization-core.ts:699-771 | a completed payout is recognised if and only if genuine evidence names what completed it; it is a replay when source and event are the same, and a corroboration otherwise |
| PayoutEffects.CompletionWrites | packages/shared/src/payout-finalization-core.ts:954-1093 | a completion writes one execution, its withdrawal, the lifetimePaid of one publisher and the inbox row of its event, with every column stated, and no other row |
| PayoutEffects.OtherRepliesWrite | packages/shared/src/payout-finalization-core.ts:205-334 | every other reply writes the end of its event (processed, ignored or quarantined with its code) and nothing else, and nothing at all without its claim |
| PayoutOrigins.CompletionWasAuthorised | packages/shared/src/payout-finalization-core.ts:477-1053 | every execution that a run completes was completed by one of its calls, whose claim, evidence, rows, reservation and four eyes were in order at that moment |
| PayoutTheorems.NotAppliedLeavesMoney | packages/shared/src/payout-finalization-core.ts:271-334 | every reply with applied = false leaves executions, withdrawals and balances as they were |
| PayoutTheorems.AppliesOnce | packages/shared/src/payout-finalization-core.ts:699-771 | after a completion no later call on the same withdrawal or execution applies, whatever its evidence |
| PayoutTheorems.LaterEvidence | packages/shared/src/payout-finalization-core.ts:699-771 | accepted provider evidence about an execution that a provider source completed replays (same source, same event) or corroborates; it never conflicts |
| PayoutTheorems.ResubmissionReplays | packages/shared/src/payout-finalization-core.ts:699-771 | the same non-webhook input, at any later clock and in any later state, is a replay that changes nothing |
| PayoutTheorems.CallEndsLease | packages/shared/src/payout-finalization-core.ts:205-228 | every committed call of a webhook uses its lease up, whatever it decides |
| PayoutTheorems.StaleCallsChangeNothing | packages/shared/src/payout-finalization-core.ts:398-428 | in every later state a call with a lease that is over reports the lost lease and changes no row |
| PayoutProof.RunKeepsValid | packages/shared/src/payout-finalization-core.ts:477-1093 | every run of the payout tables keeps all invariants |
| PayoutTables.Tables.AllocationsCover | packages/shared/src/payout-finalization-core.ts:810-832 | the filter, sum and scan over the allocations decide exactly whether they cover the withdrawal |
| PayoutTables.Tables.DeterministicConflict | packages/shared/src/payout-finalization-core.ts:271-334 | a refused webhook is quarantined with its code, unless its lease is gone |
| PayoutTables.Tables.FinalizeInTransaction | packages/shared/src/payout-finalization-core.ts:477-1093 | the checks in their order and the writes row by row equal the specification |
| PayoutTables.Tables.FinalizePayoutExecution | packages/shared/src/payout-finalization-core.ts:1095-1169 | the retry of seven attempts commits at most one completion step; a unique violation quarantines the webhook in a transaction of its own |
| DeliveryTheorems.VerifiedExactlyWhenReady | packages/shared/src/delivery-verification-core.ts:746-944 | an order is verified automatically if and only if its active, unsuperseded delivery passed at the expected generation with a stored snapshot, nothing holds the order, and every signal is cleared by an exact classified disposition; otherwise no order changes |
| DeliveryEffects.DecidesExactly | packages/shared/src/delivery-verification-core.ts:706-820 | what a fetched page decides: the current delivery of a published order passes if and only if its snapshot is stored, the checks pass, nothing of the order is under review, and every signal on the page and the set of deliveries of other orders on the same URL has been cleared by staff for exactly these details; it fails if the checks fail, and is reviewed otherwise |
| DeliveryEffects.RaisesExactly | packages/shared/src/delivery-verification-core.ts:289-369 | whatever is decided, each signal of the page, and reuse of the URL, that is neither under review nor cleared raises its flag, with the evidence it tells of; no other flag is raised or touched |
| DeliveryEffects.DecisionWrites | packages/shared/src/delivery-verification-core.ts:822-944 | the order is verified if and only if its delivery passes; the rows of delivery, order, snapshot and evidence are stated, and no other row changes |
| DeliveryTheorems.OneUnresolvedFlag | packages/shared/src/delivery-verification-core.ts:289-369 | after any run each delivery version has at most one unresolved flag of each type |
| DeliveryFraud.EvaluationPartitions | packages/shared/src/delivery-verification-core.ts:329-368 | each candidate is held by an unresolved flag, or cleared by an exact classified one, or created: exactly one of the three, and nothing else is created or reused |
| DeliveryFraud.DispositionsAgree | packages/shared/src/delivery-url-claim-core.ts:185-233 | both cores accept the same staff dispositions, with the roles and references each of them needs |
| DeliveryFraud.MatchingEvidenceIsFresh | packages/shared/src/delivery-url-claim-core.ts:102-183 | evidence that still matches proves that nobody has claimed the URL since it was raised, although only 128 claims are sampled |
| DeliveryFraud.NewClaimIsNewEvidence | packages/shared/src/delivery-url-claim-core.ts:160-183 | a new claim on the URL makes every earlier evidence, in the old or the new form, stop matching |
| DeliveryTheorems.RefreshAgrees | packages/shared/src/delivery-url-claim-core.ts:241-373 | the settlement-time refresh asks for a review exactly when verification would hold or flag the same signal, and raises the same flag |
| DeliveryEffects.RefreshesExactly | packages/shared/src/delivery-url-claim-core.ts:241-373 | the refresh asks for a review if and only if reuse of the URL is under review or neither flagged nor cleared, and raises one flag in the second case only |
| DeliveryEffects.MatchesWhenTelling | packages/shared/src/delivery-url-claim-core.ts:102-183 | stored evidence matches if and only if it tells of the claims of now: their number, whether there are more than 128, and the first 128 with their orders, or in the old form the first claim and the number |
| DeliveryTheorems.CommitsSpend | packages/shared/src/delivery-verification-core.ts:873-886 | a decision, a removal and a restoration spend the generation they were given |
| DeliveryTheorems.SpentGenerationChangesNothing | packages/shared/src/delivery-verification-core.ts:436-481 | jobs and re-checks that carry a spent generation change nothing, now and in every later state |
| DeliveryTheorems.RemovalHolds | packages/shared/src/delivery-verification-core.ts:1415-1497 | a removed link fails the delivery, holds its order, and keeps the order from being verified automatically |
| DeliveryEffects.RechecksExactly | packages/shared/src/delivery-verification-core.ts:1248-1497 | a re-check removes if and only if the link is gone from a current delivery that counts, restores if and only if it is back where a removal is open, and otherwise changes no delivery and no flag; what each writes is stated |
| DeliveryTheorems.RemovalThenRestoration | packages/shared/src/delivery-verification-core.ts:1248-1341 | a link that comes back is restored two generations later, and exactly the flag of the removal is resolved |
| DeliveryTables.Tables.EvaluateFraudCandidates | packages/shared/src/delivery-verification-core.ts:289-369 | the nested loops with their early exits compute the specified evaluation |
| DeliveryTables.Tables.RunDeliveryVerification | packages/shared/src/delivery-verification-core.ts:746-944 | the transition writes evidence, delivery, order and flags as specified, or nothing |
| DeliveryTables.Tables.RunDeliveryLinkRecheck | packages/shared/src/delivery-verification-core.ts:1248-1497 | restoration, passed re-check and removal write the specified rows |
| DeliveryTables.Tables.RefreshUrlReuse | packages/shared/src/delivery-url-claim-core.ts:241-373 | the refresh computes the specified answer and raises at most one flag |
| HoldSweep.RunSettlementHoldLinkSweep | packages/shared/src/delivery-verification-core.ts:1557-1648 | on a fixed table the sweep terminates, visits the first min(n, 5000) rows once each in query order, tallies their outcomes, and reports the cap if and only if n > 5000, with the row it starts to miss; it succeeds if and only if no scanned re-check threw |
| HoldSweep.TallyAccounts | packages/shared/src/delivery-verification-core.ts:1600-1617 | checked + failed + skipped without counting = scanned, and removed + restored <= checked |
| HoldSweep.TallyCounts | packages/shared/src/delivery-verification-core.ts:1600-1617 | each counter is the number of rows with such an outcome: all but a re-check that threw and a skip of an unverified, superseded or missing delivery count as checked |
| OutboxConvergence.CallsConverge | packages/shared/src/communication-outbox-core.ts:70-316 | for every outbox and all calls on one key: every order and repetition leaves the same outbox if and only if the calls are order free. On an event this means that it is PENDING or PROCESSED, or that every accepted call alone would leave it alike, outstanding or not; on a key without an event, that the records which may open it carry one content and cover whomever a repair projects |
| OutboxConvergence.HeldShowsOrder | packages/shared/src/communication-outbox-core.ts:70-97 | an event that a dispatcher holds or has failed keeps its status if a call that leaves something outstanding comes first, and loses it if one that leaves nothing does, whatever follows |
| OutboxConvergence.FailedEventShowsOrder | packages/shared/src/communication-outbox-core.ts:70-97 | two concrete repairs of a failed event end PENDING in one order and FAILED in the other |
| OutboxConvergence.EarlyRepairMisses | packages/shared/src/communication-outbox-core.ts:142-152 | a repair before the record that creates the event writes nothing; the same repair after it writes the delivery |
| OutboxConvergence.NewKeyShowsOrder | packages/shared/src/communication-outbox-core.ts:142-152 | a concrete record and repair on a key without an event, of which one order only writes the delivery |
| CommunicationOutbox.RunProjects | packages/shared/src/communication-outbox-core.ts:117-316 | any calls on any key leave everything as it was, or exactly the union of what the calls project from the moment there is an event, one row each, on top of the rows there were and with no other event changed |
| CommunicationOutbox.RunOpens | packages/shared/src/communication-outbox-core.ts:280-316 | on a key without an event, a run is the run on the event that its first record known to the policy creates; the calls before that record change nothing |
| CommunicationOutbox.RunStatus | packages/shared/src/communication-outbox-core.ts:70-97 | the status of an event after any calls, from its status before, what the first accepted call leaves outstanding and what is outstanding in the end |
| CommunicationOutbox.ProcessedIffNothingOutstanding | packages/shared/src/communication-outbox-core.ts:70-97 | after a successful call an event is processed if and only if no delivery of it is outstanding |
| CommunicationOutbox.CallOnlyAdds | packages/shared/src/communication-outbox-core.ts:199-240 | a call creates rows of its own event only and changes no row that exists |
| OutboxEffects.AcceptsExactly | packages/shared/src/communication-outbox-core.ts:255-316 | a call succeeds if and only if it is about the event of its key, or records the event that creates it, and the catalogue classifies that event alike |
| OutboxEffects.CallReaches | packages/shared/src/communication-outbox-core.ts:117-248 | after a successful call a user without a row has one if and only if known, listed, not an excluded actor, not banned, on a default channel that is required or not turned off; mail is SUPPRESSED if and only if the user is unverified or the address suppressed, and TO_SEND otherwise; the event is PROCESSED if and only if no delivery of it is TO_SEND, SENDING, SEND_FAILED or DELIVERY_UNCERTAIN |
| OutboxTables.Tables.RepairRows | packages/shared/src/communication-outbox-core.ts:117-248 | whatever order the users come in, the nested loops write the specified rows and return exactly the deliveries to dispatch, once each |
| OutboxTables.Tables.RecordEvent | packages/shared/src/communication-outbox-core.ts:255-316 | recording creates the event or recognises it, refuses other content, and projects its rows |
| Decimals.ScaledRoundTrip | packages/shared/src/payment-dispute-core.ts:143-165 | reading what the decimal printer writes gives back every integer, negative ones included, although trailing zeros are stripped |
| Decimals.ShortestText | packages/shared/src/payment-dispute-core.ts:156-165 | the decimal printer writes the shortest text: a sign only if needed, no leading and no trailing zeros, at most thirty places |
| Decimals.MoneyTruncates | packages/shared/src/payment-dispute-core.ts:167-171 | the money printer cuts off towards zero, by less than a cent |
| Decimals.MinorRoundTrip | packages/shared/src/deposit-credit-core.ts:173-198 | printing and reading minor units is exact if and only if the number is not negative or has no cents |
| Decimals.MinorIsScaled | packages/shared/src/deposit-credit-core.ts:173-192 | what the minor-unit parser accepts is the scaled value divided by 10^28, and conversely for texts of at most thirty places |
| Decimals.ParsersAgree | packages/shared/src/payout-finalization-core.ts:147-159 | the payout core's parser, which strips leading zeros, computes the same value as the dispute core's |
| Decimals.MoneyScales | packages/shared/src/payment-dispute-core.ts:290-292 | the amount text of a dispute event is worth its minor units at thirty places |
| Decimals.ParseExact | packages/shared/src/payment-dispute-core.ts:143-154 | the parser accepts exactly the texts of the decimal grammar and splits each in its one way |
| Money.ServerNormalizes | packages/shared/src/money.ts:39-64 | the server accepts plain texts of a positive amount and writes the one canonical text of that amount in cents |
| Money.ServerIdempotent | packages/shared/src/money.ts:39-64 | normalising a normalised amount changes nothing |
| Money.ServerCanonical | packages/shared/src/money.ts:39-64 | two accepted values have the same normal form if and only if they are the same number of cents |
| Money.ClientAgrees | packages/api-client/src/exact-money.ts:4-11 | on values that both accept, client and server write the same text, the canonical one of the amount; the client accepts a text of the server if and only if it is below 10^18 cents |
| Money.AtMostIsExact | packages/api-client/src/exact-money.ts:13-27 | the client's comparison is the comparison of the two amounts in cents, and false for anything it cannot read exactly |
| Money.AcceptedTexts | packages/api-client/src/exact-money.ts:1-11 | which texts each side accepts: the server positive amounts, the client amounts below 10^18 cents |
| Money.PlainExact | packages/shared/src/money.ts:22-64 | a text of digits with or without a fraction is plain if and only if it has no leading zero and at most two places, and then it is worth so many dollars and cents |
| CanonicalJsonProof.CanonicalIdentifies | packages/shared/src/job-signing.ts:36-44 | two values have the same canonical text if and only if they are alike: equal up to key order, undefined fields, non-finite numbers read as null, and `[]` for `[undefined]` |
| CanonicalJsonProof.CanonicalInjective | packages/shared/src/job-signing.ts:36-44 | on JSON values the printer is injective up to key order and undefined fields |
| CanonicalJsonProof.CanonicalCollides | packages/shared/src/job-signing.ts:36-44 | outside of JSON values it is not, with two concrete pairs |
| CanonicalJsonProof.Unambiguous | packages/shared/src/job-signing.ts:36-44 | a canonical text is the text of alike values only, and where it ends can be seen in any context of nested arrays and objects |
| CanonicalJsonProof.UnescapeEscape | packages/shared/src/job-signing.ts:37-42 | quoted strings (section 7 of RFC 8259, lone surrogates included) are read back as they were |
| CanonicalJsonProof.KeysDetermine | packages/shared/src/job-signing.ts:41-41 | entries sorted by distinct keys are determined by their keys, so the sorting algorithm does not matter |
| CanonicalTexts.LiteralTexts | packages/shared/src/job-signing.ts:37-37 | the texts of null, true, false, numbers and undefined, and null for what is not finite |
| CanonicalTexts.StringText | packages/shared/src/job-signing.ts:37-37 | strings unit by unit between quotes, with each escape of section 7 of RFC 8259 written out and surrogate pairs kept |
| CanonicalTexts.ArrayText | packages/shared/src/job-signing.ts:38-38 | the texts of the elements, in order, between brackets and commas |
| CanonicalTexts.ObjectText | packages/shared/src/job-signing.ts:39-43 | the defined fields with their quoted keys in increasing order, between braces and commas |
| JobSigning.SignedVerifies | packages/shared/src/job-signing.ts:87-137 | a signed payload, with keys in any order and with or without undefined fields, verifies if and only if maxAge is 0, or iat <= now + 60000 and now - iat <= maxAge |
| JobSigning.VerifiesExactly | packages/shared/src/job-signing.ts:104-137 | any payload verifies if and only if its signature is a string that spells the hash of the rest in hexadecimal digits of either case, and the window is off or the time of signing lies in it; a payload without a numeric time passes only if the caller allows it |
| JobSigning.SignedCarries | packages/shared/src/job-signing.ts:87-102 | a signed payload is its data with the time, version 1, and as signature the hexadecimal hash of the canonical text of these |
| JobSigning.SignatureBinds | packages/shared/src/job-signing.ts:104-122 | a signature accepted for two payloads was given to alike payloads, as far as the hash tells their texts apart |
| JobSigning.OwnSignatureRefused | packages/shared/src/job-signing.ts:87-102 | a payload signed from data verifies if and only if the data did not bring a signature field of its own |

## Left out

- FinanceTables.Tables.FinalizeDepositCredit: `races` tells which attempts lose a serialisation race and what others commit meanwhile; back-off delays are not modelled.
- PaymentDisputes: the model rejects a stored charge id and an empty one as different facts; the digest of the source does not tell them apart, but the envelope comparison next to it does.
- SeedFunding.EnsureFunding: the wallet of the organisation is given by its id. Descriptions of ledger rows are told apart by what they are printed from.
- FinanceTables.Tables.RefundUnacceptedPaidOrder: the wallet is given by its id, and refused if it belongs to another organisation; the audit record is left out. A refund event keeps the reason, not the message that contains it.
- PayoutTables.Tables.FinalizePayoutExecution: the secondary transaction that quarantines a webhook after a unique violation always commits; the source ignores its failure.
- PayoutFinalization.NormalizedMinorAmount: a JavaScript number is a real, accepted when it is a safe integer.
- Text.Upper: upper case changes the basic Latin letters only; currencies and bank references outside of them are kept as they are.
- JobSigning.VerifyJobPayload: the amount of a printed number is its decimal value and differences of clocks are exact; the source computes both in doubles, which agree on the integers that clocks return. A payload that is null is not modelled.
- CommunicationOutbox.Event: deadlines, attempts, locks and processing times of events are not modelled.
- DeliveryVerification.Verify: starts at the locked transition; the unlocked reads before it only skip jobs, and the transition reads everything again. Page analysis, fetching and storage are given by their results.
- DeliveryState: a fraud hold is an unresolved flag of the order, as the database projects it.
- HoldSweep.RunSettlementHoldLinkSweep: the outcome of each re-check is a function of its delivery version, and the table does not change during the sweep; the five concurrent re-checks of a batch are counted in the order of their rows, as the source counts them.
- Completion guards of the database beyond the unique indexes (triggers that repeat the finalizer's evidence checks) are not modelled; the rows they make immutable are immutable in the runs.
- Row locks, isolation levels, audit and notification hooks, fee metadata, request ids and timestamps other than the ones named above.
- Stripe key and mode checks are one boolean given to each call.
- The inbox controllers, reservation service, settlement release, staff approvals and delivery submission appear only as steps of the runs.
- Financial documents, e-mail dispatch, moderation menus, cancellation policy, fee percentages, authentication, worker bootstrap and configuration: they would only add single-branch readings.
