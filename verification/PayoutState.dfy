/**
 The rows of publisher payouts. Executions and withdrawals are never deleted, so their row
 id is their position. Money is a decimal scaled by 10^30, as the core compares it.
 */
module PayoutState {
  import opened Outcomes
  import opened Decimals

  type Id = string

  const STRIPE_CONNECT: string := "stripe_connect"
  const WISE: string := "wise"
  const MANUAL: string := "manual"
  const USD: string := "USD"

  datatype ExecutionStatus = PENDING | PROCESSING | COMPLETED | FAILED | CANCELLED
  datatype WithdrawalStatus = PENDING | APPROVED | PROCESSING | COMPLETED | REJECTED | FAILED | REVERSED
  datatype WebhookStatus = PENDING | PROCESSING | PROCESSED | FAILED | IGNORED | QUARANTINED

  datatype Source =
    | PROVIDER_RESPONSE
    | PROVIDER_WEBHOOK
    | PROVIDER_STATUS_POLL
    | MANUAL_BANK_CONFIRMATION
    | LEGACY_UNVERIFIED

  datatype Stage =
    | PROVIDER_SENT
    | PROVIDER_OUTCOME_UNKNOWN
    | PROVIDER_COMPLETION_RECOVERY_REQUIRED
    | BANK_PAYOUT_CREATED
    | BANK_PAYOUT_PENDING
    | BANK_PAYOUT_RECOVERY_REQUIRED
    | BANK_PAID
    | MANUAL_CONFIRMED
    | CANCEL_REQUESTED
    | OtherStage(name: string)

  datatype Provider = Provider(id: Id, name: string)

  /** The completion columns, which are empty together while the row is not completed. */
  datatype Completion = Completion(
    source: Source,
    evidenceRef: Option<string>,
    evidenceAt: Option<int>,
    completedAt: int,
    actor: Option<Id>,
    webhookEvent: Option<Id>,
    amountMinor: Option<int>,
    reason: Option<string>
  )

  datatype Execution = Execution(
    withdrawal: nat,
    provider: Provider,
    status: ExecutionStatus,
    stage: Stage,
    amount: int,
    destinationAmount: Option<int>,
    sourceCurrency: string,
    destinationCurrency: string,
    livemode: Option<bool>,
    providerExecutionId: Option<string>,
    providerTransferId: Option<string>,
    providerPayoutId: Option<string>,
    acceptedReference: Option<string>,
    bankTraceReference: Option<string>,
    destinationAccount: Option<string>,
    initiatedBy: Option<Id>,
    createdAt: int,
    fee: int,
    completion: Option<Completion>,
    version: nat
  )

  datatype Allocation = Allocation(amount: int, currency: string, releasedAt: Option<int>)

  datatype Withdrawal = Withdrawal(
    publisher: Id,
    amount: int,
    netAmount: Option<int>,
    currency: string,
    publicReference: Option<string>,
    status: WithdrawalStatus,
    requestedBy: Option<Id>,
    approvedBy: Option<Id>,
    approvedAt: Option<int>,
    allocations: seq<Allocation>,
    version: nat
  )

  datatype Balance = Balance(lifetimePaid: int, version: nat)

  datatype Code =
    | EXECUTION_NOT_FOUND
    | WITHDRAWAL_NOT_FOUND
    | WITHDRAWAL_REFERENCE_MISMATCH
    | EXECUTION_WITHDRAWAL_MISMATCH
    | INVALID_LOCAL_STATE
    | CANCELLATION_IN_PROGRESS
    | PROVIDER_MISMATCH
    | PROVIDER_MODE_MISMATCH
    | PROVIDER_REFERENCE_MISMATCH
    | INVALID_PROVIDER_STAGE
    | AMOUNT_CURRENCY_MISMATCH
    | RESERVATION_MISMATCH
    | COMPETING_EXECUTION
    | EVIDENCE_ALREADY_USED
    | WEBHOOK_EVIDENCE_MISMATCH
    | WEBHOOK_LEASE_LOST
    | PROVIDER_AMOUNT_CURRENCY_MISMATCH
    | MANUAL_EVIDENCE_INVALID
    | MANUAL_ACTOR_UNAUTHORIZED
    | MAKER_CHECKER_VIOLATION
    | COMPLETION_EVIDENCE_CONFLICT
    | COMPLETION_STATE_MISMATCH

  /** What the inbox records about the end of a row. */
  datatype Note = ConflictNote(code: Code) | CorroboratesExistingCompletion | OtherNote(text: string)

  datatype WebhookEvent = WebhookEvent(
    provider: string,
    eventType: string,
    providerExecutionId: Option<string>,
    account: Option<string>,
    amountMinor: Option<int>,
    currency: Option<string>,
    livemode: Option<bool>,
    providerStatus: Option<string>,
    receivedAt: int,
    status: WebhookStatus,
    attempts: nat,
    lockedAt: Option<int>,
    processedAt: Option<int>,
    lastError: Option<Note>
  )

  /** One committed state. `staff` are the current unbanned members with a finance or super-admin role. */
  datatype Payouts = Payouts(
    executions: seq<Execution>,
    withdrawals: seq<Withdrawal>,
    balances: map<Id, Balance>,
    webhooks: map<Id, WebhookEvent>,
    staff: set<Id>
  )

  // ---------------------------------------------------------------- sums

  /** What the completed withdrawals of a publisher add up to. */
  function PaidSum(publisher: Id, ws: seq<Withdrawal>): int {
    if ws == [] then 0 else PaidSum(publisher, ws[..|ws| - 1]) + PaidWeight(publisher, ws[|ws| - 1])
  }

  function PaidWeight(publisher: Id, w: Withdrawal): int {
    if w.status.COMPLETED? && w.publisher == publisher then w.amount else 0
  }

  lemma {:induction false} PaidSumUpdate(publisher: Id, ws: seq<Withdrawal>, k: nat, w: Withdrawal)
    requires k < |ws|
    ensures PaidSum(publisher, ws[k := w]) == PaidSum(publisher, ws) - PaidWeight(publisher, ws[k]) + PaidWeight(publisher, w)
  {
    var n := |ws| - 1;
    if k == n {
      assert ws[k := w][..n] == ws[..n];
    } else {
      PaidSumUpdate(publisher, ws[..n], k, w);
      assert ws[k := w][..n] == ws[..n][k := w];
    }
  }

  lemma PaidSumAppend(publisher: Id, ws: seq<Withdrawal>, w: Withdrawal)
    ensures PaidSum(publisher, ws + [w]) == PaidSum(publisher, ws) + PaidWeight(publisher, w)
  {
    assert (ws + [w])[..|ws|] == ws;
  }

  function Active(allocations: seq<Allocation>): (r: seq<Allocation>)
    ensures forall a :: a in r <==> a in allocations && a.releasedAt.None?
  {
    if allocations == [] then []
    else
      var rest := Active(allocations[..|allocations| - 1]);
      var last := allocations[|allocations| - 1];
      assert allocations == allocations[..|allocations| - 1] + [last];
      if last.releasedAt.None? then rest + [last] else rest
  }

  function Total(allocations: seq<Allocation>): int {
    if allocations == [] then 0
    else Total(allocations[..|allocations| - 1]) + allocations[|allocations| - 1].amount
  }

  lemma ActiveStep(allocations: seq<Allocation>, i: nat)
    requires i < |allocations|
    ensures Active(allocations[..i + 1])
         == if allocations[i].releasedAt.None? then Active(allocations[..i]) + [allocations[i]] else Active(allocations[..i])
  {
    assert allocations[..i + 1][..i] == allocations[..i];
  }

  lemma TotalAppend(allocations: seq<Allocation>, a: Allocation)
    ensures Total(allocations + [a]) == Total(allocations) + a.amount
  {
    assert (allocations + [a])[..|allocations|] == allocations;
  }

  /** A positive amount in the one supported currency, which must also be that of the withdrawal. */
  predicate Sound(a: Allocation, currency: string) {
    a.currency == USD == currency && a.amount > 0
  }

  predicate AllSound(allocations: seq<Allocation>, currency: string) {
    forall i :: 0 <= i < |allocations| ==> Sound(allocations[i], currency)
  }

  lemma AllSoundAppend(allocations: seq<Allocation>, a: Allocation, currency: string)
    ensures AllSound(allocations + [a], currency) <==> AllSound(allocations, currency) && Sound(a, currency)
  {
    assert forall i :: 0 <= i < |allocations| ==> (allocations + [a])[i] == allocations[i];
    assert (allocations + [a])[|allocations|] == a;
  }

  // ---------------------------------------------------------------- the unique indexes

  predicate MovesMoney(status: ExecutionStatus) {
    status.PENDING? || status.PROCESSING? || status.COMPLETED?
  }

  /** Two rows that one of the unique indexes keeps apart. */
  predicate Conflicting(a: Execution, b: Execution) {
    || (a.withdrawal == b.withdrawal && MovesMoney(a.status) && MovesMoney(b.status))
    || (a.provider.id == b.provider.id && a.bankTraceReference.Some? && a.bankTraceReference == b.bankTraceReference)
    || (a.completion.Some? && b.completion.Some? && SameEvidence(a.provider.id, a.completion.value, b.provider.id, b.completion.value))
  }

  predicate SameEvidence(p: Id, a: Completion, q: Id, b: Completion) {
    || (p == q && a.evidenceRef.Some? && a.evidenceRef == b.evidenceRef)
    || (a.webhookEvent.Some? && a.webhookEvent == b.webhookEvent)
  }

  /** Writing `e` at row `k` violates a unique index. */
  predicate Violates(executions: seq<Execution>, k: nat, e: Execution) {
    exists j :: 0 <= j < |executions| && j != k && Conflicting(executions[j], e)
  }
}
