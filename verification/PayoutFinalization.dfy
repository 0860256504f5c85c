/**
 The canonical payout completion. Provider responses, status polls, signed webhooks and
 manual bank confirmations all enter this transition, and an execution completes once.
 */
module PayoutFinalization {
  import opened Outcomes
  import opened PayoutState
  import Decimals
  import Text

  /** What the transaction throws instead of returning a conflict. */
  datatype Fault = BALANCE_MISSING | EXECUTION_CHANGED | LEASE_CHANGED | UNIQUE_VIOLATION | SERIALIZATION

  datatype Reply = Done(kind: Kind, applied: bool) | Conflict(code: Code)
  datatype Kind = Completed | Replayed | Corroborated

  datatype MinorAmount = NoAmount | BigInteger(n: int) | JsNumber(x: real) | DigitText(s: string)

  /** The source-specific part of an input. A date that is not valid is `None`. */
  datatype Evidence =
    | Automated(response: bool, at: Option<int>, amountMinor: MinorAmount, currency: Option<string>)
    | Webhook(eventId: Id, attempt: int, lockedAt: Option<int>)
    | ManualBank(withdrawalReference: string, at: Option<int>, actor: Id, reason: string)

  datatype Input = Input(
    execution: nat,
    withdrawal: nat,
    providerName: string,
    providerReference: string,
    fee: Option<int>,
    evidence: Evidence
  )

  const MAX_SAFE_INTEGER: int := 9007199254740991
  const MANUAL_CLOCK_TOLERANCE_MS: int := 5 * 60 * 1000

  function SourceOf(evidence: Evidence): Source {
    match evidence
    case Automated(response, _, _, _) => if response then PROVIDER_RESPONSE else PROVIDER_STATUS_POLL
    case Webhook(_, _, _) => PROVIDER_WEBHOOK
    case ManualBank(_, _, _, _) => MANUAL_BANK_CONFIRMATION
  }

  // ---------------------------------------------------------------- texts and amounts

  predicate Present(o: Option<string>) {
    o.Some? && o.value != ""
  }

  function NormalizedCurrency(s: string): string {
    Text.Upper(Text.Trim(s))
  }

  function EvidenceReference(input: Input): string {
    var trimmed := Text.Trim(input.providerReference);
    if input.evidence.ManualBank? then Text.Upper(Text.CollapseSpaces(trimmed)) else trimmed
  }

  function NormalizedMinorAmount(v: MinorAmount): Option<int> {
    match v
    case NoAmount => None
    case BigInteger(n) => if n > 0 then Some(n) else None
    case JsNumber(x) => if x == x.Floor as real && 0 < x.Floor <= MAX_SAFE_INTEGER then Some(x.Floor) else None
    case DigitText(s) =>
      if s != "" && Decimals.AllDigits(s) && s[0] != '0' then Some(Decimals.Value(s)) else None
  }

  /** Whole cents of a positive USD amount. */
  function DecimalMinorAmount(scaled: int, currency: string): Option<int> {
    if NormalizedCurrency(currency) != USD || scaled <= 0 || scaled % Decimals.CENT != 0 then None
    else Some(scaled / Decimals.CENT)
  }

  function DestinationOf(e: Execution): int {
    e.destinationAmount.GetOr(e.amount)
  }

  // ---------------------------------------------------------------- the route

  function ProviderReferenceOf(e: Execution): Option<string> {
    if e.provider.name == STRIPE_CONNECT || e.providerPayoutId.Some? then e.providerPayoutId else e.providerExecutionId
  }

  function CheckRoute(e: Execution, w: Withdrawal, input: Input, modeOk: bool): Result<(), Code> {
    if e.withdrawal != input.withdrawal then Err(EXECUTION_WITHDRAWAL_MISMATCH)
    else if input.evidence.ManualBank?
            && (!Present(w.publicReference) || w.publicReference != Some(input.evidence.withdrawalReference))
    then Err(WITHDRAWAL_REFERENCE_MISMATCH)
    else if e.provider.name != input.providerName then Err(PROVIDER_MISMATCH)
    else if e.provider.name == STRIPE_CONNECT && !modeOk then Err(PROVIDER_MODE_MISMATCH)
    else if e.provider.name != STRIPE_CONNECT && e.livemode.Some? then Err(PROVIDER_MODE_MISMATCH)
    else Ok(())
  }

  // ---------------------------------------------------------------- the evidence

  /** What the evidence says, read from the input or from the verified inbox row. */
  datatype Facts = Facts(at: Option<int>, amountMinor: Option<int>, currency: Option<string>)

  predicate EnvelopeMatches(e: Execution, v: WebhookEvent) {
    if e.provider.name == STRIPE_CONNECT then
      v.eventType == "payout.paid" && Present(e.destinationAccount) && v.account == e.destinationAccount
      && v.livemode == e.livemode
    else if e.provider.name == WISE then
      v.eventType == "transfers#state-change" && v.account.None? && v.livemode.None? && e.livemode.None?
    else false
  }

  predicate WebhookMatches(e: Execution, v: WebhookEvent, input: Input) {
    && v.provider == input.providerName
    && v.providerStatus == Some("COMPLETED")
    && v.providerExecutionId == Some(EvidenceReference(input))
    && EnvelopeMatches(e, v)
    && (v.status.PROCESSING? || v.status.PROCESSED?)
  }

  function ReadEvidence(db: Payouts, e: Execution, input: Input): Result<Facts, Code> {
    match input.evidence
    case Automated(_, at, amount, currency) =>
      var c := NormalizedCurrency(currency.GetOr(""));
      Ok(Facts(at, NormalizedMinorAmount(amount), if c == "" then None else Some(c)))
    case ManualBank(_, at, _, _) => Ok(Facts(at, None, None))
    case Webhook(eventId, _, _) =>
      if eventId !in db.webhooks || !WebhookMatches(e, db.webhooks[eventId], input) then Err(WEBHOOK_EVIDENCE_MISMATCH)
      else
        var v := db.webhooks[eventId];
        Ok(Facts(Some(v.receivedAt), NormalizedMinorAmount(if v.amountMinor.Some? then BigInteger(v.amountMinor.value) else NoAmount),
                 v.currency))
  }

  function CheckTime(facts: Facts, input: Input, now: int): Result<int, Code> {
    var code := if input.evidence.ManualBank? then MANUAL_EVIDENCE_INVALID else COMPLETION_EVIDENCE_CONFLICT;
    if facts.at.None? then Err(code)
    else if !input.evidence.Webhook? && facts.at.value > now + MANUAL_CLOCK_TOLERANCE_MS then Err(code)
    else Ok(facts.at.value)
  }

  /** An automated source must name the persisted provider object and its exact amount; a manual one a current actor. */
  function CheckAuthority(db: Payouts, e: Execution, facts: Facts, input: Input): Result<(), Code> {
    if input.evidence.ManualBank? then
      if input.evidence.actor !in db.staff then Err(MANUAL_ACTOR_UNAUTHORIZED) else Ok(())
    else
      var reference := EvidenceReference(input);
      if !Present(ProviderReferenceOf(e)) || ProviderReferenceOf(e) != Some(reference) then Err(PROVIDER_REFERENCE_MISMATCH)
      else if input.providerName == STRIPE_CONNECT
              && (!Present(e.providerPayoutId) || !("po_" <= reference) || e.providerTransferId == Some(reference))
      then Err(PROVIDER_REFERENCE_MISMATCH)
      else
        var expected := DecimalMinorAmount(DestinationOf(e), e.destinationCurrency);
        if expected.None? || facts.amountMinor != expected || facts.currency != Some(e.destinationCurrency)
        then Err(PROVIDER_AMOUNT_CURRENCY_MISMATCH)
        else Ok(())
  }

  // ---------------------------------------------------------------- an execution that is completed already

  function CanonicalReference(e: Execution, c: Completion): Option<string> {
    if c.evidenceRef.Some? then c.evidenceRef
    else if ProviderReferenceOf(e).Some? then ProviderReferenceOf(e)
    else e.bankTraceReference
  }

  predicate SameManualEvidence(c: Completion, input: Input, at: int) {
    !input.evidence.ManualBank?
    || (&& c.source.MANUAL_BANK_CONFIRMATION?
        && c.actor == Some(input.evidence.actor)
        && c.evidenceAt == Some(at)
        && c.reason.Some? && Text.Trim(c.reason.value) == Text.Trim(input.evidence.reason))
  }

  /** The completion columns of a row that has none. */
  const NOTHING: Completion := Completion(LEGACY_UNVERIFIED, None, None, 0, None, None, None, None)

  function Recognise(e: Execution, w: Withdrawal, input: Input, at: int): Result<bool, Code> {
    var c := e.completion.GetOr(NOTHING);
    if !w.status.COMPLETED? then Err(COMPLETION_STATE_MISMATCH)
    else if CanonicalReference(e, c) != Some(EvidenceReference(input)) || !SameManualEvidence(c, input, at)
    then Err(COMPLETION_EVIDENCE_CONFLICT)
    else Ok(c.source == SourceOf(input.evidence)
            && (!input.evidence.Webhook? || c.webhookEvent == Some(input.evidence.eventId)))
  }

  // ---------------------------------------------------------------- an execution that may complete

  predicate StageAllows(stage: Stage, input: Input) {
    if input.evidence.ManualBank? then stage.PROVIDER_SENT?
    else if input.providerName == STRIPE_CONNECT then
      stage in {BANK_PAID, BANK_PAYOUT_CREATED, BANK_PAYOUT_PENDING, BANK_PAYOUT_RECOVERY_REQUIRED,
                PROVIDER_COMPLETION_RECOVERY_REQUIRED}
    else stage in {PROVIDER_SENT, PROVIDER_OUTCOME_UNKNOWN, PROVIDER_COMPLETION_RECOVERY_REQUIRED}
  }

  function CheckState(e: Execution, w: Withdrawal, input: Input): Result<(), Code> {
    if e.stage.CANCEL_REQUESTED? then Err(CANCELLATION_IN_PROGRESS)
    else if !(e.status.PROCESSING? || e.status.FAILED?) then Err(INVALID_LOCAL_STATE)
    else if !(w.status.PROCESSING? || w.status.FAILED?) then Err(INVALID_LOCAL_STATE)
    else if !StageAllows(e.stage, input) then Err(INVALID_PROVIDER_STAGE)
    else Ok(())
  }

  predicate AmountsAgree(e: Execution, w: Withdrawal) {
    && w.currency == USD && e.sourceCurrency == USD && e.destinationCurrency == USD
    && e.amount == w.amount
    && DestinationOf(e) == w.netAmount.GetOr(w.amount)
  }

  /** Unreleased allocations, all positive and in the currency of the withdrawal, add up to exactly its amount. */
  predicate Covered(w: Withdrawal) {
    var active := Active(w.allocations);
    && active != []
    && Total(active) == w.amount
    && AllSound(active, w.currency)
  }

  predicate ManualEvidenceValid(e: Execution, w: Withdrawal, input: Input, at: int, now: int)
    requires input.evidence.ManualBank?
  {
    var reason := Text.Trim(input.evidence.reason);
    && input.providerName == MANUAL
    && input.evidence.actor != ""
    && |EvidenceReference(input)| >= 6
    && w.approvedAt.Some?
    && Present(e.providerExecutionId)
    && e.createdAt - MANUAL_CLOCK_TOLERANCE_MS <= at <= now + MANUAL_CLOCK_TOLERANCE_MS
    && 10 <= |reason| <= 2000
  }

  /** The checker is none of the people who requested, approved and initiated the payout, who are all known. */
  predicate FourEyes(e: Execution, w: Withdrawal, actor: Id) {
    && Present(w.requestedBy) && Present(w.approvedBy) && Present(e.initiatedBy)
    && w.requestedBy != Some(actor) && w.approvedBy != Some(actor) && e.initiatedBy != Some(actor)
  }

  function CheckParties(e: Execution, w: Withdrawal, input: Input, at: int, now: int): Result<(), Code> {
    if input.evidence.ManualBank? then
      if !ManualEvidenceValid(e, w, input, at, now) then Err(MANUAL_EVIDENCE_INVALID)
      else if !FourEyes(e, w, input.evidence.actor) then Err(MAKER_CHECKER_VIOLATION)
      else Ok(())
    else if input.providerName == MANUAL then Err(PROVIDER_MISMATCH)
    else Ok(())
  }

  predicate Competing(executions: seq<Execution>, k: nat, withdrawal: nat) {
    exists j :: 0 <= j < |executions| && j != k && executions[j].withdrawal == withdrawal && MovesMoney(executions[j].status)
  }

  predicate UsedBy(other: Execution, provider: Id, reference: string, manual: bool) {
    && other.provider.id == provider
    && ((other.completion.Some? && other.completion.value.evidenceRef == Some(reference))
        || (manual && other.bankTraceReference == Some(reference)))
  }

  predicate Reused(executions: seq<Execution>, k: nat, provider: Id, reference: string, manual: bool) {
    exists j :: 0 <= j < |executions| && j != k && UsedBy(executions[j], provider, reference, manual)
  }

  function CheckCompletable(db: Payouts, e: Execution, w: Withdrawal, input: Input, at: int, now: int): Result<(), Code> {
    var _ :- CheckState(e, w, input);
    if !AmountsAgree(e, w) then Err(AMOUNT_CURRENCY_MISMATCH)
    else if !Covered(w) then Err(RESERVATION_MISMATCH)
    else
      var _ :- CheckParties(e, w, input, at, now);
      if Competing(db.executions, input.execution, input.withdrawal) then Err(COMPETING_EXECUTION)
      else if Reused(db.executions, input.execution, e.provider.id, EvidenceReference(input), input.evidence.ManualBank?)
      then Err(EVIDENCE_ALREADY_USED)
      else Ok(())
  }

  // ---------------------------------------------------------------- the decision

  datatype Decision = Recognised(exact: bool) | Complete(at: int, amountMinor: Option<int>)

  function Decide(db: Payouts, input: Input, now: int, modeOk: bool): Result<Decision, Code> {
    if input.withdrawal >= |db.withdrawals| then Err(WITHDRAWAL_NOT_FOUND)
    else if input.execution >= |db.executions| then Err(EXECUTION_NOT_FOUND)
    else
      var e, w := db.executions[input.execution], db.withdrawals[input.withdrawal];
      var _ :- CheckRoute(e, w, input, modeOk);
      var facts :- ReadEvidence(db, e, input);
      var at :- CheckTime(facts, input, now);
      var _ :- CheckAuthority(db, e, facts, input);
      if e.status.COMPLETED? then
        var exact :- Recognise(e, w, input, at);
        Ok(Recognised(exact))
      else
        var _ :- CheckCompletable(db, e, w, input, at, now);
        Ok(Complete(at, facts.amountMinor))
  }

  // ---------------------------------------------------------------- the writes

  predicate OwnsLease(db: Payouts, evidence: Evidence) {
    evidence.Webhook? ==>
      && evidence.eventId in db.webhooks
      && db.webhooks[evidence.eventId].status.PROCESSING?
      && evidence.attempt > 0 && db.webhooks[evidence.eventId].attempts == evidence.attempt
      && evidence.lockedAt.Some? && db.webhooks[evidence.eventId].lockedAt == evidence.lockedAt
  }

  /** Ends the lease of a webhook; other sources have none. */
  function Terminal(db: Payouts, evidence: Evidence, status: WebhookStatus, now: int, error: Option<Note>): Payouts
    requires OwnsLease(db, evidence)
  {
    if !evidence.Webhook? then db
    else
      var v := db.webhooks[evidence.eventId];
      db.(webhooks := db.webhooks[evidence.eventId := v.(status := status, lockedAt := None, processedAt := Some(now),
                                                         lastError := error)])
  }

  function CompletedExecution(e: Execution, input: Input, at: int, amountMinor: Option<int>, now: int): Execution {
    var manual := input.evidence.ManualBank?;
    var reference := EvidenceReference(input);
    var c := Completion(SourceOf(input.evidence), Some(reference), Some(at), if at > now then at else now,
                        if manual then Some(input.evidence.actor) else None,
                        if input.evidence.Webhook? then Some(input.evidence.eventId) else None,
                        if manual then None else amountMinor,
                        if manual then Some(Text.Trim(input.evidence.reason)) else None);
    e.(status := ExecutionStatus.COMPLETED,
       stage := if manual then MANUAL_CONFIRMED else if input.providerName == STRIPE_CONNECT then BANK_PAID else e.stage,
       bankTraceReference := if manual then Some(reference) else e.bankTraceReference,
       acceptedReference := if manual then Some(reference) else e.acceptedReference,
       fee := input.fee.GetOr(e.fee),
       completion := Some(c),
       version := e.version + 1)
  }

  /** The three rows that a completion writes together. */
  function Applied(db: Payouts, input: Input, e': Execution): Payouts
    requires input.withdrawal < |db.withdrawals| && input.execution < |db.executions|
    requires db.withdrawals[input.withdrawal].publisher in db.balances
  {
    var w := db.withdrawals[input.withdrawal];
    var b := db.balances[w.publisher];
    db.(executions := db.executions[input.execution := e'],
        withdrawals := db.withdrawals[input.withdrawal := w.(status := WithdrawalStatus.COMPLETED, version := w.version + 1)],
        balances := db.balances[w.publisher := Balance(b.lifetimePaid + w.amount, b.version + 1)])
  }

  function Finish(db: Payouts, input: Input, at: int, amountMinor: Option<int>, now: int): Result<(Payouts, Reply), Fault>
    requires OwnsLease(db, input.evidence)
    requires input.withdrawal < |db.withdrawals| && input.execution < |db.executions|
  {
    var e, w := db.executions[input.execution], db.withdrawals[input.withdrawal];
    if w.publisher !in db.balances then Err(BALANCE_MISSING)
    else if e.completion.Some? then Err(EXECUTION_CHANGED)
    else
      var e' := CompletedExecution(e, input, at, amountMinor, now);
      if Violates(db.executions, input.execution, e') then Err(UNIQUE_VIOLATION)
      else
        var completedAt := if at > now then at else now;
        Ok((Terminal(Applied(db, input, e'), input.evidence, WebhookStatus.PROCESSED, completedAt, None), Done(Completed, true)))
  }

  /** A refused webhook is quarantined with the reason; the money rows are not touched. */
  function Refuse(db: Payouts, evidence: Evidence, code: Code, now: int): (Payouts, Reply)
    requires OwnsLease(db, evidence)
  {
    (Terminal(db, evidence, WebhookStatus.QUARANTINED, now, Some(ConflictNote(code))), Conflict(code))
  }

  /** What one transaction of the finalizer commits, or the fault that rolls it back. */
  function Finalize(db: Payouts, input: Input, now: int, modeOk: bool): Result<(Payouts, Reply), Fault> {
    if !OwnsLease(db, input.evidence) then Ok((db, Conflict(WEBHOOK_LEASE_LOST)))
    else
      var d := Decide(db, input, now, modeOk);
      if d.Err? then Ok(Refuse(db, input.evidence, d.error, now))
      else if d.value.Complete? then Finish(db, input, d.value.at, d.value.amountMinor, now)
      else if d.value.exact then
        Ok((Terminal(db, input.evidence, WebhookStatus.PROCESSED, now, None), Done(Replayed, false)))
      else
        Ok((Terminal(db, input.evidence, WebhookStatus.IGNORED, now, Some(CorroboratesExistingCompletion)),
            Done(Corroborated, false)))
  }

  /** After a unique violation the event is quarantined in a transaction of its own, if its lease is still held. */
  function AuditCollision(db: Payouts, evidence: Evidence, now: int): Payouts {
    if !OwnsLease(db, evidence) then db else Refuse(db, evidence, EVIDENCE_ALREADY_USED, now).0
  }
}
