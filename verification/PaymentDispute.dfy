/**
 The canonical payment-dispute transition. A leased provider event opens or closes
 a case, in either order of arrival, and moves the disputed money once.
 */
module PaymentDisputes {
  import opened Outcomes
  import opened DepositStatus
  import opened WalletState
  import Text

  datatype Fault =
    | EVENT_EVIDENCE_MISSING
    | EVENT_ENVELOPE_MISMATCH
    | DEPOSIT_NOT_LINKED
    | DEPOSIT_EVIDENCE_MISMATCH
    | DISPUTE_IDENTITY_REUSED
    | CUMULATIVE_AMOUNT_EXCEEDED
    | WALLET_CURRENCY_MISMATCH
    | WALLET_NEGATIVE
    | HOLD_MISSING
    | TERMINAL_CONTRADICTION
    | STRIPE_MODE
    | CONCURRENT_CHANGE
    | ROW_MISSING
    | UNIQUE_VIOLATION
    | LOST_RACE

  /** One leased delivery of a dispute event. */
  datatype Input = Input(eventId: Id, claimAttempt: nat, claimLockedAt: int, facts: Envelope, fingerprint: Envelope)

  datatype Outcome = Outcome(
    status: DisputeStatus, held: int, exposure: int, walletId: Id, caseId: nat, created: bool, resolved: bool)

  /** The deposit a dispute is about: its ledger row and the attempt that row credited. */
  datatype LinkedDeposit = LinkedDeposit(row: nat, attemptId: Id)

  const OPEN_PROVIDER_STATUSES: set<string> :=
    {"needs_response", "under_review", "warning_needs_response", "warning_under_review"}

  function TargetStatus(facts: Envelope): Result<DisputeStatus, Fault> {
    if facts.eventType.DisputeCreated? then
      if facts.providerStatus in OPEN_PROVIDER_STATUSES then Ok(OPEN) else Err(EVENT_ENVELOPE_MISMATCH)
    else if facts.providerStatus in {"won", "prevented", "warning_closed"} then Ok(WON)
    else if facts.providerStatus == "lost" then Ok(LOST)
    else Err(EVENT_ENVELOPE_MISMATCH)
  }

  /** The normalised dispute columns of an inbox row, when they are all there. */
  function StoredFacts(e: ProviderEvent): Option<Envelope> {
    if e.paymentId.Some? && e.amountMinor.Some? && e.currency.Some? && e.providerStatus.Some? then
      Some(Envelope(e.providerEventId, e.eventType, e.objectId, e.paymentId.value, e.chargeId,
                    e.amountMinor.value, e.currency.value, e.providerStatus.value, e.livemode))
    else None
  }

  /** Rebuilds the input of a claimed inbox row. */
  function InputFromStoredRow(eventId: Id, e: ProviderEvent): Result<Input, Fault> {
    var facts := StoredFacts(e);
    if e.provider != STRIPE || !(e.eventType.DisputeCreated? || e.eventType.DisputeClosed?) || facts.None?
       || facts.value.currency != USD || e.fingerprint.None? || e.attempts == 0 || e.lockedAt.None?
    then Err(EVENT_EVIDENCE_MISSING)
    else if facts.value.amountMinor <= 0 then Err(EVENT_ENVELOPE_MISMATCH)
    else
      var _ :- TargetStatus(facts.value);
      if e.fingerprint.value != facts.value then Err(EVENT_ENVELOPE_MISMATCH)
      else Ok(Input(eventId, e.attempts, e.lockedAt.value, facts.value, e.fingerprint.value))
  }

  /** The caller still owns the lease, and the row still holds exactly the facts of the input. */
  predicate EventExact(e: ProviderEvent, input: Input) {
    && e.status == CLAIMED
    && e.attempts == input.claimAttempt
    && e.lockedAt == Some(input.claimLockedAt)
    && e.provider == STRIPE
    && StoredFacts(e) == Some(input.facts)
    && e.fingerprint == Some(input.fingerprint)
  }

  predicate DepositFor(row: Transaction, paymentId: Id) {
    row.provider == Some(STRIPE) && row.providerRef == Some(paymentId) && row.kind.DEPOSIT?
  }

  function FindDeposit(rows: seq<Transaction>, paymentId: Id): (found: Option<nat>)
    ensures found.Some? ==> found.value < |rows| && DepositFor(rows[found.value], paymentId)
    ensures found.None? ==> forall i :: 0 <= i < |rows| ==> !DepositFor(rows[i], paymentId)
  {
    if rows == [] then None
    else if DepositFor(rows[|rows| - 1], paymentId) then Some(|rows| - 1)
    else FindDeposit(rows[..|rows| - 1], paymentId)
  }

  predicate DepositExact(row: Transaction, rowId: nat, a: DepositAttempt, f: Envelope) {
    && Text.Upper(row.currency) == f.currency
    && Text.Upper(a.currency) == f.currency
    && a.provider == STRIPE
    && a.walletId == row.walletId
    && a.providerPaymentId == Some(f.paymentId)
    && a.ledgerTransactionId == Some(rowId)
    && CreditBacked(a.status)
    && row.amount == a.walletCredit
    && f.amountMinor <= row.amount
  }

  function FindLinkedDeposit(db: Database, f: Envelope): Result<LinkedDeposit, Fault> {
    var found := FindDeposit(db.ledger, f.paymentId);
    if found.None? then Err(DEPOSIT_NOT_LINKED)
    else
      var row := db.ledger[found.value];
      if row.depositAttempt.None? || row.depositAttempt.value !in db.attempts then Err(DEPOSIT_NOT_LINKED)
      else if !DepositExact(row, found.value, db.attempts[row.depositAttempt.value], f)
      then Err(DEPOSIT_EVIDENCE_MISMATCH)
      else Ok(LinkedDeposit(found.value, row.depositAttempt.value))
  }

  lemma LinkedRowExists(db: Database, f: Envelope)
    ensures FindLinkedDeposit(db, f).Ok? ==> FindLinkedDeposit(db, f).value.row < |db.ledger|
  {
  }

  function FindCase(cases: seq<PaymentDispute>, disputeId: Id): (found: Option<nat>)
    ensures found.Some? ==> found.value < |cases| && cases[found.value].disputeId == disputeId
    ensures found.None? ==> forall i :: 0 <= i < |cases| ==> cases[i].disputeId != disputeId
  {
    if cases == [] then None
    else if cases[|cases| - 1].disputeId == disputeId then Some(|cases| - 1)
    else FindCase(cases[..|cases| - 1], disputeId)
  }

  predicate CaseExact(c: PaymentDispute, f: Envelope, db: Database, d: LinkedDeposit)
    requires d.row < |db.ledger|
  {
    && c.disputeId == f.disputeId
    && c.paymentId == f.paymentId
    && c.chargeId == f.chargeId
    && c.depositAttemptId == d.attemptId
    && c.depositTransactionId == d.row
    && c.walletId == db.ledger[d.row].walletId
    && c.amount == f.amountMinor
    && Text.Upper(c.currency) == f.currency
  }

  // ---------------------------------------------------------------- completing the event

  /** The customer-visible status of a credited deposit is a view of its cases; a refund view is kept. */
  function Projection(current: Status, cases: seq<PaymentDispute>, attemptId: Id): Status {
    if RefundProjected(current) then current
    else if exists i :: 0 <= i < |cases| && cases[i].depositAttemptId == attemptId && cases[i].status.LOST? then CHARGEBACK
    else if exists i :: 0 <= i < |cases| && cases[i].depositAttemptId == attemptId && cases[i].status.OPEN? then DISPUTED
    else SUCCEEDED
  }

  /** Re-projects the deposit and consumes the lease. */
  function CompleteEvent(db: Database, attemptId: Id, caseId: nat, input: Input, now: int): Result<Database, Fault> {
    if attemptId !in db.attempts then Err(ROW_MISSING)
    else
      var a := db.attempts[attemptId];
      var a' := a.(status := Projection(a.status, db.cases, attemptId));
      if input.eventId !in db.events then Err(LOST_RACE)
      else
        var e := db.events[input.eventId];
        if e.status != CLAIMED || e.attempts != input.claimAttempt || e.lockedAt != Some(input.claimLockedAt)
           || !(e.caseId.None? || e.caseId == Some(caseId)) then Err(LOST_RACE)
        else
          var e' := e.(status := PROCESSED, processedAt := Some(now), lockedAt := None,
                       depositAttemptId := Some(attemptId), caseId := Some(caseId));
          Ok(db.(attempts := db.attempts[attemptId := a'], events := db.events[input.eventId := e']))
  }

  // ---------------------------------------------------------------- the writes of each branch

  function MoveMoney(db: Database, walletId: Id, available: int, reserved: int): (r: Database)
    ensures r == db.(wallets := r.wallets) && r.wallets.Keys == db.wallets.Keys + {walletId}
  {
    var w := WalletOf(db, walletId);
    db.(wallets := db.wallets[walletId := w.(available := w.available + available,
                                             reserved := w.reserved + reserved, version := w.version + 1)])
  }

  function DisputeRow(walletId: Id, amount: int, kind: TransactionType, f: Envelope, phase: Phase): Transaction {
    Transaction(walletId, amount, f.currency, kind, DisputeReference(f.disputeId, phase), None, None, None,
                DisputeMovement(f.disputeId, phase))
  }

  /** A late opening event only attaches its evidence. */
  function AttachOpening(db: Database, k: nat, eventId: Id): Database
    requires k < |db.cases|
  {
    var c := db.cases[k];
    if c.openedBy.Some? then db
    else db.(cases := db.cases[k := c.(openedBy := Some(eventId), version := c.version + 1)])
  }

  /** Closes an open case: the hold goes back to the customer or leaves the platform. */
  function ResolveOpen(db: Database, k: nat, desired: DisputeStatus, input: Input): Result<Database, Fault>
    requires k < |db.cases|
  {
    var c := db.cases[k];
    if c.walletId !in db.wallets then Err(ROW_MISSING)
    else
      var w := db.wallets[c.walletId];
      if Text.Upper(w.currency) != input.facts.currency then Err(WALLET_CURRENCY_MISMATCH)
      else if c.held > 0 && w.reserved < c.held then Err(HOLD_MISSING)
      else if c.resolutionTransactionId.Some? then Err(LOST_RACE)
      else
        var row := if desired.WON? then DisputeRow(c.walletId, c.held, RESERVATION_ENTRY, input.facts, WonPhase)
                   else DisputeRow(c.walletId, -c.held, CHARGEBACK_ENTRY, input.facts, LostPhase);
        if c.held > 0 && Collides(db.ledger, row) then Err(UNIQUE_VIOLATION)
        else
          var c' := c.(status := desired, providerStatus := input.facts.providerStatus, resolvedBy := Some(input.eventId),
                       resolutionTransactionId := if c.held > 0 then Some(|db.ledger|) else None,
                       exposure := if desired.WON? then 0 else c.shortfall, version := c.version + 1);
          var db1 := if c.held > 0
                     then MoveMoney(db, c.walletId, if desired.WON? then c.held else 0, -c.held).(ledger := db.ledger + [row])
                     else db;
          Ok(db1.(cases := db.cases[k := c']))
  }

  function HeldFor(desired: DisputeStatus, available: int, amount: int): int {
    if desired.WON? then 0 else if available < amount then available else amount
  }

  /** The case a first event books: held money is taken from what is available, the rest is shortfall. */
  function NewCase(db: Database, d: LinkedDeposit, desired: DisputeStatus, input: Input): PaymentDispute
    requires d.row < |db.ledger|
  {
    var f := input.facts;
    var walletId := db.ledger[d.row].walletId;
    var held := HeldFor(desired, WalletOf(db, walletId).available, f.amountMinor);
    var row := if held > 0 then Some(|db.ledger|) else None;
    PaymentDispute(f.disputeId, f.paymentId, f.chargeId, d.attemptId, d.row, walletId, f.amountMinor, f.currency,
                   held, f.amountMinor - held, if desired.WON? then 0 else f.amountMinor - held, desired, f.providerStatus,
                   if desired.OPEN? then Some(input.eventId) else None,
                   if desired.OPEN? then None else Some(input.eventId),
                   if desired.OPEN? then row else None,
                   if desired.OPEN? then None else row, 0)
  }

  function BookCase(db: Database, d: LinkedDeposit, desired: DisputeStatus, input: Input): Result<Database, Fault>
    requires d.row < |db.ledger|
  {
    var f := input.facts;
    var deposit := db.ledger[d.row];
    if CaseSum(DisputedOf(d.row), db.cases) + f.amountMinor > deposit.amount then Err(CUMULATIVE_AMOUNT_EXCEEDED)
    else if deposit.walletId !in db.wallets then Err(ROW_MISSING)
    else
      var w := db.wallets[deposit.walletId];
      if Text.Upper(w.currency) != f.currency then Err(WALLET_CURRENCY_MISMATCH)
      else if w.available < 0 then Err(WALLET_NEGATIVE)
      else
        var c := NewCase(db, d, desired, input);
        var row := if desired.OPEN? then DisputeRow(c.walletId, -c.held, RESERVATION_ENTRY, f, HoldPhase)
                   else DisputeRow(c.walletId, -c.held, CHARGEBACK_ENTRY, f, LostPhase);
        if c.held > 0 && Collides(db.ledger, row) then Err(UNIQUE_VIOLATION)
        else
          var db1 := if c.held > 0
                     then MoveMoney(db, c.walletId, -c.held, if desired.OPEN? then c.held else 0).(ledger := db.ledger + [row])
                     else db;
          Ok(db1.(cases := db.cases + [c]))
  }

  function OutcomeOf(db: Database, k: nat, created: bool, resolved: bool): Outcome
    requires k < |db.cases|
  {
    var c := db.cases[k];
    Outcome(c.status, c.held, c.exposure, c.walletId, k, created, resolved)
  }

  /** The branch that the existing case and the event select, before the event is completed. */
  function Apply(db: Database, d: LinkedDeposit, desired: DisputeStatus, input: Input): (r: Result<(Database, Outcome), Fault>)
    requires d.row < |db.ledger|
    ensures r.Ok? ==> r.value.1.caseId < |r.value.0.cases|
  {
    var existing := FindCase(db.cases, input.facts.disputeId);
    match existing
    case Some(k) =>
      var c := db.cases[k];
      if !CaseExact(c, input.facts, db, d) then Err(DISPUTE_IDENTITY_REUSED)
      else if desired.OPEN? then
        var db1 := AttachOpening(db, k, input.eventId);
        Ok((db1, OutcomeOf(db1, k, false, false)))
      else if !c.status.OPEN? then
        if c.status != desired then Err(TERMINAL_CONTRADICTION)
        else Ok((db, OutcomeOf(db, k, false, false)))
      else
        var db1 :- ResolveOpen(db, k, desired, input);
        Ok((db1, OutcomeOf(db1, k, false, true)))
    case None =>
      var db1 :- BookCase(db, d, desired, input);
      Ok((db1, OutcomeOf(db1, |db.cases|, true, !desired.OPEN?)))
  }

  /** What one transaction of the dispute machine commits, or the fault that rolls it back. */
  function Transition(db: Database, input: Input, now: int, modeOk: bool): Result<(Database, Outcome), Fault> {
    if input.fingerprint != input.facts then Err(EVENT_ENVELOPE_MISMATCH)
    else
      var desired :- TargetStatus(input.facts);
      if input.eventId !in db.events then Err(EVENT_EVIDENCE_MISSING)
      else if !EventExact(db.events[input.eventId], input) then Err(EVENT_ENVELOPE_MISMATCH)
      else
        var d :- FindLinkedDeposit(db, input.facts);
        if !modeOk then Err(STRIPE_MODE)
        else
          var (db1, outcome) :- Apply(db, d, desired, input);
          var done :- CompleteEvent(db1, d.attemptId, outcome.caseId, input, now);
          Ok((done, outcome))
  }
}
