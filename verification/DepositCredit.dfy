/**
 The canonical deposit credit: a signed webhook and an authenticated provider
 retrieval both enter this transition, and one wallet credit may come out of it.
 */
module DepositCredit {
  import opened Outcomes
  import opened DepositStatus
  import opened WalletState
  import Text

  datatype Fault =
    | AUTHORITY_MISSING
    | AUTHORITY_LEASE_LOST
    | AUTHORITY_EVIDENCE_MISMATCH
    | DEPOSIT_ATTEMPT_NOT_FOUND
    | DEPOSIT_ATTEMPT_EVIDENCE_MISMATCH
    | DEPOSIT_ATTEMPT_STATE_MISMATCH
    | DEPOSIT_PROVIDER_STATE_NOT_PAID
    | DEPOSIT_PROVIDER_EVIDENCE_CONTRADICTION
    | DEPOSIT_WALLET_CURRENCY_MISMATCH
    | DEPOSIT_IDEMPOTENCY_COLLISION
    | STRIPE_MODE
    | CONCURRENT_CHANGE
    | ROW_MISSING
    | LOST_RACE

  datatype Lease =
    | Leased(attempts: nat, lockedAt: int)
    | Seen(status: InboxStatus, attempts: nat, lock: Option<int>, processedAt: Option<int>)

  datatype Authority =
    | WebhookEvent(eventId: Id, lease: Lease)
    | ByRecovery(recoveryId: Id, evidenceId: Id, attempts: nat, lockedAt: int)

  datatype Outcome = Outcome(depositAttemptId: Id, walletId: Id, ledgerTransactionId: nat, credited: bool)

  // ---------------------------------------------------------------- provider facts

  predicate Required(text: string, max: nat) {
    0 < |Text.Trim(text)| <= max
  }

  predicate RetrievalFactsAgree(f: CreditFacts) {
    && f.chargeId.Some? && f.chargeId.value != ""
    && f.intentStatus == Some("succeeded")
    && f.intentAmount == Some(f.checkoutAmount)
    && f.intentReceived == Some(f.checkoutAmount)
    && f.intentCurrency == Some("usd")
    && f.intentLivemode == Some(f.checkoutLivemode)
    && f.paymentMetadataAttemptId == Some(f.metadataAttemptId)
    && f.paymentMetadataReference == Some(f.metadataReference)
    && f.paymentMetadataWalletId == Some(f.metadataWalletId)
    && f.chargePaid == Some(true)
    && f.chargeCaptured == Some(true)
    && f.chargeRefunded == Some(false)
    && f.chargeAmount == Some(f.checkoutAmount)
    && f.chargeAmountCaptured == Some(f.checkoutAmount)
    && f.chargeCurrency == Some("usd")
    && f.chargeLivemode == Some(f.checkoutLivemode)
  }

  function CheckProviderFacts(f: CreditFacts): Result<(), Fault> {
    if !(Required(f.sessionId, 191) && Required(f.paymentId, 191) && Required(f.clientReferenceId, 191)
         && Required(f.metadataAttemptId, 191) && Required(f.metadataReference, 32)
         && Required(f.metadataWalletId, 191) && Required(f.metadataUserId, 191)) then
      Err(DEPOSIT_PROVIDER_EVIDENCE_CONTRADICTION)
    else if f.provider != STRIPE || f.checkoutStatus != "complete" || f.checkoutPaymentStatus != "paid"
            || f.checkoutMode != "payment" || f.checkoutAmount <= 0 || f.checkoutCurrency != "usd" then
      Err(if f.checkoutPaymentStatus == "paid" then DEPOSIT_PROVIDER_EVIDENCE_CONTRADICTION
          else DEPOSIT_PROVIDER_STATE_NOT_PAID)
    else if f.source.AUTHENTICATED_PROVIDER_RETRIEVAL? && !RetrievalFactsAgree(f) then
      Err(DEPOSIT_PROVIDER_EVIDENCE_CONTRADICTION)
    else Ok(())
  }

  // ---------------------------------------------------------------- authority

  predicate OwnsLease(e: ProviderEvent, lease: Lease) {
    match lease
    case Leased(attempts, lockedAt) => e.status == CLAIMED && e.attempts == attempts && e.lockedAt == Some(lockedAt)
    case Seen(status, attempts, lock, processedAt) =>
      e.status == status && e.attempts == attempts && e.lockedAt == lock && e.processedAt == processedAt
  }

  function CheckAuthority(db: Database, authority: Authority, f: CreditFacts): Result<(), Fault> {
    match authority
    case WebhookEvent(eventId, lease) =>
      if eventId !in db.events then Err(AUTHORITY_MISSING)
      else
        var e := db.events[eventId];
        var exact := e.provider == f.provider && e.objectId == f.sessionId && e.livemode == f.checkoutLivemode
                     && (e.eventType.CheckoutCompleted? || e.eventType.CheckoutAsyncPaymentSucceeded?);
        if !OwnsLease(e, lease) then Err(AUTHORITY_LEASE_LOST)
        else if !exact then Err(AUTHORITY_EVIDENCE_MISMATCH)
        else Ok(())
    case ByRecovery(recoveryId, evidenceId, attempts, lockedAt) =>
      if recoveryId !in db.recoveries then Err(AUTHORITY_MISSING)
      else
        var r := db.recoveries[recoveryId];
        if r.status != CLAIMED || r.attempts != attempts || r.lockedAt != Some(lockedAt) then Err(AUTHORITY_LEASE_LOST)
        else if evidenceId !in db.evidence then Err(AUTHORITY_EVIDENCE_MISMATCH)
        else
          var v := db.evidence[evidenceId];
          if v.recoveryId != recoveryId || v.depositAttemptId != r.depositAttemptId || v.claimAttempt != attempts
             || v.claimLockedAt != lockedAt || !v.facts.source.AUTHENTICATED_PROVIDER_RETRIEVAL?
             || v.facts != f || v.fingerprint != v.facts then Err(AUTHORITY_EVIDENCE_MISMATCH)
          else Ok(())
  }

  /** Consumes the lease, or confirms that an already processed event names this attempt. */
  function CompleteAuthority(db: Database, authority: Authority, attemptId: Id, now: int): Result<Database, Fault> {
    match authority
    case WebhookEvent(eventId, Seen(status, _, _, _)) =>
      if status != PROCESSED || eventId !in db.events || db.events[eventId].depositAttemptId != Some(attemptId)
      then Err(AUTHORITY_EVIDENCE_MISMATCH) else Ok(db)
    case WebhookEvent(eventId, Leased(attempts, lockedAt)) =>
      if eventId !in db.events || !OwnsLease(db.events[eventId], authority.lease) then Err(LOST_RACE)
      else
        var e := db.events[eventId].(status := PROCESSED, processedAt := Some(now), lockedAt := None,
                                     depositAttemptId := Some(attemptId));
        Ok(db.(events := db.events[eventId := e]))
    case ByRecovery(recoveryId, evidenceId, attempts, lockedAt) =>
      if recoveryId !in db.recoveries then Err(LOST_RACE)
      else
        var r := db.recoveries[recoveryId];
        if r.depositAttemptId != attemptId || r.status != CLAIMED || r.attempts != attempts
           || r.lockedAt != Some(lockedAt) || r.evidenceId.Some? then Err(LOST_RACE)
        else
          var r' := r.(status := PROCESSED, lockedAt := None, evidenceId := Some(evidenceId));
          Ok(db.(recoveries := db.recoveries[recoveryId := r']))
  }

  // ---------------------------------------------------------------- the attempt

  predicate AttemptExact(id: Id, a: DepositAttempt, f: CreditFacts) {
    && a.provider == STRIPE
    && a.providerSessionId == Some(f.sessionId)
    && (a.providerPaymentId.None? || a.providerPaymentId == Some(f.paymentId))
    && (f.source.AUTHENTICATED_PROVIDER_RETRIEVAL? || f.chargeId.Some? ==>
          a.providerChargeId.None? || a.providerChargeId == f.chargeId)
    && f.clientReferenceId == id
    && f.metadataAttemptId == id
    && f.metadataReference == a.publicReference
    && f.metadataWalletId == a.walletId
    && f.metadataUserId == a.createdByUserId
    && (if f.metadataOrgId == Some("") then None else f.metadataOrgId) == a.organizationId
    && a.currency == USD
    && a.amount == f.checkoutAmount
    && a.walletCredit == f.checkoutAmount
    && a.customerFee == 0
  }

  /** The attempts that the facts name, by id or by checkout session. */
  function Candidates(db: Database, f: CreditFacts): set<Id> {
    set id | id in db.attempts && (id == f.metadataAttemptId || db.attempts[id].providerSessionId == Some(f.sessionId))
  }

  function FindExactAttempt(db: Database, f: CreditFacts): Result<Id, Fault> {
    var found := Candidates(db, f);
    if found == {} then Err(DEPOSIT_ATTEMPT_NOT_FOUND)
    // One candidate with another id fails the exact comparison with the same fault.
    else if found != {f.metadataAttemptId} then Err(DEPOSIT_ATTEMPT_EVIDENCE_MISMATCH)
    else if !AttemptExact(f.metadataAttemptId, db.attempts[f.metadataAttemptId], f)
    then Err(DEPOSIT_ATTEMPT_EVIDENCE_MISMATCH)
    else Ok(f.metadataAttemptId)
  }

  /** The ledger rows that already carry this checkout session or this payment. */
  function Replays(rows: seq<Transaction>, f: CreditFacts): set<nat> {
    set i: nat | i < |rows| && (rows[i].reference == TextReference(f.sessionId)
                                || (rows[i].provider == Some(STRIPE) && rows[i].providerRef == Some(f.paymentId)))
  }

  function ExactLedgerReplay(db: Database, a: DepositAttempt, f: CreditFacts): Result<Option<nat>, Fault> {
    var found := Replays(db.ledger, f);
    if found == {} then Ok(None)
    // More than one row, or one row that the attempt does not own, is the same collision.
    else if a.ledgerTransactionId.None? || found != {a.ledgerTransactionId.value} then Err(DEPOSIT_IDEMPOTENCY_COLLISION)
    else
      var i := a.ledgerTransactionId.value;
      assert i in found;
      var row := db.ledger[i];
      if !row.kind.DEPOSIT? || row.reference != TextReference(f.sessionId) || row.provider != Some(STRIPE)
         || row.providerRef != Some(f.paymentId) || row.walletId != a.walletId || row.currency != USD
         || row.amount != f.checkoutAmount || !CreditBacked(a.status)
      then Err(DEPOSIT_IDEMPOTENCY_COLLISION)
      else Ok(Some(i))
  }

  // ---------------------------------------------------------------- the transition

  function DepositRow(a: DepositAttempt, attemptId: Id, f: CreditFacts): Transaction {
    Transaction(a.walletId, f.checkoutAmount, USD, DEPOSIT, TextReference(f.sessionId), Some(STRIPE),
                Some(f.paymentId), Some(attemptId), DepositOf(a.publicReference))
  }

  /** The credited state before the authority is completed: one ledger row, one wallet increment, one linked attempt. */
  function Credited(db: Database, attemptId: Id, f: CreditFacts): Database
    requires attemptId in db.attempts
  {
    var a := db.attempts[attemptId];
    var w := WalletOf(db, a.walletId);
    var a' := a.(status := SUCCEEDED, providerPaymentId := Some(f.paymentId), providerChargeId := f.chargeId,
                 ledgerTransactionId := Some(|db.ledger|));
    db.(ledger := db.ledger + [DepositRow(a, attemptId, f)],
        wallets := db.wallets[a.walletId := w.(available := w.available + f.checkoutAmount, version := w.version + 1)],
        attempts := db.attempts[attemptId := a'])
  }

  /** What one transaction of the finalizer commits, or the fault that rolls it back. */
  function Finalize(db: Database, authority: Authority, f: CreditFacts, now: int, modeOk: bool)
    : Result<(Database, Outcome), Fault>
  {
    var _ :- CheckProviderFacts(f);
    var _ :- CheckAuthority(db, authority, f);
    var id :- FindExactAttempt(db, f);
    var a := db.attempts[id];
    if authority.ByRecovery? && db.recoveries[authority.recoveryId].depositAttemptId != id then
      Err(AUTHORITY_EVIDENCE_MISMATCH)
    else if !modeOk then Err(STRIPE_MODE)
    else if a.walletId !in db.wallets then Err(ROW_MISSING)
    else if db.wallets[a.walletId].currency != USD then Err(DEPOSIT_WALLET_CURRENCY_MISMATCH)
    else
      var replay :- ExactLedgerReplay(db, a, f);
      if replay.Some? then
        var done :- CompleteAuthority(db, authority, id, now);
        Ok((done, Outcome(id, a.walletId, replay.value, false)))
      else if !CreditablePreCredit(a.status) || a.ledgerTransactionId.Some? then Err(DEPOSIT_ATTEMPT_STATE_MISMATCH)
      else
        var done :- CompleteAuthority(Credited(db, id, f), authority, id, now);
        Ok((done, Outcome(id, a.walletId, |db.ledger|, true)))
  }
}
