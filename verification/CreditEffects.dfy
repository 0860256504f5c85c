/**
 When a deposit is credited, when its credit is recognised again, and what either writes, all in
 terms of the provider's facts and the columns of the rows.
 */
module CreditEffects {
  import opened Outcomes
  import opened DepositStatus
  import opened WalletState
  import opened WalletInvariant
  import DC = DepositCredit
  import DepositCreditProof
  import Text

  // ---------------------------------------------------------------- what authorises a credit

  ghost predicate Named(text: string, max: nat) {
    Text.Trim(text) != "" && |Text.Trim(text)| <= max
  }

  /**
   The provider says, in every place where it says anything, that this checkout was paid in full, in USD,
   and names everything that a credit needs to know.
   */
  ghost predicate PaidInFull(f: CreditFacts) {
    && Named(f.sessionId, 191) && Named(f.paymentId, 191) && Named(f.clientReferenceId, 191)
    && Named(f.metadataAttemptId, 191) && Named(f.metadataReference, 32)
    && Named(f.metadataWalletId, 191) && Named(f.metadataUserId, 191)
    && f.provider == "stripe" && f.checkoutStatus == "complete" && f.checkoutPaymentStatus == "paid" && f.checkoutMode == "payment"
    && f.checkoutAmount > 0 && f.checkoutCurrency == "usd"
    && (f.source.AUTHENTICATED_PROVIDER_RETRIEVAL? ==>
          && f.intentStatus == Some("succeeded") && f.chargePaid == Some(true) && f.chargeCaptured == Some(true)
          && f.chargeRefunded == Some(false) && f.chargeId.Some? && f.chargeId.value != ""
          && Some(f.checkoutAmount) == f.intentAmount == f.intentReceived == f.chargeAmount == f.chargeAmountCaptured
          && Some("usd") == f.intentCurrency == f.chargeCurrency
          && Some(f.checkoutLivemode) == f.intentLivemode == f.chargeLivemode
          && f.paymentMetadataAttemptId == Some(f.metadataAttemptId) && f.paymentMetadataReference == Some(f.metadataReference)
          && f.paymentMetadataWalletId == Some(f.metadataWalletId))
  }

  /** The facts are those of the attempt: its ids, owner, session and exact amount, at no fee. */
  ghost predicate NamesAttempt(f: CreditFacts, id: Id, a: DepositAttempt) {
    && id == f.metadataAttemptId == f.clientReferenceId
    && a.provider == "stripe" && a.providerSessionId == Some(f.sessionId) && a.publicReference == f.metadataReference
    && a.walletId == f.metadataWalletId && a.createdByUserId == f.metadataUserId
    && (a.organizationId == f.metadataOrgId || (a.organizationId.None? && f.metadataOrgId == Some("")))
    && (f.metadataOrgId == Some("") ==> a.organizationId.None?)
    && a.amount == a.walletCredit == f.checkoutAmount && a.customerFee == 0 && a.currency == "USD"
    && (a.providerPaymentId.Some? ==> a.providerPaymentId == Some(f.paymentId))
    && (a.providerChargeId.Some? && (f.chargeId.Some? || f.source.AUTHENTICATED_PROVIDER_RETRIEVAL?) ==>
          a.providerChargeId == f.chargeId)
  }

  /** A claimed checkout event about this session, or the frozen evidence of a claimed recovery of this attempt. */
  ghost predicate Authorises(db: Database, authority: DC.Authority, f: CreditFacts, id: Id) {
    match authority
    case WebhookEvent(eventId, Leased(attempts, lockedAt)) =>
      && eventId in db.events
      && var e := db.events[eventId];
      && e.status == CLAIMED && e.attempts == attempts && e.lockedAt == Some(lockedAt) && SpeaksOf(e, f)
    case WebhookEvent(_, Seen(_, _, _, _)) => false
    case ByRecovery(recoveryId, evidenceId, attempts, lockedAt) =>
      && recoveryId in db.recoveries && evidenceId in db.evidence
      && var r, v := db.recoveries[recoveryId], db.evidence[evidenceId];
      && r.status == CLAIMED && r.attempts == attempts && r.lockedAt == Some(lockedAt) && r.depositAttemptId == id
      && r.evidenceId.None?
      && v.recoveryId == recoveryId && v.depositAttemptId == id && v.claimAttempt == attempts && v.claimLockedAt == lockedAt
      && v.facts == f == v.fingerprint && f.source.AUTHENTICATED_PROVIDER_RETRIEVAL?
  }

  ghost predicate SpeaksOf(e: ProviderEvent, f: CreditFacts) {
    && e.provider == f.provider && e.objectId == f.sessionId && e.livemode == f.checkoutLivemode
    && (e.eventType.CheckoutCompleted? || e.eventType.CheckoutAsyncPaymentSucceeded?)
  }

  /** The event was processed before, for this very attempt, and nobody has touched it since it was read. */
  ghost predicate ProcessedFor(db: Database, authority: DC.Authority, f: CreditFacts, id: Id) {
    match authority
    case WebhookEvent(eventId, Seen(status, attempts, lock, processedAt)) =>
      && eventId in db.events
      && var e := db.events[eventId];
      && e.status == status == PROCESSED && e.attempts == attempts && e.lockedAt == lock && e.processedAt == processedAt
      && SpeaksOf(e, f) && e.depositAttemptId == Some(id)
    case _ => false
  }

  /** The attempt is there, and so is its wallet, in USD. */
  ghost predicate Payable(db: Database, f: CreditFacts, id: Id) {
    && id in db.attempts && NamesAttempt(f, id, db.attempts[id])
    && db.attempts[id].walletId in db.wallets && db.wallets[db.attempts[id].walletId].currency == "USD"
  }

  /** No ledger row carries the checkout session or the payment. */
  ghost predicate Unused(rows: seq<Transaction>, f: CreditFacts) {
    forall i :: 0 <= i < |rows| ==>
      rows[i].reference != TextReference(f.sessionId)
      && (rows[i].provider != Some("stripe") || rows[i].providerRef != Some(f.paymentId))
  }

  // ---------------------------------------------------------------- the checks say the same

  lemma FactsChecked(f: CreditFacts)
    ensures DC.CheckProviderFacts(f).Ok? <==> PaidInFull(f)
  {
    hide Text.Trim;
  }

  lemma AttemptChecked(f: CreditFacts, id: Id, a: DepositAttempt)
    ensures DC.AttemptExact(id, a, f) <==> NamesAttempt(f, id, a)
  {
  }

  /** In a valid state no other attempt has the session, so the one that is named is the only candidate. */
  lemma AttemptFound(db: Database, f: CreditFacts)
    requires SessionsDistinct(db.attempts)
    ensures DC.FindExactAttempt(db, f).Ok? <==>
              f.metadataAttemptId in db.attempts && NamesAttempt(f, f.metadataAttemptId, db.attempts[f.metadataAttemptId])
    ensures DC.FindExactAttempt(db, f).Ok? ==> DC.FindExactAttempt(db, f).value == f.metadataAttemptId
  {
    var id := f.metadataAttemptId;
    if id in db.attempts {
      AttemptChecked(f, id, db.attempts[id]);
      if NamesAttempt(f, id, db.attempts[id]) {
        assert forall b :: b in DC.Candidates(db, f) <==> b == id;
        assert DC.Candidates(db, f) == {id};
      }
    }
    DepositCreditProof.FoundAttempt(db, f);
  }

  /** Passing the authority's checks and consuming it. `between` differs from `db` in other tables only. */
  lemma AuthorityChecked(db: Database, between: Database, authority: DC.Authority, f: CreditFacts, id: Id, now: int)
    requires f.provider == "stripe" && between.events == db.events && between.recoveries == db.recoveries
    ensures DC.CheckAuthority(db, authority, f).Ok? && DC.CompleteAuthority(between, authority, id, now).Ok?
            && (authority.ByRecovery? ==>
                  && authority.recoveryId in db.recoveries
                  && db.recoveries[authority.recoveryId].depositAttemptId == id)
        <==> Authorises(db, authority, f, id) || ProcessedFor(db, authority, f, id)
    ensures DC.CheckAuthority(db, authority, f).Ok? && authority.ByRecovery? ==> authority.recoveryId in db.recoveries
  {
  }

  /** A credited attempt owns the one row that carries its session and its payment. */
  lemma ReplayFound(db: Database, f: CreditFacts, id: Id)
    requires Valid(db) && id in db.attempts && NamesAttempt(f, id, db.attempts[id])
    ensures var a := db.attempts[id]; var r := DC.ExactLedgerReplay(db, a, f);
            if CreditBacked(a.status) then a.ledgerTransactionId.Some? && r == Ok(a.ledgerTransactionId)
            else a.ledgerTransactionId.None? && (r == Ok(None) <==> Unused(db.ledger, f)) && (r.Ok? ==> r == Ok(None))
  {
    hide MoneyValid, CasesValid, Projected, EvidenceValid, EventsValid, DisputesBounded, DisputeRowsOwned, DepositsOwned;
    var a := db.attempts[id];
    assert AttemptLinked(id, a, db.ledger);
    StatusesPartition(a.status);
    if CreditBacked(a.status) {
      var i := a.ledgerTransactionId.value;
      forall j | j in DC.Replays(db.ledger, f) ensures j == i {
        SameRow(db.ledger, i, j);
      }
      assert i in DC.Replays(db.ledger, f);
      assert DC.Replays(db.ledger, f) == {i};
    } else {
      UnusedRows(db.ledger, f);
    }
  }

  lemma SameRow(rows: seq<Transaction>, i: nat, j: nat)
    requires RowsDistinct(rows) && i < |rows| && j < |rows|
    requires (rows[i].reference == rows[j].reference && rows[i].reference != NoReference)
             || (rows[i].providerRef == rows[j].providerRef && rows[i].providerRef.Some?)
    ensures i == j
  {
  }

  lemma UnusedRows(rows: seq<Transaction>, f: CreditFacts)
    ensures DC.Replays(rows, f) == {} <==> Unused(rows, f)
  {
    if DC.Replays(rows, f) != {} {
      var i :| i in DC.Replays(rows, f);
    }
    forall i: nat | i < |rows| && (rows[i].reference == TextReference(f.sessionId)
                                   || (rows[i].provider == Some("stripe") && rows[i].providerRef == Some(f.paymentId)))
      ensures i in DC.Replays(rows, f)
    {
    }
  }

  // ---------------------------------------------------------------- exactly when

  /** Somebody may be credited, or have been: the facts, the attempt and its wallet are in order. */
  ghost predicate InOrder(db: Database, f: CreditFacts, modeOk: bool) {
    modeOk && PaidInFull(f) && Payable(db, f, f.metadataAttemptId)
  }

  lemma CommitsWhen(db: Database, authority: DC.Authority, f: CreditFacts, now: int, modeOk: bool)
    requires Valid(db)
    ensures var r := DC.Finalize(db, authority, f, now, modeOk); var id := f.metadataAttemptId;
            r.Ok? <==>
              && InOrder(db, f, modeOk)
              && (Authorises(db, authority, f, id) || ProcessedFor(db, authority, f, id))
              && (CreditBacked(db.attempts[id].status) || Unused(db.ledger, f))
    ensures var r := DC.Finalize(db, authority, f, now, modeOk);
            r.Ok? ==> (r.value.1.credited <==> !CreditBacked(db.attempts[f.metadataAttemptId].status))
                      && r.value.1.depositAttemptId == f.metadataAttemptId
  {
    hide Valid, DC.CheckProviderFacts, DC.CheckAuthority, DC.FindExactAttempt, DC.ExactLedgerReplay, DC.CompleteAuthority,
      PaidInFull, NamesAttempt, Authorises, ProcessedFor, Unused, CreditBacked, CreditablePreCredit;
    var id := f.metadataAttemptId;
    FactsChecked(f);
    assert PaidInFull(f) ==> f.provider == "stripe" by { PaidByStripe(f); }
    assert SessionsDistinct(db.attempts) by { ValidParts(db); }
    AttemptFound(db, f);
    if f.provider == "stripe" {
      AuthorityChecked(db, db, authority, f, id, now);
      if id in db.attempts {
        AuthorityChecked(db, DC.Credited(db, id, f), authority, f, id, now);
        StatusesPartition(db.attempts[id].status);
        if NamesAttempt(f, id, db.attempts[id]) {
          ReplayFound(db, f, id);
        }
      }
    }
  }

  lemma PaidByStripe(f: CreditFacts)
    ensures PaidInFull(f) ==> f.provider == "stripe"
  {
  }

  /** An event that was processed for an attempt has seen it credited. */
  lemma ProcessedIsCredited(db: Database, authority: DC.Authority, f: CreditFacts, id: Id)
    requires Valid(db) && ProcessedFor(db, authority, f, id)
    ensures id in db.attempts && CreditBacked(db.attempts[id].status)
  {
    assert EventLinked(db.events[authority.eventId], db.cases, db.attempts);
  }

  /**
   A deposit is credited exactly when the provider says that it was paid in full, the attempt and its
   wallet are the ones that are named, a claim that is held now says so, the attempt may still be
   credited, and neither its session nor its payment is on the ledger.
   */
  lemma CreditsExactly(db: Database, authority: DC.Authority, f: CreditFacts, now: int, modeOk: bool)
    requires Valid(db)
    ensures DC.Finalize(db, authority, f, now, modeOk).Ok? && DC.Finalize(db, authority, f, now, modeOk).value.1.credited
        <==> && InOrder(db, f, modeOk)
             && Authorises(db, authority, f, f.metadataAttemptId)
             && db.attempts[f.metadataAttemptId].status in {CREATED, PENDING_CUSTOMER_ACTION, PROCESSING, FAILED, EXPIRED}
             && Unused(db.ledger, f)
  {
    hide Valid, DC.Finalize, PaidInFull, NamesAttempt, Authorises, ProcessedFor, Unused;
    CommitsWhen(db, authority, f, now, modeOk);
    var id := f.metadataAttemptId;
    if InOrder(db, f, modeOk) {
      StatusesPartition(db.attempts[id].status);
      if ProcessedFor(db, authority, f, id) {
        ProcessedIsCredited(db, authority, f, id);
      }
    }
  }

  /**
   An earlier credit is recognised exactly when the same facts come again, under a claim that is held now
   or from an event that was processed for this attempt, and the attempt has been credited, whether or
   not it has been refunded, disputed or charged back since.
   */
  lemma ReplaysExactly(db: Database, authority: DC.Authority, f: CreditFacts, now: int, modeOk: bool)
    requires Valid(db)
    ensures DC.Finalize(db, authority, f, now, modeOk).Ok? && !DC.Finalize(db, authority, f, now, modeOk).value.1.credited
        <==> && InOrder(db, f, modeOk)
             && (Authorises(db, authority, f, f.metadataAttemptId) || ProcessedFor(db, authority, f, f.metadataAttemptId))
             && db.attempts[f.metadataAttemptId].status in {SUCCEEDED, PARTIALLY_REFUNDED, REFUNDED, DISPUTED, CHARGEBACK}
  {
    hide Valid, DC.Finalize, PaidInFull, NamesAttempt, Authorises, ProcessedFor, Unused;
    CommitsWhen(db, authority, f, now, modeOk);
  }

  // ---------------------------------------------------------------- what is written

  /** The authority is used up: the event is processed for the attempt, or the recovery with its evidence. */
  ghost predicate UsesUp(db: Database, db': Database, authority: DC.Authority, id: Id, now: int) {
    match authority
    case WebhookEvent(eventId, Leased(_, _)) =>
      && eventId in db.events && db'.recoveries == db.recoveries
      && db'.events == db.events[eventId := db.events[eventId].(status := PROCESSED, processedAt := Some(now), lockedAt := None,
                                                                depositAttemptId := Some(id))]
    case WebhookEvent(_, Seen(_, _, _, _)) => db'.events == db.events && db'.recoveries == db.recoveries
    case ByRecovery(recoveryId, evidenceId, _, _) =>
      && recoveryId in db.recoveries && db'.events == db.events
      && db'.recoveries == db.recoveries[recoveryId := db.recoveries[recoveryId].(status := PROCESSED, lockedAt := None,
                                                                                  evidenceId := Some(evidenceId))]
  }

  ghost predicate RestKept(db: Database, db': Database) {
    && db'.cases == db.cases && db'.evidence == db.evidence && db'.orders == db.orders && db'.reservations == db.reservations
    && db'.assignments == db.assignments && db'.orderEvents == db.orderEvents
  }

  /** One row of exactly the amount, the same amount for the wallet, and the attempt that names both. */
  ghost predicate Pays(db: Database, db': Database, f: CreditFacts, id: Id)
    requires id in db.attempts && db.attempts[id].walletId in db.wallets
  {
    var a, w := db.attempts[id], db.wallets[db.attempts[id].walletId];
    && |db'.ledger| == |db.ledger| + 1 && db'.ledger[..|db.ledger|] == db.ledger
    && var row := db'.ledger[|db.ledger|];
    && row.walletId == a.walletId && row.amount == f.checkoutAmount && row.currency == "USD" && row.kind.DEPOSIT?
    && row.reference == TextReference(f.sessionId) && row.provider == Some("stripe") && row.providerRef == Some(f.paymentId)
    && row.depositAttempt == Some(id)
    && db'.wallets == db.wallets[a.walletId := w.(available := w.available + f.checkoutAmount, version := w.version + 1)]
    && db'.attempts == db.attempts[id := a.(status := SUCCEEDED, providerPaymentId := Some(f.paymentId),
                                            providerChargeId := f.chargeId, ledgerTransactionId := Some(|db.ledger|))]
  }

  lemma AuthorityUsesUp(between: Database, authority: DC.Authority, id: Id, now: int)
    requires DC.CompleteAuthority(between, authority, id, now).Ok?
    ensures var db' := DC.CompleteAuthority(between, authority, id, now).value;
            UsesUp(between, db', authority, id, now) && db' == between.(events := db'.events, recoveries := db'.recoveries)
  {
  }

  lemma CreditPays(db: Database, f: CreditFacts, id: Id)
    requires id in db.attempts && db.attempts[id].walletId in db.wallets
    ensures var between := DC.Credited(db, id, f);
            Pays(db, between, f, id) && RestKept(db, between) && between.events == db.events && between.recoveries == db.recoveries
  {
  }

  /** A credit pays the wallet once, for the attempt; a replay pays nothing. Either uses its authority up. */
  lemma CommitWrites(db: Database, authority: DC.Authority, f: CreditFacts, now: int, modeOk: bool)
    requires Valid(db) && DC.Finalize(db, authority, f, now, modeOk).Ok?
    ensures var (db', o) := DC.Finalize(db, authority, f, now, modeOk).value; var id := f.metadataAttemptId;
            && o.depositAttemptId == id && id in db.attempts && o.walletId == db.attempts[id].walletId && o.walletId in db.wallets
            && UsesUp(db, db', authority, id, now) && RestKept(db, db')
            && (if o.credited then Pays(db, db', f, id) && o.ledgerTransactionId == |db.ledger|
                else db'.ledger == db.ledger && db'.wallets == db.wallets && db'.attempts == db.attempts
                     && db.attempts[id].ledgerTransactionId == Some(o.ledgerTransactionId))
  {
    CommitsWhen(db, authority, f, now, modeOk);
    hide Valid, DC.Finalize, DC.CompleteAuthority, DC.Credited, DC.AttemptExact, DC.Replays, PaidInFull, NamesAttempt, Authorises,
      ProcessedFor, Unused, UsesUp, Pays, RestKept, DepositCreditProof.Admitted, CreditBacked;
    var o, between := DepositCreditProof.FinalizeReads(db, authority, f, now, modeOk);
    var id := f.metadataAttemptId;
    AuthorityUsesUp(between, authority, id, now);
    CreditPays(db, f, id);
    SameRest(db, between, DC.Finalize(db, authority, f, now, modeOk).value.0, authority, f, id, now);
  }

  lemma SameRest(db: Database, between: Database, db': Database, authority: DC.Authority, f: CreditFacts, id: Id, now: int)
    requires db' == between.(events := db'.events, recoveries := db'.recoveries) && UsesUp(between, db', authority, id, now)
    requires between.events == db.events && between.recoveries == db.recoveries
    requires id in db.attempts && db.attempts[id].walletId in db.wallets
    ensures UsesUp(db, db', authority, id, now)
    ensures Pays(db, between, f, id) ==> Pays(db, db', f, id)
    ensures RestKept(db, between) || between == db ==> RestKept(db, db')
  {
  }
}
