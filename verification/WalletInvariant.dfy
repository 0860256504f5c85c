/**
 What every reachable state of the finance tables keeps. Each predicate takes just the
 tables it is about, so a write to another table cannot disturb it.
 */
module WalletInvariant {
  import opened Outcomes
  import opened DepositStatus
  import opened WalletState
  import opened PaymentDisputes

  type Attempts = map<Id, DepositAttempt>
  type Events = map<Id, ProviderEvent>

  /**
   Wallet-ledger parity, and what the reserved part is made of: the holds of open cases
   and what orders reserved. Chargeback and dispute-hold rows repeat the holds of the cases.
   */
  ghost predicate Balanced(walletId: Id, w: Wallet, ledger: seq<Transaction>, cases: seq<PaymentDispute>,
                           reservations: seq<OrderReservation>)
  {
    && w.available >= 0
    && w.available + w.reserved == LedgerSum(BalanceRows(walletId), ledger)
    && w.reserved == CaseSum(OpenHolds(walletId), cases) + ReservationSum(walletId, reservations)
    && LedgerSum(ChargebackRows(walletId), ledger) == -CaseSum(LostHolds(walletId), cases)
    && LedgerSum(DisputeHoldRows(walletId), ledger) == -CaseSum(ReservedHolds(walletId), cases)
  }

  ghost predicate BalancedIn(db: Database, walletId: Id) {
    Balanced(walletId, WalletOf(db, walletId), db.ledger, db.cases, db.reservations)
  }

  ghost predicate MoneyValid(db: Database) {
    forall w: Id :: BalancedIn(db, w)
  }

  ghost predicate AmountsValid(reservations: seq<OrderReservation>, orders: map<Id, Order>) {
    && (forall k :: 0 <= k < |reservations| ==> reservations[k].amount >= 0)
    && (forall o :: o in orders ==> orders[o].amount >= 0)
  }

  /** The amounts and evidence of one case agree with its status; the database checks the same on every write. */
  ghost predicate CaseShape(c: PaymentDispute) {
    && c.amount > 0 && c.held >= 0 && c.shortfall >= 0 && c.held + c.shortfall == c.amount
    && c.exposure == (if c.status.WON? then 0 else c.shortfall)
    && match c.status
       case OPEN => c.openedBy.Some? && c.resolvedBy.None? && c.resolutionTransactionId.None?
                    && (c.holdTransactionId.Some? <==> c.held > 0)
       case WON => c.resolvedBy.Some? && (c.holdTransactionId.Some? <==> c.held > 0)
                   && (c.resolutionTransactionId.Some? <==> c.held > 0)
       case LOST => c.resolvedBy.Some? && (c.holdTransactionId.Some? ==> c.held > 0)
                    && (c.resolutionTransactionId.Some? <==> c.held > 0)
  }

  /** The ledger row `i` is the evidence row of phase `phase` of the case. */
  ghost predicate CaseRow(ledger: seq<Transaction>, i: nat, c: PaymentDispute, phase: Phase) {
    && i < |ledger|
    && ledger[i].reference == DisputeReference(c.disputeId, phase)
    && ledger[i].walletId == c.walletId
    && (match phase
        case HoldPhase => ledger[i].kind.RESERVATION_ENTRY? && ledger[i].amount == -c.held
        case WonPhase => ledger[i].kind.RESERVATION_ENTRY? && ledger[i].amount == c.held
        case LostPhase => ledger[i].kind.CHARGEBACK_ENTRY? && ledger[i].amount == -c.held)
  }

  ghost predicate CaseLinked(c: PaymentDispute, ledger: seq<Transaction>, attempts: Attempts) {
    && c.depositAttemptId in attempts
    && attempts[c.depositAttemptId].ledgerTransactionId == Some(c.depositTransactionId)
    && attempts[c.depositAttemptId].walletId == c.walletId
    && (c.holdTransactionId.Some? ==> CaseRow(ledger, c.holdTransactionId.value, c, HoldPhase))
    && (c.resolutionTransactionId.Some? ==>
          CaseRow(ledger, c.resolutionTransactionId.value, c, if c.status.WON? then WonPhase else LostPhase))
  }

  ghost predicate CasesValid(cases: seq<PaymentDispute>, ledger: seq<Transaction>, attempts: Attempts) {
    && (forall k :: 0 <= k < |cases| ==> CaseShape(cases[k]) && CaseLinked(cases[k], ledger, attempts))
    && (forall k, l :: 0 <= k < l < |cases| ==> cases[k].disputeId != cases[l].disputeId)
  }

  /** The cases of one deposit never dispute more than the deposit credited. */
  ghost predicate DisputesBounded(cases: seq<PaymentDispute>, ledger: seq<Transaction>) {
    forall d :: 0 <= d < |ledger| && ledger[d].kind.DEPOSIT? ==> CaseSum(DisputedOf(d), cases) <= ledger[d].amount
  }

  /** A dispute reference on the ledger belongs to a case, and to the right link of that case. */
  ghost predicate DisputeRowOwned(row: Transaction, i: nat, cases: seq<PaymentDispute>, k: nat) {
    && k < |cases|
    && row.reference.DisputeReference?
    && cases[k].disputeId == row.reference.disputeId
    && (if row.reference.phase.HoldPhase? then cases[k].holdTransactionId == Some(i)
        else cases[k].resolutionTransactionId == Some(i))
  }

  ghost predicate DisputeRowsOwned(ledger: seq<Transaction>, cases: seq<PaymentDispute>) {
    forall i :: 0 <= i < |ledger| && ledger[i].reference.DisputeReference? ==>
      exists k :: DisputeRowOwned(ledger[i], i, cases, k)
  }

  /** The two unique indexes of the ledger. */
  ghost predicate RowsDistinct(ledger: seq<Transaction>) {
    forall i, j :: 0 <= i < j < |ledger| ==> RowsDiffer(ledger[i], ledger[j])
  }

  ghost predicate RowsDiffer(a: Transaction, b: Transaction) {
    && (a.reference == b.reference ==> a.reference == NoReference)
    && (a.providerRef == b.providerRef ==> a.providerRef.None?)
  }

  /** A provider-backed row is the deposit of exactly the attempt that points back at it. */
  ghost predicate DepositOwned(row: Transaction, i: nat, attempts: Attempts) {
    && row.kind.DEPOSIT? && row.provider == Some(STRIPE)
    && row.depositAttempt.Some? && row.depositAttempt.value in attempts
    && attempts[row.depositAttempt.value].ledgerTransactionId == Some(i)
  }

  ghost predicate DepositsOwned(ledger: seq<Transaction>, attempts: Attempts) {
    forall i :: 0 <= i < |ledger| && ledger[i].providerRef.Some? ==> DepositOwned(ledger[i], i, attempts)
  }

  /** Credit-backed, linked to a ledger row, and owning that exact deposit row are one and the same. */
  ghost predicate AttemptLinked(id: Id, a: DepositAttempt, ledger: seq<Transaction>) {
    && (CreditBacked(a.status) <==> a.ledgerTransactionId.Some?)
    && (a.ledgerTransactionId.Some? ==>
          && a.ledgerTransactionId.value < |ledger|
          && a.providerSessionId.Some? && a.providerPaymentId.Some? && a.walletCredit > 0
          && ledger[a.ledgerTransactionId.value]
             == Transaction(a.walletId, a.walletCredit, USD, DEPOSIT, TextReference(a.providerSessionId.value),
                            Some(STRIPE), a.providerPaymentId, Some(id), DepositOf(a.publicReference)))
  }

  ghost predicate AttemptsLinked(attempts: Attempts, ledger: seq<Transaction>) {
    forall id :: id in attempts ==> AttemptLinked(id, attempts[id], ledger)
  }

  ghost predicate CreditedWalletsExist(attempts: Attempts, wallets: map<Id, Wallet>) {
    forall id :: id in attempts && attempts[id].ledgerTransactionId.Some? ==> attempts[id].walletId in wallets
  }

  ghost predicate SessionsDistinct(attempts: Attempts) {
    forall a, b | a in attempts && b in attempts ::
      attempts[a].providerSessionId.Some? && attempts[a].providerSessionId == attempts[b].providerSessionId ==> a == b
  }

  /** Only a processed event carries links, and they name a case of its own dispute or a credited attempt. */
  ghost predicate EventLinked(e: ProviderEvent, cases: seq<PaymentDispute>, attempts: Attempts) {
    && (e.amountMinor.Some? ==> e.amountMinor.value > 0)
    && (e.status == CLAIMED ==> e.attempts > 0)
    && (e.lockedAt.Some? ==> e.status == CLAIMED)
    && (e.depositAttemptId.Some? ==>
          && e.status == PROCESSED
          && e.depositAttemptId.value in attempts
          && CreditBacked(attempts[e.depositAttemptId.value].status))
    && (e.caseId.Some? ==>
          && e.status == PROCESSED
          && e.caseId.value < |cases|
          && cases[e.caseId.value].disputeId == e.objectId)
  }

  ghost predicate EventsValid(events: Events, cases: seq<PaymentDispute>, attempts: Attempts) {
    forall id :: id in events ==> EventLinked(events[id], cases, attempts)
  }

  /** The opening and closing evidence of a case are processed events that name this case. */
  ghost predicate EvidenceOf(events: Events, k: nat, id: Id, opening: bool) {
    && id in events
    && events[id].caseId == Some(k)
    && (opening <==> events[id].eventType.DisputeCreated?)
  }

  ghost predicate CaseEvidence(c: PaymentDispute, k: nat, events: Events, pending: Option<Id>) {
    && (c.openedBy.Some? && c.openedBy != pending ==> EvidenceOf(events, k, c.openedBy.value, true))
    && (c.resolvedBy.Some? && c.resolvedBy != pending ==> EvidenceOf(events, k, c.resolvedBy.value, false))
  }

  /** `pending` is an event whose case is booked and whose own row is not completed yet. */
  ghost predicate EvidenceValid(cases: seq<PaymentDispute>, events: Events, pending: Option<Id>) {
    forall k :: 0 <= k < |cases| ==> CaseEvidence(cases[k], k, events, pending)
  }

  /** The status of a credited deposit is the view of its cases, except for `pending`. */
  ghost predicate Projected(attempts: Attempts, cases: seq<PaymentDispute>, pending: Option<Id>) {
    forall id :: id in attempts && CreditBacked(attempts[id].status) && Some(id) != pending ==>
      attempts[id].status == Projection(attempts[id].status, cases, id)
  }

  ghost predicate Base(db: Database) {
    && MoneyValid(db)
    && AmountsValid(db.reservations, db.orders)
    && CasesValid(db.cases, db.ledger, db.attempts)
    && DisputesBounded(db.cases, db.ledger)
    && DisputeRowsOwned(db.ledger, db.cases)
    && RowsDistinct(db.ledger)
    && DepositsOwned(db.ledger, db.attempts)
    && AttemptsLinked(db.attempts, db.ledger)
    && CreditedWalletsExist(db.attempts, db.wallets)
    && SessionsDistinct(db.attempts)
    && EventsValid(db.events, db.cases, db.attempts)
  }

  ghost predicate Valid(db: Database) {
    Base(db) && EvidenceValid(db.cases, db.events, None) && Projected(db.attempts, db.cases, None)
  }

  /** The conjuncts of validity, for proofs that treat each of them as a whole. */
  lemma ValidParts(db: Database)
    requires Valid(db)
    ensures MoneyValid(db) && AmountsValid(db.reservations, db.orders)
    ensures CasesValid(db.cases, db.ledger, db.attempts) && DisputesBounded(db.cases, db.ledger)
    ensures DisputeRowsOwned(db.ledger, db.cases) && RowsDistinct(db.ledger)
    ensures DepositsOwned(db.ledger, db.attempts) && AttemptsLinked(db.attempts, db.ledger)
    ensures CreditedWalletsExist(db.attempts, db.wallets) && SessionsDistinct(db.attempts)
    ensures EventsValid(db.events, db.cases, db.attempts)
    ensures EvidenceValid(db.cases, db.events, None) && Projected(db.attempts, db.cases, None)
  {
  }

  lemma BaseFrom(db: Database)
    requires MoneyValid(db) && AmountsValid(db.reservations, db.orders)
    requires CasesValid(db.cases, db.ledger, db.attempts) && DisputesBounded(db.cases, db.ledger)
    requires DisputeRowsOwned(db.ledger, db.cases) && RowsDistinct(db.ledger)
    requires DepositsOwned(db.ledger, db.attempts) && AttemptsLinked(db.attempts, db.ledger)
    requires CreditedWalletsExist(db.attempts, db.wallets) && SessionsDistinct(db.attempts)
    requires EventsValid(db.events, db.cases, db.attempts)
    ensures Base(db)
  {
  }

  lemma ValidFrom(db: Database)
    requires Base(db) && EvidenceValid(db.cases, db.events, None) && Projected(db.attempts, db.cases, None)
    ensures Valid(db)
  {
  }

  lemma ValidCase(db: Database, k: nat)
    requires Valid(db) && k < |db.cases|
    ensures Base(db) && CaseShape(db.cases[k]) && CaseLinked(db.cases[k], db.ledger, db.attempts)
  {
  }

  lemma MoreWallets(attempts: Attempts, wallets: map<Id, Wallet>, wallets': map<Id, Wallet>)
    requires CreditedWalletsExist(attempts, wallets) && wallets.Keys <= wallets'.Keys
    ensures CreditedWalletsExist(attempts, wallets')
  {
  }

  lemma CaseReplaced(cases: seq<PaymentDispute>, k: nat, c: PaymentDispute, ledger: seq<Transaction>, attempts: Attempts)
    requires CasesValid(cases, ledger, attempts) && k < |cases| && c.disputeId == cases[k].disputeId
    requires CaseShape(c) && CaseLinked(c, ledger, attempts)
    ensures CasesValid(cases[k := c], ledger, attempts)
  {
  }

  /** Parity is about wallets, ledger, cases and reservations only. */
  lemma OtherTablesKeepMoney(db: Database, db': Database)
    requires MoneyValid(db)
    requires db'.wallets == db.wallets && db'.ledger == db.ledger && db'.cases == db.cases
    requires db'.reservations == db.reservations
    ensures MoneyValid(db')
  {
    forall w: Id ensures BalancedIn(db', w) {
      assert BalancedIn(db, w);
    }
  }
}
