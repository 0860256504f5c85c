/**
 The rows that deposit crediting, payment disputes, refunds and order payment share.
 One `Database` value is one committed state. Money is counted in USD minor units.
 Ledger rows and dispute cases are only ever appended, so their row id is their position.
 */
module WalletState {
  import opened Outcomes
  import opened DepositStatus

  type Id = string

  const STRIPE: string := "stripe"
  const USD: string := "USD"

  datatype TransactionType = DEPOSIT | PURCHASE | REFUND | RESERVATION_ENTRY | CHARGEBACK_ENTRY

  datatype Phase = HoldPhase | WonPhase | LostPhase

  /** The unique `reference` column. Texts that start with "payment-dispute:" are their own namespace. */
  datatype Reference =
    | NoReference
    | TextReference(text: string)
    | DisputeReference(disputeId: Id, phase: Phase)

  /** What the description of a ledger row says. The text of the seed is none of the others. */
  datatype Description =
    | DepositOf(publicReference: string)
    | SeedInitialFunding
    | RefundOf(orderId: Id)
    | ReservationOf(orderId: Id)
    | PaymentOf(orderId: Id)
    | DisputeMovement(disputeId: Id, phase: Phase)

  datatype Transaction = Transaction(
    walletId: Id,
    amount: int,
    currency: string,
    kind: TransactionType,
    reference: Reference,
    provider: Option<string>,
    providerRef: Option<Id>,
    // The inverse of DepositAttempt.ledgerTransactionId, a one-to-one relation.
    depositAttempt: Option<Id>,
    description: Description
  )

  datatype Wallet = Wallet(
    available: int,
    reserved: int,
    currency: string,
    organizationId: Option<Id>,
    userId: Option<Id>,
    version: nat
  )

  datatype DepositAttempt = DepositAttempt(
    walletId: Id,
    publicReference: string,
    createdByUserId: Id,
    organizationId: Option<Id>,
    provider: string,
    amount: int,
    walletCredit: int,
    customerFee: int,
    currency: string,
    status: Status,
    providerSessionId: Option<Id>,
    providerPaymentId: Option<Id>,
    providerChargeId: Option<Id>,
    ledgerTransactionId: Option<nat>
  )

  datatype DisputeStatus = OPEN | WON | LOST

  datatype PaymentDispute = PaymentDispute(
    disputeId: Id,
    paymentId: Id,
    chargeId: Option<Id>,
    depositAttemptId: Id,
    depositTransactionId: nat,
    walletId: Id,
    amount: int,
    currency: string,
    held: int,
    shortfall: int,
    exposure: int,
    status: DisputeStatus,
    providerStatus: string,
    openedBy: Option<Id>,
    resolvedBy: Option<Id>,
    holdTransactionId: Option<nat>,
    resolutionTransactionId: Option<nat>,
    version: nat
  )

  datatype EventType = DisputeCreated | DisputeClosed | CheckoutCompleted | CheckoutAsyncPaymentSucceeded | OtherEvent

  /** The signed facts of a dispute event. It stands for their SHA-256 digest, taken as injective. */
  datatype Envelope = Envelope(
    providerEventId: Id,
    eventType: EventType,
    disputeId: Id,
    paymentId: Id,
    chargeId: Option<Id>,
    amountMinor: int,
    currency: string,
    providerStatus: string,
    livemode: bool
  )

  datatype InboxStatus = PENDING | CLAIMED | PROCESSED | FAILED_RETRY | QUARANTINED

  /** A row of the durable provider inbox. The dispute columns are empty for other events. */
  datatype ProviderEvent = ProviderEvent(
    provider: string,
    providerEventId: Id,
    eventType: EventType,
    objectId: Id,
    paymentId: Option<Id>,
    chargeId: Option<Id>,
    amountMinor: Option<int>,
    currency: Option<string>,
    providerStatus: Option<string>,
    livemode: bool,
    fingerprint: Option<Envelope>,
    status: InboxStatus,
    attempts: nat,
    lockedAt: Option<int>,
    processedAt: Option<int>,
    depositAttemptId: Option<Id>,
    caseId: Option<nat>
  )

  datatype Order = Order(
    organizationId: Id,
    status: OrderStatus,
    paymentStatus: PaymentStatus,
    currency: string,
    amount: int,
    refundResponsibility: Option<Responsibility>,
    version: nat
  )

  datatype Responsibility = CUSTOMER | PUBLISHER | PLATFORM | SHARED | SYSTEM

  datatype OrderStatus = PENDING_PAYMENT | PAID | SUBMITTED | ACCEPTED | ORDER_REFUNDED
  datatype PaymentStatus = PAYMENT_PENDING | PAYMENT_PAID | PAYMENT_REFUNDED

  datatype AssignmentStatus = ASSIGNED | IN_PROGRESS | DELIVERED | CANCELLED

  /** Who works on an order. */
  datatype Assignment = Assignment(orderId: Id, status: AssignmentStatus, version: nat)

  /** The event that a refund leaves in the history of its order. */
  datatype RefundIssued = RefundIssued(
    orderId: Id,
    actor: Option<Id>,
    reason: string,
    responsibility: Responsibility,
    refundTransactionId: nat
  )

  /** Money an order has reserved on a wallet and not yet paid. */
  datatype OrderReservation = OrderReservation(orderId: Id, walletId: Id, amount: int, paid: bool)

  datatype CreditSource = SIGNED_WEBHOOK | AUTHENTICATED_PROVIDER_RETRIEVAL

  /** The normalised provider facts that authorise one credit. */
  datatype CreditFacts = CreditFacts(
    source: CreditSource,
    provider: string,
    sessionId: Id,
    paymentId: Id,
    chargeId: Option<Id>,
    clientReferenceId: Id,
    checkoutStatus: string,
    checkoutPaymentStatus: string,
    checkoutMode: string,
    checkoutAmount: int,
    checkoutCurrency: string,
    checkoutLivemode: bool,
    metadataAttemptId: Id,
    metadataReference: string,
    metadataWalletId: Id,
    metadataUserId: Id,
    metadataOrgId: Option<Id>,
    intentStatus: Option<string>,
    intentAmount: Option<int>,
    intentReceived: Option<int>,
    intentCurrency: Option<string>,
    intentLivemode: Option<bool>,
    paymentMetadataAttemptId: Option<Id>,
    paymentMetadataReference: Option<string>,
    paymentMetadataWalletId: Option<Id>,
    chargePaid: Option<bool>,
    chargeCaptured: Option<bool>,
    chargeRefunded: Option<bool>,
    chargeAmount: Option<int>,
    chargeAmountCaptured: Option<int>,
    chargeCurrency: Option<string>,
    chargeLivemode: Option<bool>
  )

  /** A leased request to re-read one deposit attempt from the provider. */
  datatype Recovery = Recovery(
    depositAttemptId: Id,
    status: InboxStatus,
    attempts: nat,
    lockedAt: Option<int>,
    evidenceId: Option<Id>
  )

  /** What one recovery claim observed. The fingerprint stands for the digest of the facts. */
  datatype Evidence = Evidence(
    recoveryId: Id,
    depositAttemptId: Id,
    claimAttempt: nat,
    claimLockedAt: int,
    facts: CreditFacts,
    fingerprint: CreditFacts
  )

  datatype Database = Database(
    wallets: map<Id, Wallet>,
    ledger: seq<Transaction>,
    attempts: map<Id, DepositAttempt>,
    cases: seq<PaymentDispute>,
    events: map<Id, ProviderEvent>,
    recoveries: map<Id, Recovery>,
    evidence: map<Id, Evidence>,
    orders: map<Id, Order>,
    reservations: seq<OrderReservation>,
    assignments: map<Id, Assignment>,
    orderEvents: seq<RefundIssued>
  )

  /** A wallet that has not been created yet holds nothing. */
  function WalletOf(db: Database, walletId: Id): Wallet {
    if walletId in db.wallets then db.wallets[walletId] else Wallet(0, 0, USD, None, None, 0)
  }

  // ---------------------------------------------------------------- sums over rows

  datatype LedgerQuery = BalanceRows(walletId: Id) | ChargebackRows(walletId: Id) | DisputeHoldRows(walletId: Id)

  function RowWeight(q: LedgerQuery, row: Transaction): int {
    if row.walletId != q.walletId then 0
    else match q
      case BalanceRows(_) => if row.kind.RESERVATION_ENTRY? then 0 else row.amount
      case ChargebackRows(_) => if row.kind.CHARGEBACK_ENTRY? then row.amount else 0
      case DisputeHoldRows(_) =>
        if row.kind.RESERVATION_ENTRY? && row.reference.DisputeReference? then row.amount else 0
  }

  function LedgerSum(q: LedgerQuery, rows: seq<Transaction>): int {
    if rows == [] then 0 else LedgerSum(q, rows[..|rows| - 1]) + RowWeight(q, rows[|rows| - 1])
  }

  datatype CaseQuery = OpenHolds(walletId: Id) | LostHolds(walletId: Id) | ReservedHolds(walletId: Id) | DisputedOf(deposit: nat)

  function CaseWeight(q: CaseQuery, c: PaymentDispute): int {
    match q
    case OpenHolds(w) => if c.walletId == w && c.status.OPEN? then c.held else 0
    case LostHolds(w) => if c.walletId == w && c.status.LOST? then c.held else 0
    case ReservedHolds(w) =>
      if c.walletId == w && (c.status.OPEN? || (c.status.LOST? && c.holdTransactionId.Some?)) then c.held else 0
    case DisputedOf(d) => if c.depositTransactionId == d then c.amount else 0
  }

  function CaseSum(q: CaseQuery, cases: seq<PaymentDispute>): int {
    if cases == [] then 0 else CaseSum(q, cases[..|cases| - 1]) + CaseWeight(q, cases[|cases| - 1])
  }

  function ReservationWeight(walletId: Id, r: OrderReservation): int {
    if r.walletId == walletId && !r.paid then r.amount else 0
  }

  function ReservationSum(walletId: Id, rs: seq<OrderReservation>): int {
    if rs == [] then 0
    else ReservationSum(walletId, rs[..|rs| - 1]) + ReservationWeight(walletId, rs[|rs| - 1])
  }

  lemma LedgerSumAppend(q: LedgerQuery, rows: seq<Transaction>, row: Transaction)
    ensures LedgerSum(q, rows + [row]) == LedgerSum(q, rows) + RowWeight(q, row)
  {
    assert (rows + [row])[..|rows|] == rows;
  }

  lemma CaseSumAppend(q: CaseQuery, cases: seq<PaymentDispute>, c: PaymentDispute)
    ensures CaseSum(q, cases + [c]) == CaseSum(q, cases) + CaseWeight(q, c)
  {
    assert (cases + [c])[..|cases|] == cases;
  }

  lemma {:induction false} CaseSumUpdate(q: CaseQuery, cases: seq<PaymentDispute>, k: nat, c: PaymentDispute)
    requires k < |cases|
    ensures CaseSum(q, cases[k := c]) == CaseSum(q, cases) - CaseWeight(q, cases[k]) + CaseWeight(q, c)
  {
    var n := |cases| - 1;
    if k == n {
      assert cases[k := c][..n] == cases[..n];
    } else {
      CaseSumUpdate(q, cases[..n], k, c);
      assert cases[k := c][..n] == cases[..n][k := c];
    }
  }

  /** The three sums of one wallet that a ledger row may move. */
  lemma LedgerSumsAppend(w: Id, rows: seq<Transaction>, row: Transaction)
    ensures LedgerSum(BalanceRows(w), rows + [row]) == LedgerSum(BalanceRows(w), rows) + RowWeight(BalanceRows(w), row)
    ensures LedgerSum(ChargebackRows(w), rows + [row]) == LedgerSum(ChargebackRows(w), rows) + RowWeight(ChargebackRows(w), row)
    ensures LedgerSum(DisputeHoldRows(w), rows + [row]) == LedgerSum(DisputeHoldRows(w), rows) + RowWeight(DisputeHoldRows(w), row)
  {
    LedgerSumAppend(BalanceRows(w), rows, row);
    LedgerSumAppend(ChargebackRows(w), rows, row);
    LedgerSumAppend(DisputeHoldRows(w), rows, row);
  }

  /** The three sums of one wallet that a changed case may move. */
  lemma CaseSumsUpdate(w: Id, cases: seq<PaymentDispute>, k: nat, c: PaymentDispute)
    requires k < |cases|
    ensures CaseSum(OpenHolds(w), cases[k := c])
         == CaseSum(OpenHolds(w), cases) - CaseWeight(OpenHolds(w), cases[k]) + CaseWeight(OpenHolds(w), c)
    ensures CaseSum(LostHolds(w), cases[k := c])
         == CaseSum(LostHolds(w), cases) - CaseWeight(LostHolds(w), cases[k]) + CaseWeight(LostHolds(w), c)
    ensures CaseSum(ReservedHolds(w), cases[k := c])
         == CaseSum(ReservedHolds(w), cases) - CaseWeight(ReservedHolds(w), cases[k]) + CaseWeight(ReservedHolds(w), c)
  {
    CaseSumUpdate(OpenHolds(w), cases, k, c);
    CaseSumUpdate(LostHolds(w), cases, k, c);
    CaseSumUpdate(ReservedHolds(w), cases, k, c);
  }

  lemma CaseSumsAppend(w: Id, cases: seq<PaymentDispute>, c: PaymentDispute)
    ensures CaseSum(OpenHolds(w), cases + [c]) == CaseSum(OpenHolds(w), cases) + CaseWeight(OpenHolds(w), c)
    ensures CaseSum(LostHolds(w), cases + [c]) == CaseSum(LostHolds(w), cases) + CaseWeight(LostHolds(w), c)
    ensures CaseSum(ReservedHolds(w), cases + [c]) == CaseSum(ReservedHolds(w), cases) + CaseWeight(ReservedHolds(w), c)
  {
    CaseSumAppend(OpenHolds(w), cases, c);
    CaseSumAppend(LostHolds(w), cases, c);
    CaseSumAppend(ReservedHolds(w), cases, c);
  }

  /** One open hold is part of the holds of its wallet. */
  lemma {:induction false} OpenHoldsCover(walletId: Id, cases: seq<PaymentDispute>, k: nat)
    requires k < |cases| && cases[k].status.OPEN? && cases[k].walletId == walletId
    requires forall i :: 0 <= i < |cases| ==> cases[i].held >= 0
    ensures CaseSum(OpenHolds(walletId), cases) >= cases[k].held
  {
    OpenHoldsNonNegative(walletId, cases[..k]);
    OpenHoldsGrow(walletId, cases, k + 1);
    assert cases[..k + 1][..k] == cases[..k];
  }

  lemma {:induction false} OpenHoldsNonNegative(walletId: Id, cases: seq<PaymentDispute>)
    requires forall i :: 0 <= i < |cases| ==> cases[i].held >= 0
    ensures CaseSum(OpenHolds(walletId), cases) >= 0
  {
    if cases != [] {
      OpenHoldsNonNegative(walletId, cases[..|cases| - 1]);
    }
  }

  lemma {:induction false} OpenHoldsGrow(walletId: Id, cases: seq<PaymentDispute>, n: nat)
    requires n <= |cases|
    requires forall i :: 0 <= i < |cases| ==> cases[i].held >= 0
    ensures CaseSum(OpenHolds(walletId), cases[..n]) <= CaseSum(OpenHolds(walletId), cases)
    decreases |cases| - n
  {
    if n == |cases| {
      assert cases[..n] == cases;
    } else {
      OpenHoldsGrow(walletId, cases, n + 1);
      assert cases[..n + 1][..n] == cases[..n];
    }
  }

  lemma ReservationSumAppend(walletId: Id, rs: seq<OrderReservation>, r: OrderReservation)
    ensures ReservationSum(walletId, rs + [r]) == ReservationSum(walletId, rs) + ReservationWeight(walletId, r)
  {
    assert (rs + [r])[..|rs|] == rs;
  }

  lemma {:induction false} ReservationSumUpdate(walletId: Id, rs: seq<OrderReservation>, k: nat, r: OrderReservation)
    requires k < |rs|
    ensures ReservationSum(walletId, rs[k := r])
         == ReservationSum(walletId, rs) - ReservationWeight(walletId, rs[k]) + ReservationWeight(walletId, r)
  {
    var n := |rs| - 1;
    if k == n {
      assert rs[k := r][..n] == rs[..n];
    } else {
      ReservationSumUpdate(walletId, rs[..n], k, r);
      assert rs[k := r][..n] == rs[..n][k := r];
    }
  }

  lemma {:induction false} ReservationSumNonNegative(walletId: Id, rs: seq<OrderReservation>)
    requires forall i :: 0 <= i < |rs| ==> rs[i].amount >= 0
    ensures ReservationSum(walletId, rs) >= 0
  {
    if rs != [] {
      ReservationSumNonNegative(walletId, rs[..|rs| - 1]);
    }
  }

  // ---------------------------------------------------------------- ledger insertion

  predicate ReferenceTaken(rows: seq<Transaction>, reference: Reference) {
    reference != NoReference && exists i :: 0 <= i < |rows| && rows[i].reference == reference
  }

  predicate ProviderRefTaken(rows: seq<Transaction>, provider: Option<string>, providerRef: Option<Id>) {
    provider.Some? && providerRef.Some?
    && exists i :: 0 <= i < |rows| && rows[i].provider == provider && rows[i].providerRef == providerRef
  }

  /** The two unique indexes of the ledger reject the row. */
  predicate Collides(rows: seq<Transaction>, row: Transaction) {
    ReferenceTaken(rows, row.reference) || ProviderRefTaken(rows, row.provider, row.providerRef)
  }
}
