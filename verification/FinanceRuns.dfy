/**
 Runs of the finance tables: the credit, dispute and refund transactions interleaved with
 what the rest of the platform does to the same rows. A step that is not allowed, or that
 throws, leaves the state as it was.
 */
module FinanceRuns {
  import opened Outcomes
  import opened DepositStatus
  import opened WalletState
  import DC = DepositCredit
  import PD = PaymentDisputes
  import OrderRefunds
  import SeedFunding

  datatype Step =
    | CreditDeposit(authority: DC.Authority, facts: CreditFacts, now: int, modeOk: bool)
    | ApplyDispute(input: PD.Input, now: int, modeOk: bool)
    | RefundOrder(orderId: Id, walletId: Id, refund: OrderRefunds.RefundInput)
    // The provider inbox: delivery, claim, and the return of a lease by its owner or by recovery.
    | ReceiveEvent(eventId: Id, event: ProviderEvent)
    | ClaimEvent(eventId: Id, now: int)
    | ReturnEvent(eventId: Id, quarantine: bool)
    // The deposit recovery queue.
    | StartRecovery(recoveryId: Id, attemptId: Id)
    | ClaimRecovery(recoveryId: Id, now: int)
    | ReturnRecovery(recoveryId: Id, quarantine: bool)
    | RecordEvidence(evidenceId: Id, evidence: Evidence)
    // Deposit attempts before and after their credit.
    | OpenAttempt(attemptId: Id, attempt: DepositAttempt)
    | MoveUncredited(attemptId: Id, status: Status)
    | PublishRefund(attemptId: Id, status: Status)
    // Wallets, orders and the work on them.
    | OpenWallet(walletId: Id, organizationId: Id, owner: Option<Id>)
    | OpenOrder(orderId: Id, order: Order)
    | AssignOrder(assignmentId: Id, orderId: Id)
    | MoveAssignment(assignmentId: Id, work: AssignmentStatus)
    | ReserveForOrder(walletId: Id, orderId: Id, amount: int)
    | PayOrder(reservation: nat)
    | SeedWallet(walletId: Id, organizationId: Id, userId: Id)

  function Committed<O, F>(db: Database, r: Result<(Database, O), F>): Database {
    if r.Ok? then r.value.0 else db
  }

  function Returned(quarantine: bool): InboxStatus {
    if quarantine then QUARANTINED else FAILED_RETRY
  }

  predicate Claimable(status: InboxStatus, lockedAt: Option<int>) {
    status in {PENDING, FAILED_RETRY} && lockedAt.None?
  }

  function Inbox(db: Database, eventId: Id, e: ProviderEvent): Database {
    db.(events := db.events[eventId := e])
  }

  function Queue(db: Database, recoveryId: Id, r: Recovery): Database {
    db.(recoveries := db.recoveries[recoveryId := r])
  }

  function Attempt(db: Database, id: Id, a: DepositAttempt): Database {
    db.(attempts := db.attempts[id := a])
  }

  predicate FreshEvent(db: Database, id: Id, e: ProviderEvent) {
    && id !in db.events && e.status == PENDING && e.attempts == 0 && e.lockedAt.None?
    && e.depositAttemptId.None? && e.caseId.None? && (e.amountMinor.Some? ==> e.amountMinor.value > 0)
  }

  predicate FreshAttempt(db: Database, id: Id, a: DepositAttempt) {
    && id !in db.attempts && a.status == CREATED && a.ledgerTransactionId.None? && a.providerPaymentId.None?
    && (a.providerSessionId.Some? ==>
          forall b :: b in db.attempts ==> db.attempts[b].providerSessionId != a.providerSessionId)
  }

  function Next(db: Database, step: Step): Database {
    match step
    case CreditDeposit(authority, facts, now, modeOk) => Committed(db, DC.Finalize(db, authority, facts, now, modeOk))
    case ApplyDispute(input, now, modeOk) => Committed(db, PD.Transition(db, input, now, modeOk))
    case RefundOrder(orderId, walletId, input) =>
      if orderId !in db.orders then db
      else
        var r := OrderRefunds.Refund(db, orderId, db.orders[orderId], walletId, input);
        if r.Ok? then r.value else db
    case ReceiveEvent(id, e) => if FreshEvent(db, id, e) then Inbox(db, id, e) else db
    case ClaimEvent(id, now) =>
      if id !in db.events || !Claimable(db.events[id].status, db.events[id].lockedAt) then db
      else Inbox(db, id, db.events[id].(status := CLAIMED, attempts := db.events[id].attempts + 1, lockedAt := Some(now)))
    case ReturnEvent(id, quarantine) =>
      if id !in db.events || db.events[id].status != CLAIMED then db
      else Inbox(db, id, db.events[id].(status := Returned(quarantine), lockedAt := None))
    case StartRecovery(id, attemptId) =>
      if id in db.recoveries then db else Queue(db, id, Recovery(attemptId, PENDING, 0, None, None))
    case ClaimRecovery(id, now) =>
      if id !in db.recoveries || !Claimable(db.recoveries[id].status, db.recoveries[id].lockedAt) then db
      else Queue(db, id, db.recoveries[id].(status := CLAIMED, attempts := db.recoveries[id].attempts + 1,
                                            lockedAt := Some(now)))
    case ReturnRecovery(id, quarantine) =>
      if id !in db.recoveries || db.recoveries[id].status != CLAIMED then db
      else Queue(db, id, db.recoveries[id].(status := Returned(quarantine), lockedAt := None))
    case RecordEvidence(id, v) => if id in db.evidence then db else db.(evidence := db.evidence[id := v])
    case OpenAttempt(id, a) => if FreshAttempt(db, id, a) then Attempt(db, id, a) else db
    case MoveUncredited(id, status) =>
      if id !in db.attempts || !CreditablePreCredit(db.attempts[id].status) || !CreditablePreCredit(status) then db
      else Attempt(db, id, db.attempts[id].(status := status))
    case PublishRefund(id, status) =>
      if id !in db.attempts || !CreditBacked(db.attempts[id].status) || !RefundProjected(status) then db
      else Attempt(db, id, db.attempts[id].(status := status))
    case OpenWallet(id, organizationId, userId) =>
      if id in db.wallets then db
      else db.(wallets := db.wallets[id := Wallet(0, 0, USD, Some(organizationId), userId, 0)])
    case OpenOrder(id, o) =>
      if id in db.orders || o.amount < 0 then db else db.(orders := db.orders[id := o])
    case AssignOrder(id, orderId) =>
      if id in db.assignments then db else db.(assignments := db.assignments[id := Assignment(orderId, ASSIGNED, 0)])
    case MoveAssignment(id, status) =>
      if id !in db.assignments then db
      else
        var a := db.assignments[id].(status := status, version := db.assignments[id].version + 1);
        db.(assignments := db.assignments[id := a])
    case ReserveForOrder(walletId, orderId, amount) => OrderRefunds.Reserve(db, walletId, orderId, amount)
    case PayOrder(k) => OrderRefunds.PayFromReserved(db, k)
    case SeedWallet(walletId, organizationId, userId) =>
      Committed(db, SeedFunding.EnsureFunding(db, walletId, organizationId, userId))
  }

  function Run(db: Database, steps: seq<Step>): Database
    decreases |steps|
  {
    if steps == [] then db else Run(Next(db, steps[0]), steps[1..])
  }

  function Flatten(parts: seq<seq<Step>>): seq<Step> {
    if parts == [] then [] else Flatten(parts[..|parts| - 1]) + parts[|parts| - 1]
  }

  lemma RunNothing(db: Database)
    ensures Run(db, Flatten([])) == db
  {
  }

  /** A run can be continued where it stopped. */
  lemma {:induction false} RunAppend(db: Database, a: seq<Step>, b: seq<Step>)
    ensures Run(db, a + b) == Run(Run(db, a), b)
    decreases |a|
  {
    hide Next;
    if a == [] {
      assert a + b == b;
    } else {
      RunAppend(Next(db, a[0]), a[1..], b);
      assert (a + b)[1..] == a[1..] + b;
    }
  }

  lemma RunFurther(db: Database, parts: seq<seq<Step>>, n: nat)
    requires n < |parts|
    ensures Run(db, Flatten(parts[..n + 1])) == Run(Run(db, Flatten(parts[..n])), parts[n])
  {
    hide Next;
    assert parts[..n + 1][..n] == parts[..n];
    RunAppend(db, Flatten(parts[..n]), parts[n]);
  }
}
