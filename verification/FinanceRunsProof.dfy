/** Every run keeps the invariants. */
module FinanceRunsProof {
  import opened Outcomes
  import opened DepositStatus
  import opened WalletState
  import opened WalletInvariant
  import opened FinanceRuns
  import OrderRefunds
  import DC = DepositCredit
  import DepositCreditProof
  import PD = PaymentDisputes
  import DP = PaymentDisputeProof
  import DisputeTransitionProof
  import SeedFunding
  import SeedFundingProof

  // ---------------------------------------------------------------- order money

  lemma RefundKeepsMoney(db: Database, orderId: Id, o: Order, walletId: Id, input: OrderRefunds.RefundInput)
    requires MoneyValid(db) && o.amount >= 0 && OrderRefunds.Refund(db, orderId, o, walletId, input).Ok?
    ensures MoneyValid(OrderRefunds.Refund(db, orderId, o, walletId, input).value)
  {
    hide LedgerSum, CaseSum, ReservationSum, Collides;
    var db' := OrderRefunds.Refund(db, orderId, o, walletId, input).value;
    forall w: Id ensures BalancedIn(db', w) {
      assert BalancedIn(db, w);
      LedgerSumsAppend(w, db.ledger, db'.ledger[|db.ledger|]);
    }
  }

  lemma RefundKeepsValid(db: Database, orderId: Id, walletId: Id, input: OrderRefunds.RefundInput)
    requires Valid(db) && orderId in db.orders
    requires OrderRefunds.Refund(db, orderId, db.orders[orderId], walletId, input).Ok?
    ensures Valid(OrderRefunds.Refund(db, orderId, db.orders[orderId], walletId, input).value)
  {
    hide MoneyValid, RowsDistinct, DepositsOwned, AttemptsLinked, DisputeRowsOwned, SessionsDistinct, DisputesBounded,
      EventsValid, EvidenceValid, Projected, CasesValid;
    var o := db.orders[orderId];
    var db' := OrderRefunds.Refund(db, orderId, o, walletId, input).value;
    assert o.amount >= 0;
    RefundKeepsMoney(db, orderId, o, walletId, input);
    DP.AppendKeepsRows(db, db'.ledger[|db.ledger|]);
    assert AmountsValid(db'.reservations, db'.orders);
  }

  lemma ReserveKeepsMoney(db: Database, walletId: Id, orderId: Id, amount: int)
    requires MoneyValid(db)
    ensures MoneyValid(OrderRefunds.Reserve(db, walletId, orderId, amount))
  {
    hide LedgerSum, CaseSum, ReservationSum, OrderRefunds.SpendBlocked;
    var db' := OrderRefunds.Reserve(db, walletId, orderId, amount);
    if db' != db {
      forall w: Id ensures BalancedIn(db', w) {
        assert BalancedIn(db, w);
        LedgerSumsAppend(w, db.ledger, db'.ledger[|db.ledger|]);
        ReservationSumAppend(w, db.reservations, OrderReservation(orderId, walletId, amount, false));
      }
    }
  }

  lemma PayKeepsMoney(db: Database, k: nat)
    requires MoneyValid(db)
    ensures MoneyValid(OrderRefunds.PayFromReserved(db, k))
  {
    hide LedgerSum, CaseSum, ReservationSum, OrderRefunds.SpendBlocked;
    var db' := OrderRefunds.PayFromReserved(db, k);
    if db' != db {
      forall w: Id ensures BalancedIn(db', w) {
        assert BalancedIn(db, w);
        LedgerSumsAppend(w, db.ledger, db'.ledger[|db.ledger|]);
        ReservationSumUpdate(w, db.reservations, k, db.reservations[k].(paid := true));
      }
    }
  }

  /** A spending step appends one plain row and touches no dispute, attempt or event. */
  ghost predicate PlainStep(db: Database, db': Database) {
    && |db'.ledger| == |db.ledger| + 1 && db'.ledger == db.ledger + [db'.ledger[|db.ledger|]]
    && db'.ledger[|db.ledger|].reference.NoReference? && db'.ledger[|db.ledger|].providerRef.None?
    && !db'.ledger[|db.ledger|].kind.DEPOSIT?
    && db'.cases == db.cases && db'.attempts == db.attempts && db'.events == db.events
    && db.wallets.Keys <= db'.wallets.Keys
  }

  lemma PlainStepKeepsValid(db: Database, db': Database)
    requires Valid(db) && PlainStep(db, db') && MoneyValid(db') && AmountsValid(db'.reservations, db'.orders)
    ensures Valid(db')
  {
    hide MoneyValid, AmountsValid, RowsDistinct, DepositsOwned, AttemptsLinked, DisputeRowsOwned, SessionsDistinct,
      DisputesBounded, EventsValid, EvidenceValid, Projected, CasesValid, CreditedWalletsExist;
    DP.AppendKeepsRows(db, db'.ledger[|db.ledger|]);
    MoreWallets(db.attempts, db.wallets, db'.wallets);
  }

  lemma ReserveKeepsValid(db: Database, walletId: Id, orderId: Id, amount: int)
    requires Valid(db)
    ensures Valid(OrderRefunds.Reserve(db, walletId, orderId, amount))
  {
    hide Valid, LedgerSum, CaseSum, ReservationSum, OrderRefunds.SpendBlocked, MoneyValid, RowsDistinct, DepositsOwned,
      AttemptsLinked, DisputeRowsOwned, SessionsDistinct, DisputesBounded, EventsValid, EvidenceValid, Projected, CasesValid;
    ValidParts(db);
    ReserveKeepsMoney(db, walletId, orderId, amount);
    var db' := OrderRefunds.Reserve(db, walletId, orderId, amount);
    if db' != db {
      PlainStepKeepsValid(db, db');
    }
  }

  lemma PayKeepsValid(db: Database, k: nat)
    requires Valid(db)
    ensures Valid(OrderRefunds.PayFromReserved(db, k))
  {
    hide Valid, LedgerSum, CaseSum, ReservationSum, OrderRefunds.SpendBlocked, MoneyValid, RowsDistinct, DepositsOwned,
      AttemptsLinked, DisputeRowsOwned, SessionsDistinct, DisputesBounded, EventsValid, EvidenceValid, Projected, CasesValid;
    ValidParts(db);
    PayKeepsMoney(db, k);
    var db' := OrderRefunds.PayFromReserved(db, k);
    if db' != db {
      PlainStepKeepsValid(db, db');
    }
  }

  // ---------------------------------------------------------------- attempts, wallets and queues

  /** Changing or adding an uncredited attempt is invisible to the ledger and to disputes. */
  lemma UncreditedKeepsValid(db: Database, id: Id, a: DepositAttempt)
    requires Valid(db) && CreditablePreCredit(a.status) && a.ledgerTransactionId.None?
    requires id in db.attempts ==> CreditablePreCredit(db.attempts[id].status)
    requires id in db.attempts ==> db.attempts[id].providerSessionId == a.providerSessionId
    requires id !in db.attempts && a.providerSessionId.Some? ==>
               forall b :: b in db.attempts ==> db.attempts[b].providerSessionId != a.providerSessionId
    ensures Valid(db.(attempts := db.attempts[id := a]))
  {
    hide Base, Valid, RowsDistinct, DisputeRowsOwned, DisputesBounded, EvidenceValid, DepositsOwned, CasesValid, MoneyValid,
      AmountsValid, PD.Projection;
    ValidParts(db);
    var db' := db.(attempts := db.attempts[id := a]);
    assert id in db.attempts ==> AttemptLinked(id, db.attempts[id], db.ledger);
    UncreditedKeepsLinks(db, id, a);
    UncreditedKeepsEvents(db, id, a);
    assert AttemptsLinked(db'.attempts, db.ledger) by {
      forall b | b in db'.attempts ensures AttemptLinked(b, db'.attempts[b], db.ledger) {
        assert b != id ==> AttemptLinked(b, db.attempts[b], db.ledger);
      }
    }
    OtherTablesKeepMoney(db, db');
    BaseFrom(db');
    ValidFrom(db');
  }

  lemma UncreditedKeepsEvents(db: Database, id: Id, a: DepositAttempt)
    requires EventsValid(db.events, db.cases, db.attempts)
    requires id in db.attempts ==> !CreditBacked(db.attempts[id].status)
    ensures EventsValid(db.events, db.cases, db.attempts[id := a])
  {
    forall e | e in db.events ensures EventLinked(db.events[e], db.cases, db.attempts[id := a]) {
      assert EventLinked(db.events[e], db.cases, db.attempts);
    }
  }

  lemma UncreditedKeepsLinks(db: Database, id: Id, a: DepositAttempt)
    requires CasesValid(db.cases, db.ledger, db.attempts) && DepositsOwned(db.ledger, db.attempts)
    requires id in db.attempts ==> db.attempts[id].ledgerTransactionId.None?
    ensures CasesValid(db.cases, db.ledger, db.attempts[id := a]) && DepositsOwned(db.ledger, db.attempts[id := a])
  {
    forall k | 0 <= k < |db.cases| ensures CaseLinked(db.cases[k], db.ledger, db.attempts[id := a]) {
      assert CaseLinked(db.cases[k], db.ledger, db.attempts);
    }
    forall i | 0 <= i < |db.ledger| && db.ledger[i].providerRef.Some?
      ensures DepositOwned(db.ledger[i], i, db.attempts[id := a])
    {
      assert DepositOwned(db.ledger[i], i, db.attempts);
    }
  }

  /** A published refund is kept as the status of its deposit from then on. */
  lemma PublishRefundKeepsValid(db: Database, id: Id, status: Status)
    requires Valid(db) && id in db.attempts && CreditBacked(db.attempts[id].status) && RefundProjected(status)
    ensures Valid(Attempt(db, id, db.attempts[id].(status := status)))
  {
    hide AmountsValid, RowsDistinct, DepositsOwned, AttemptsLinked, DisputeRowsOwned, SessionsDistinct, DisputesBounded,
      EventsValid, EvidenceValid, CasesValid, CreditedWalletsExist, MoneyValid;
    DP.RestatusKeepsLinks(db, id, status);
    DP.RestatusKeepsRest(db.attempts, id, status, db.wallets, db.events, db.cases);
    OtherTablesKeepMoney(db, Attempt(db, id, db.attempts[id].(status := status)));
  }

  lemma OpenWalletKeepsValid(db: Database, id: Id, organizationId: Id, userId: Option<Id>)
    requires Valid(db) && id !in db.wallets
    ensures Valid(db.(wallets := db.wallets[id := Wallet(0, 0, USD, Some(organizationId), userId, 0)]))
  {
    var db' := db.(wallets := db.wallets[id := Wallet(0, 0, USD, Some(organizationId), userId, 0)]);
    hide AmountsValid, RowsDistinct, DepositsOwned, AttemptsLinked, DisputeRowsOwned, SessionsDistinct, DisputesBounded,
      EventsValid, EvidenceValid, CasesValid, Projected, LedgerSum, CaseSum, ReservationSum;
    forall w: Id ensures BalancedIn(db', w) {
      assert BalancedIn(db, w);
    }
    MoreWallets(db.attempts, db.wallets, db'.wallets);
  }

  lemma InboxKeepsValid(db: Database, id: Id, e: ProviderEvent)
    requires Valid(db)
    requires e.depositAttemptId.None? && e.caseId.None? && (e.amountMinor.Some? ==> e.amountMinor.value > 0)
    requires (e.status == CLAIMED ==> e.attempts > 0) && (e.lockedAt.Some? ==> e.status == CLAIMED)
    requires id in db.events ==> db.events[id].caseId.None?
    ensures Valid(Inbox(db, id, e))
  {
    DepositCreditProof.EventChangeKeepsValid(db, id, e);
  }

  /** Rows that no invariant speaks of. */
  lemma QueuesKeepValid(db: Database, recoveries: map<Id, Recovery>, evidence: map<Id, Evidence>)
    requires Valid(db)
    ensures Valid(db.(recoveries := recoveries, evidence := evidence))
  {
    hide AmountsValid, RowsDistinct, DepositsOwned, AttemptsLinked, DisputeRowsOwned, SessionsDistinct, DisputesBounded,
      EventsValid, EvidenceValid, CasesValid, Projected, CreditedWalletsExist, MoneyValid;
    OtherTablesKeepMoney(db, db.(recoveries := recoveries, evidence := evidence));
  }

  lemma WorkKeepsValid(db: Database, assignments: map<Id, Assignment>)
    requires Valid(db)
    ensures Valid(db.(assignments := assignments))
  {
    hide AmountsValid, RowsDistinct, DepositsOwned, AttemptsLinked, DisputeRowsOwned, SessionsDistinct, DisputesBounded,
      EventsValid, EvidenceValid, CasesValid, Projected, CreditedWalletsExist, MoneyValid;
    OtherTablesKeepMoney(db, db.(assignments := assignments));
  }

  lemma OrdersKeepValid(db: Database, id: Id, o: Order)
    requires Valid(db) && o.amount >= 0
    ensures Valid(db.(orders := db.orders[id := o]))
  {
    hide RowsDistinct, DepositsOwned, AttemptsLinked, DisputeRowsOwned, SessionsDistinct, DisputesBounded,
      EventsValid, EvidenceValid, CasesValid, Projected, CreditedWalletsExist, MoneyValid;
    OtherTablesKeepMoney(db, db.(orders := db.orders[id := o]));
  }

  // ---------------------------------------------------------------- steps and runs

  lemma InboxStepKeepsValid(db: Database, step: Step)
    requires Valid(db) && (step.ReceiveEvent? || step.ClaimEvent? || step.ReturnEvent?)
    ensures Valid(Next(db, step))
  {
    if step.eventId in db.events {
      assert EventLinked(db.events[step.eventId], db.cases, db.attempts);
    }
    hide Valid;
    if Next(db, step) != db {
      InboxKeepsValid(db, step.eventId, Next(db, step).events[step.eventId]);
    }
  }

  lemma NextKeepsValid(db: Database, step: Step)
    requires Valid(db)
    ensures Valid(Next(db, step))
  {
    hide Valid, SeedFunding.EnsureFunding, DC.Finalize, PD.Transition, OrderRefunds.Refund, OrderRefunds.Reserve,
      OrderRefunds.PayFromReserved;
    match step
    case CreditDeposit(authority, facts, now, modeOk) =>
      if DC.Finalize(db, authority, facts, now, modeOk).Ok? {
        DepositCreditProof.FinalizeKeepsValid(db, authority, facts, now, modeOk);
      }
    case ApplyDispute(input, now, modeOk) =>
      if PD.Transition(db, input, now, modeOk).Ok? {
        DisputeTransitionProof.TransitionKeepsValid(db, input, now, modeOk);
      }
    case RefundOrder(orderId, walletId, input) =>
      if orderId in db.orders && OrderRefunds.Refund(db, orderId, db.orders[orderId], walletId, input).Ok? {
        RefundKeepsValid(db, orderId, walletId, input);
      }
    case ReceiveEvent(_, _) => InboxStepKeepsValid(db, step);
    case ClaimEvent(_, _) => InboxStepKeepsValid(db, step);
    case ReturnEvent(_, _) => InboxStepKeepsValid(db, step);
    case StartRecovery(_, _) => QueuesKeepValid(db, Next(db, step).recoveries, db.evidence);
    case ClaimRecovery(_, _) => QueuesKeepValid(db, Next(db, step).recoveries, db.evidence);
    case ReturnRecovery(_, _) => QueuesKeepValid(db, Next(db, step).recoveries, db.evidence);
    case RecordEvidence(_, _) => QueuesKeepValid(db, db.recoveries, Next(db, step).evidence);
    case OpenAttempt(id, a) =>
      if FreshAttempt(db, id, a) {
        UncreditedKeepsValid(db, id, a);
      }
    case MoveUncredited(id, status) =>
      if Next(db, step) != db {
        UncreditedLink(db, id);
        UncreditedKeepsValid(db, id, Next(db, step).attempts[id]);
      }
    case PublishRefund(id, status) =>
      if Next(db, step) != db {
        PublishRefundKeepsValid(db, id, status);
      }
    case OpenWallet(id, organizationId, userId) =>
      if id !in db.wallets {
        OpenWalletKeepsValid(db, id, organizationId, userId);
      }
    case OpenOrder(id, o) =>
      if o.amount >= 0 {
        OrdersKeepValid(db, id, o);
      }
    case AssignOrder(_, _) => WorkKeepsValid(db, Next(db, step).assignments);
    case MoveAssignment(_, _) => WorkKeepsValid(db, Next(db, step).assignments);
    case ReserveForOrder(walletId, orderId, amount) => ReserveKeepsValid(db, walletId, orderId, amount);
    case PayOrder(k) => PayKeepsValid(db, k);
    case SeedWallet(walletId, organizationId, userId) =>
      if SeedFunding.EnsureFunding(db, walletId, organizationId, userId).Ok? {
        SeedFundingProof.FundingKeepsValid(db, walletId, organizationId, userId);
      }
  }

  lemma UncreditedLink(db: Database, id: Id)
    requires Valid(db) && id in db.attempts && CreditablePreCredit(db.attempts[id].status)
    ensures db.attempts[id].ledgerTransactionId.None?
  {
    assert AttemptLinked(id, db.attempts[id], db.ledger);
  }

  /**
   Safety over whole runs: parity and the make-up of the reserved balance, non-negative
   available money, bounded disputes, exactly-once deposits and projected deposit statuses
   hold after any interleaving of credits, dispute events, refunds and everything else.
   */
  lemma {:induction false} RunKeepsValid(db: Database, steps: seq<Step>)
    requires Valid(db)
    ensures Valid(Run(db, steps))
    decreases |steps|
  {
    hide Valid, Next;
    if steps != [] {
      NextKeepsValid(db, steps[0]);
      RunKeepsValid(Next(db, steps[0]), steps[1..]);
    }
  }

  /** The platform starts with empty tables. */
  lemma EmptyIsValid()
    ensures Valid(Database(map[], [], map[], [], map[], map[], map[], map[], [], map[], []))
  {
    var db := Database(map[], [], map[], [], map[], map[], map[], map[], [], map[], []);
    forall w: Id ensures BalancedIn(db, w) {
    }
  }
}
