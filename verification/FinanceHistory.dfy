/** What no step of a run may rewrite, and what follows for two calls of the same run. */
module FinanceHistory {
  import opened Outcomes
  import opened DepositStatus
  import opened WalletState
  import opened WalletInvariant
  import opened FinanceRuns
  import FinanceRunsProof
  import OrderRefunds
  import SeedFunding
  import DC = DepositCredit
  import DepositCreditProof
  import PD = PaymentDisputes
  import DP = PaymentDisputeProof
  import DT = DisputeTransitionProof

  // ---------------------------------------------------------------- how rows may evolve

  /** The booking of a case is immutable, opening evidence is attached once, and WON and LOST are final. */
  ghost predicate CaseEvolves(c: PaymentDispute, c': PaymentDispute) {
    && DP.SameBooking(c, c')
    && (c.openedBy.Some? ==> c'.openedBy == c.openedBy)
    && (!c.status.OPEN? ==>
          && c'.status == c.status && c'.providerStatus == c.providerStatus && c'.exposure == c.exposure
          && c'.resolvedBy == c.resolvedBy && c'.resolutionTransactionId == c.resolutionTransactionId)
  }

  /** The command of an attempt never changes, and its credit is never undone or moved. */
  ghost predicate AttemptEvolves(a: DepositAttempt, a': DepositAttempt) {
    && a'.walletId == a.walletId && a'.amount == a.amount && a'.walletCredit == a.walletCredit
    && a'.providerSessionId == a.providerSessionId
    && (a.ledgerTransactionId.Some? ==> a'.ledgerTransactionId == a.ledgerTransactionId)
  }

  /** A lease that is over stays over: only a fresh claim, with a higher counter, opens the next one. */
  ghost predicate EventEvolves(e: ProviderEvent, e': ProviderEvent) {
    && e'.attempts >= e.attempts
    && (e'.attempts == e.attempts && e.status != CLAIMED ==> e'.status != CLAIMED)
    && (e'.attempts == e.attempts && e.status == CLAIMED && e'.status == CLAIMED ==> e'.lockedAt == e.lockedAt)
    && (e.status == PROCESSED ==> e' == e)
  }

  ghost predicate RecoveryEvolves(r: Recovery, r': Recovery) {
    && r'.attempts >= r.attempts && r'.depositAttemptId == r.depositAttemptId
    && (r'.attempts == r.attempts && r.status != CLAIMED ==> r'.status != CLAIMED)
    && (r.status == PROCESSED ==> r' == r)
  }

  ghost predicate LedgerGrows(rows: seq<Transaction>, rows': seq<Transaction>) {
    |rows| <= |rows'| && forall i :: 0 <= i < |rows| ==> rows'[i] == rows[i]
  }

  ghost predicate CasesEvolve(cases: seq<PaymentDispute>, cases': seq<PaymentDispute>) {
    |cases| <= |cases'| && forall k :: 0 <= k < |cases| ==> CaseEvolves(cases[k], cases'[k])
  }

  ghost predicate AttemptsEvolve(attempts: Attempts, attempts': Attempts) {
    forall id :: id in attempts ==> id in attempts' && AttemptEvolves(attempts[id], attempts'[id])
  }

  ghost predicate EventsEvolve(events: Events, events': Events) {
    forall id :: id in events ==> id in events' && EventEvolves(events[id], events'[id])
  }

  ghost predicate RecoveriesEvolve(rs: map<Id, Recovery>, rs': map<Id, Recovery>) {
    forall id :: id in rs ==> id in rs' && RecoveryEvolves(rs[id], rs'[id])
  }

  /** A refunded order stays refunded. */
  ghost predicate OrdersEvolve(orders: map<Id, Order>, orders': map<Id, Order>) {
    forall id :: id in orders ==> id in orders' && (orders[id].status.ORDER_REFUNDED? ==> orders'[id].status.ORDER_REFUNDED?)
  }

  ghost predicate Evolves(db: Database, db': Database) {
    && LedgerGrows(db.ledger, db'.ledger)
    && CasesEvolve(db.cases, db'.cases)
    && AttemptsEvolve(db.attempts, db'.attempts)
    && EventsEvolve(db.events, db'.events)
    && RecoveriesEvolve(db.recoveries, db'.recoveries)
    && OrdersEvolve(db.orders, db'.orders)
  }

  lemma EvolvesTransitive(a: Database, b: Database, c: Database)
    requires Evolves(a, b) && Evolves(b, c)
    ensures Evolves(a, c)
  {
  }

  lemma EvolvesReflexive(db: Database)
    ensures Evolves(db, db)
  {
  }

  /** A table that is the same evolves; only the others have to be shown to. */
  lemma EvolvesWhere(db: Database, db': Database)
    requires db'.ledger == db.ledger || LedgerGrows(db.ledger, db'.ledger)
    requires db'.cases == db.cases || CasesEvolve(db.cases, db'.cases)
    requires db'.attempts == db.attempts || AttemptsEvolve(db.attempts, db'.attempts)
    requires db'.events == db.events || EventsEvolve(db.events, db'.events)
    requires db'.recoveries == db.recoveries || RecoveriesEvolve(db.recoveries, db'.recoveries)
    requires db'.orders == db.orders || OrdersEvolve(db.orders, db'.orders)
    ensures Evolves(db, db')
  {
    EvolvesReflexive(db);
  }

  lemma EventPut(events: Events, id: Id, e: ProviderEvent)
    requires id in events ==> EventEvolves(events[id], e)
    ensures EventsEvolve(events, events[id := e])
  {
  }

  lemma AttemptPut(attempts: Attempts, id: Id, a: DepositAttempt)
    requires id in attempts ==> AttemptEvolves(attempts[id], a)
    ensures AttemptsEvolve(attempts, attempts[id := a])
  {
  }

  lemma RecoveryPut(rs: map<Id, Recovery>, id: Id, r: Recovery)
    requires id in rs ==> RecoveryEvolves(rs[id], r)
    ensures RecoveriesEvolve(rs, rs[id := r])
  {
  }

  lemma AuthorityEvolves(db: Database, authority: DC.Authority, id: Id, now: int)
    requires DC.CompleteAuthority(db, authority, id, now).Ok?
    ensures Evolves(db, DC.CompleteAuthority(db, authority, id, now).value)
  {
    hide Evolves, LedgerGrows, CasesEvolve, AttemptsEvolve, EventsEvolve, RecoveriesEvolve, OrdersEvolve;
    var db' := DC.CompleteAuthority(db, authority, id, now).value;
    match authority {
      case WebhookEvent(eventId, lease) =>
        if lease.Leased? {
          EventPut(db.events, eventId, db'.events[eventId]);
        }
      case ByRecovery(recoveryId, _, _, _) =>
        RecoveryPut(db.recoveries, recoveryId, db'.recoveries[recoveryId]);
    }
    EvolvesWhere(db, db');
  }

  lemma CreditedEvolves(db: Database, f: CreditFacts, id: Id)
    requires id in db.attempts && db.attempts[id].ledgerTransactionId.None?
    ensures Evolves(db, DC.Credited(db, id, f))
  {
    AttemptPut(db.attempts, id, DC.Credited(db, id, f).attempts[id]);
    EvolvesWhere(db, DC.Credited(db, id, f));
  }

  lemma CreditEvolves(db: Database, authority: DC.Authority, f: CreditFacts, now: int, modeOk: bool)
    requires DC.Finalize(db, authority, f, now, modeOk).Ok?
    ensures Evolves(db, DC.Finalize(db, authority, f, now, modeOk).value.0)
  {
    hide Evolves, DC.Finalize, DC.CompleteAuthority, DC.Credited;
    var o, before := DepositCreditProof.FinalizeReads(db, authority, f, now, modeOk);
    if o.credited {
      CreditedEvolves(db, f, o.depositAttemptId);
      AuthorityEvolves(before, authority, o.depositAttemptId, now);
      EvolvesTransitive(db, before, DC.Finalize(db, authority, f, now, modeOk).value.0);
    } else {
      AuthorityEvolves(db, authority, o.depositAttemptId, now);
    }
  }

  lemma ResolveEvolves(db: Database, k: nat, desired: DisputeStatus, input: PD.Input)
    requires k < |db.cases| && db.cases[k].status.OPEN? && PD.ResolveOpen(db, k, desired, input).Ok?
    ensures Evolves(db, PD.ResolveOpen(db, k, desired, input).value)
  {
    hide Evolves, Collides, AttemptsEvolve, EventsEvolve, RecoveriesEvolve, OrdersEvolve;
    EvolvesWhere(db, PD.ResolveOpen(db, k, desired, input).value);
  }

  lemma BookEvolves(db: Database, d: PD.LinkedDeposit, desired: DisputeStatus, input: PD.Input)
    requires d.row < |db.ledger| && PD.BookCase(db, d, desired, input).Ok?
    ensures Evolves(db, PD.BookCase(db, d, desired, input).value)
  {
    hide Evolves, Collides, CaseSum, PD.NewCase, AttemptsEvolve, EventsEvolve, RecoveriesEvolve, OrdersEvolve;
    EvolvesWhere(db, PD.BookCase(db, d, desired, input).value);
  }

  lemma CasePut(cases: seq<PaymentDispute>, k: nat, c: PaymentDispute)
    requires k < |cases| && CaseEvolves(cases[k], c)
    ensures CasesEvolve(cases, cases[k := c])
  {
    forall i | 0 <= i < |cases| ensures CaseEvolves(cases[i], cases[i]) {}
  }

  lemma AttachEvolves(db: Database, k: nat, eventId: Id)
    requires k < |db.cases|
    ensures Evolves(db, PD.AttachOpening(db, k, eventId))
  {
    hide Evolves, LedgerGrows, CasesEvolve, AttemptsEvolve, EventsEvolve, RecoveriesEvolve, OrdersEvolve;
    var c := db.cases[k];
    CasePut(db.cases, k, c.(openedBy := if c.openedBy.Some? then c.openedBy else Some(eventId),
                            version := if c.openedBy.Some? then c.version else c.version + 1));
    EvolvesWhere(db, PD.AttachOpening(db, k, eventId));
  }

  lemma BranchEvolves(db: Database, d: PD.LinkedDeposit, desired: DisputeStatus, input: PD.Input)
    requires d.row < |db.ledger| && PD.Apply(db, d, desired, input).Ok?
    ensures Evolves(db, PD.Apply(db, d, desired, input).value.0)
  {
    hide Evolves, PD.FindCase, PD.BookCase, PD.ResolveOpen, PD.CaseExact, PD.AttachOpening;
    match PD.FindCase(db.cases, input.facts.disputeId)
    case None => BookEvolves(db, d, desired, input);
    case Some(k) =>
      if desired.OPEN? {
        AttachEvolves(db, k, input.eventId);
      } else if db.cases[k].status.OPEN? {
        ResolveEvolves(db, k, desired, input);
      } else {
        EvolvesReflexive(db);
      }
  }

  lemma CompletionEvolves(db: Database, id: Id, k: nat, input: PD.Input, now: int)
    requires PD.CompleteEvent(db, id, k, input, now).Ok?
    ensures Evolves(db, PD.CompleteEvent(db, id, k, input, now).value)
  {
    hide Evolves, LedgerGrows, CasesEvolve, AttemptsEvolve, EventsEvolve, RecoveriesEvolve, OrdersEvolve, PD.Projection;
    var db' := PD.CompleteEvent(db, id, k, input, now).value;
    EventPut(db.events, input.eventId, db'.events[input.eventId]);
    AttemptPut(db.attempts, id, db'.attempts[id]);
    EvolvesWhere(db, db');
  }

  lemma DisputeEvolves(db: Database, input: PD.Input, now: int, modeOk: bool)
    requires PD.Transition(db, input, now, modeOk).Ok?
    ensures Evolves(db, PD.Transition(db, input, now, modeOk).value.0)
  {
    hide Evolves, PD.Transition, PD.Apply, PD.CompleteEvent, DP.Checked;
    var d, desired, between, o := DT.TransitionReads(db, input, now, modeOk);
    BranchEvolves(db, d, desired, input);
    CompletionEvolves(between, d.attemptId, o.caseId, input, now);
    EvolvesTransitive(db, between, PD.Transition(db, input, now, modeOk).value.0);
  }

  lemma OrderStepEvolves(db: Database, step: Step)
    requires step.ReserveForOrder? || step.PayOrder? || step.OpenOrder?
    ensures Evolves(db, Next(db, step))
  {
    hide Evolves, Collides, OrderRefunds.SpendBlocked, OrderRefunds.Refund, DC.Finalize, PD.Transition, SeedFunding.EnsureFunding,
      LedgerGrows, CasesEvolve, AttemptsEvolve, EventsEvolve, RecoveriesEvolve;
    var db' := Next(db, step);
    if db'.ledger != db.ledger {
      OneRowMore(db.ledger, db'.ledger[|db.ledger|]);
    }
    EvolvesWhere(db, db');
  }

  lemma RefundEvolves(db: Database, step: Step)
    requires step.RefundOrder?
    ensures Evolves(db, Next(db, step))
  {
    hide Evolves, Collides, LedgerGrows, CasesEvolve, AttemptsEvolve, EventsEvolve, RecoveriesEvolve, OrderRefunds.Cancelled;
    var db' := Next(db, step);
    if db' != db {
      OneRowMore(db.ledger, db'.ledger[|db.ledger|]);
    }
    EvolvesWhere(db, db');
  }

  lemma SeedEvolves(db: Database, step: Step)
    requires step.SeedWallet?
    ensures Evolves(db, Next(db, step))
  {
    hide Evolves, LedgerGrows, CasesEvolve, AttemptsEvolve, EventsEvolve, RecoveriesEvolve, OrdersEvolve,
      SeedFunding.EnsureFunding;
    EvolvesReflexive(db);
    if SeedFunding.EnsureFunding(db, step.walletId, step.organizationId, step.userId).Ok? {
      SeedFunding.FundingWrites(db, step.walletId, step.organizationId, step.userId);
      OneRowMore(db.ledger, SeedFunding.NewRow(step.walletId));
      EvolvesWhere(db, Next(db, step));
    }
  }

  lemma OneRowMore(rows: seq<Transaction>, row: Transaction)
    ensures LedgerGrows(rows, rows + [row])
  {
  }

  /** The lease of an inbox row is held by no more than its claim counter says. */
  lemma InboxStepEvolves(db: Database, step: Step)
    requires step.ReceiveEvent? || step.ClaimEvent? || step.ReturnEvent?
    ensures Evolves(db, Next(db, step))
  {
    hide Evolves, LedgerGrows, CasesEvolve, AttemptsEvolve, EventsEvolve, RecoveriesEvolve, OrdersEvolve;
    var db' := Next(db, step);
    if db' != db {
      EventPut(db.events, step.eventId, db'.events[step.eventId]);
    }
    EvolvesWhere(db, db');
  }

  lemma QueueStepEvolves(db: Database, step: Step)
    requires step.StartRecovery? || step.ClaimRecovery? || step.ReturnRecovery? || step.RecordEvidence? || step.OpenWallet?
    ensures Evolves(db, Next(db, step))
  {
    hide Evolves, LedgerGrows, CasesEvolve, AttemptsEvolve, EventsEvolve, RecoveriesEvolve, OrdersEvolve, DC.Finalize, PD.Transition,
      OrderRefunds.Refund, OrderRefunds.Reserve, OrderRefunds.PayFromReserved, SeedFunding.EnsureFunding;
    var db' := Next(db, step);
    if db'.recoveries != db.recoveries {
      RecoveryPut(db.recoveries, step.recoveryId, db'.recoveries[step.recoveryId]);
    }
    EvolvesWhere(db, db');
  }

  lemma AttemptStepEvolves(db: Database, step: Step)
    requires step.OpenAttempt? || step.MoveUncredited? || step.PublishRefund?
    ensures Evolves(db, Next(db, step))
  {
    hide Evolves, LedgerGrows, CasesEvolve, AttemptsEvolve, EventsEvolve, RecoveriesEvolve, OrdersEvolve;
    var db' := Next(db, step);
    if db' != db {
      AttemptPut(db.attempts, step.attemptId, db'.attempts[step.attemptId]);
    }
    EvolvesWhere(db, db');
  }

  lemma NextEvolves(db: Database, step: Step)
    ensures Evolves(db, Next(db, step))
  {
    hide Evolves, DC.Finalize, PD.Transition, SeedFunding.EnsureFunding;
    EvolvesReflexive(db);
    match step
    case CreditDeposit(authority, facts, now, modeOk) =>
      if DC.Finalize(db, authority, facts, now, modeOk).Ok? {
        CreditEvolves(db, authority, facts, now, modeOk);
      }
    case ApplyDispute(input, now, modeOk) =>
      if PD.Transition(db, input, now, modeOk).Ok? {
        DisputeEvolves(db, input, now, modeOk);
      }
    case RefundOrder(_, _, _) => RefundEvolves(db, step);
    case ReserveForOrder(_, _, _) => OrderStepEvolves(db, step);
    case PayOrder(_) => OrderStepEvolves(db, step);
    case SeedWallet(_, _, _) => SeedEvolves(db, step);
    case OpenOrder(_, _) => OrderStepEvolves(db, step);
    case ReceiveEvent(_, _) => InboxStepEvolves(db, step);
    case ClaimEvent(_, _) => InboxStepEvolves(db, step);
    case ReturnEvent(_, _) => InboxStepEvolves(db, step);
    case OpenAttempt(_, _) => AttemptStepEvolves(db, step);
    case MoveUncredited(_, _) => AttemptStepEvolves(db, step);
    case PublishRefund(_, _) => AttemptStepEvolves(db, step);
    case StartRecovery(_, _) => QueueStepEvolves(db, step);
    case ClaimRecovery(_, _) => QueueStepEvolves(db, step);
    case ReturnRecovery(_, _) => QueueStepEvolves(db, step);
    case RecordEvidence(_, _) => QueueStepEvolves(db, step);
    case OpenWallet(_, _, _) => QueueStepEvolves(db, step);
    case AssignOrder(_, _) => EvolvesWhere(db, Next(db, step));
    case MoveAssignment(_, _) => EvolvesWhere(db, Next(db, step));
  }

  /** Nothing that a run has recorded is rewritten later in the run. */
  lemma {:induction false} RunEvolves(db: Database, steps: seq<Step>)
    ensures Evolves(db, Run(db, steps))
    decreases |steps|
  {
    hide Evolves, Next;
    if steps == [] {
      EvolvesReflexive(db);
    } else {
      NextEvolves(db, steps[0]);
      RunEvolves(Next(db, steps[0]), steps[1..]);
      EvolvesTransitive(db, Next(db, steps[0]), Run(db, steps));
    }
  }
}
