/** The promises of the finance core, read off the invariants and the history of a run. */
module FinanceTheorems {
  import opened Outcomes
  import opened DepositStatus
  import opened WalletState
  import opened WalletInvariant
  import opened FinanceRuns
  import opened FinanceHistory
  import FinanceRunsProof
  import OrderRefunds
  import SeedFunding
  import SeedFundingProof
  import DC = DepositCredit
  import DepositCreditProof
  import PD = PaymentDisputes
  import DP = PaymentDisputeProof
  import DT = DisputeTransitionProof

  const EMPTY: Database := Database(map[], [], map[], [], map[], map[], map[], map[], [], map[], [])

  lemma ReachableIsValid(steps: seq<Step>)
    ensures Valid(Run(EMPTY, steps))
  {
    hide Valid, Run;
    FinanceRunsProof.EmptyIsValid();
    FinanceRunsProof.RunKeepsValid(EMPTY, steps);
  }

  /** After any run every wallet agrees with its ledger, and its reserved money is accounted for. */
  lemma WalletSafety(steps: seq<Step>, walletId: Id)
    ensures var db := Run(EMPTY, steps); var w := WalletOf(db, walletId);
            && w.available >= 0 && w.reserved >= 0
            && w.available + w.reserved == LedgerSum(BalanceRows(walletId), db.ledger)
            && w.reserved == CaseSum(OpenHolds(walletId), db.cases) + ReservationSum(walletId, db.reservations)
            && LedgerSum(ChargebackRows(walletId), db.ledger) == -CaseSum(LostHolds(walletId), db.cases)
            && LedgerSum(DisputeHoldRows(walletId), db.ledger) == -CaseSum(ReservedHolds(walletId), db.cases)
  {
    hide Run;
    var db := Run(EMPTY, steps);
    ReachableIsValid(steps);
    assert BalancedIn(db, walletId);
    OpenHoldsNonNegative(walletId, db.cases);
    ReservationSumNonNegative(walletId, db.reservations);
  }

  /** The parity check of the seed passes for every wallet in every reachable state. */
  lemma ParityAlwaysHolds(steps: seq<Step>, walletId: Id, organizationId: Id, userId: Id)
    ensures SeedFunding.WalletLedgerParity(Run(EMPTY, steps), walletId)
    ensures SeedFunding.EnsureFunding(Run(EMPTY, steps), walletId, organizationId, userId) != Err(SeedFunding.PARITY_BROKEN)
  {
    hide Run, SeedFunding.EnsureFunding, Valid;
    ReachableIsValid(steps);
    SeedFundingProof.FundingNeverRefused(Run(EMPTY, steps), walletId, organizationId, userId);
  }

  /** Seed money is created once for the whole ledger, whichever wallet asks next and whatever happened in between. */
  lemma SeededOnce(db: Database, walletId: Id, organizationId: Id, userId: Id, steps: seq<Step>,
                   walletId2: Id, organizationId2: Id, userId2: Id)
    requires SeedFunding.EnsureFunding(db, walletId, organizationId, userId).Ok?
    ensures var later := Run(SeedFunding.EnsureFunding(db, walletId, organizationId, userId).value.0, steps);
            var again := SeedFunding.EnsureFunding(later, walletId2, organizationId2, userId2);
            again.Ok? ==> !again.value.1 && again.value.0.ledger == later.ledger
  {
    var db1 := SeedFunding.EnsureFunding(db, walletId, organizationId, userId).value.0;
    assert ReferenceTaken(db1.ledger, SeedFunding.SEED_REFERENCE) by {
      SeedFunding.SeededRow(db, walletId, organizationId, userId);
    }
    RunEvolves(db1, steps);
    hide Run, SeedFunding.ExactEvidence, SeedFunding.WalletLedgerParity, SeedFunding.NewRow, Collides;
    assert LedgerGrows(db1.ledger, Run(db1, steps).ledger);
  }

  /** After any run the status of a deposit is its own refund view or the view of its cases. */
  lemma DepositStatusIsProjection(steps: seq<Step>, id: Id)
    requires id in Run(EMPTY, steps).attempts
    ensures var db := Run(EMPTY, steps); var status := db.attempts[id].status;
            if !CreditBacked(status) then forall k :: 0 <= k < |db.cases| ==> db.cases[k].depositAttemptId != id
            else if RefundProjected(status) then true
            else if exists k :: 0 <= k < |db.cases| && db.cases[k].depositAttemptId == id && db.cases[k].status.LOST?
              then status == CHARGEBACK
            else if exists k :: 0 <= k < |db.cases| && db.cases[k].depositAttemptId == id && db.cases[k].status.OPEN?
              then status == DISPUTED
            else status == SUCCEEDED
  {
    hide Run;
    var db := Run(EMPTY, steps);
    ReachableIsValid(steps);
    assert AttemptLinked(id, db.attempts[id], db.ledger);
    forall k | 0 <= k < |db.cases| && db.cases[k].depositAttemptId == id ensures CreditBacked(db.attempts[id].status) {
      ValidCase(db, k);
    }
  }

  /** The ledger row that credits an attempt. */
  ghost predicate CreditRow(row: Transaction, id: Id) {
    row.kind.DEPOSIT? && row.providerRef.Some? && row.depositAttempt == Some(id)
  }

  /** Credit-backed, linked, and owning exactly one deposit row of exactly its credit, are the same thing. */
  lemma CreditedExactlyOnce(db: Database, id: Id)
    requires Valid(db) && id in db.attempts
    ensures CreditBacked(db.attempts[id].status) <==> db.attempts[id].ledgerTransactionId.Some?
    ensures CreditBacked(db.attempts[id].status) <==> exists i :: 0 <= i < |db.ledger| && CreditRow(db.ledger[i], id)
    ensures forall i :: 0 <= i < |db.ledger| && CreditRow(db.ledger[i], id) ==>
              db.attempts[id].ledgerTransactionId == Some(i) && db.ledger[i].amount == db.attempts[id].walletCredit
              && db.ledger[i].walletId == db.attempts[id].walletId
  {
    assert AttemptLinked(id, db.attempts[id], db.ledger);
    if CreditBacked(db.attempts[id].status) {
      assert CreditRow(db.ledger[db.attempts[id].ledgerTransactionId.value], id);
    }
    forall i | 0 <= i < |db.ledger| && CreditRow(db.ledger[i], id) ensures db.attempts[id].ledgerTransactionId == Some(i) {
      assert DepositOwned(db.ledger[i], i, db.attempts);
    }
  }

  /**
   Whatever evidence comes second, and whatever happened in between (disputes included), it
   finds the credit of the first: the same ledger row, and nothing is credited again.
   */
  lemma SecondCreditIsReplay(db: Database, a1: DC.Authority, f1: CreditFacts, n1: int, m1: bool, steps: seq<Step>,
                             a2: DC.Authority, f2: CreditFacts, n2: int, m2: bool)
    requires DC.Finalize(db, a1, f1, n1, m1).Ok?
    requires DC.Finalize(Run(DC.Finalize(db, a1, f1, n1, m1).value.0, steps), a2, f2, n2, m2).Ok?
    ensures var (db1, o1) := DC.Finalize(db, a1, f1, n1, m1).value;
            var (db2, o2) := DC.Finalize(Run(db1, steps), a2, f2, n2, m2).value;
            o1.depositAttemptId == o2.depositAttemptId ==>
              o2.ledgerTransactionId == o1.ledgerTransactionId && !o2.credited && o2.walletId == o1.walletId
              && db2.ledger == Run(db1, steps).ledger && db2.wallets == Run(db1, steps).wallets
  {
    hide DC.Finalize, Run;
    var o1, before1 := DepositCreditProof.FinalizeReads(db, a1, f1, n1, m1);
    var db1 := DC.Finalize(db, a1, f1, n1, m1).value.0;
    AuthorityEvolves(before1, a1, o1.depositAttemptId, n1);
    RunEvolves(db1, steps);
    var o2, before2 := DepositCreditProof.FinalizeReads(Run(db1, steps), a2, f2, n2, m2);
  }

  // ---------------------------------------------------------------- leases

  /** The claim number `attempts` of an inbox row is no longer held by anyone. */
  ghost predicate LeaseOver(db: Database, eventId: Id, attempts: nat) {
    && eventId in db.events
    && db.events[eventId].attempts >= attempts
    && (db.events[eventId].attempts == attempts ==> db.events[eventId].status != CLAIMED)
  }

  lemma LeaseStaysOver(db: Database, eventId: Id, attempts: nat, steps: seq<Step>)
    requires LeaseOver(db, eventId, attempts)
    ensures LeaseOver(Run(db, steps), eventId, attempts)
  {
    RunEvolves(db, steps);
    hide Run;
    assert EventEvolves(db.events[eventId], Run(db, steps).events[eventId]);
  }

  /** Committing, returning a lease, or losing it to a later claim ends that lease. */
  lemma LeaseEnds(db: Database, input: PD.Input, now: int, modeOk: bool, quarantine: bool)
    requires input.eventId in db.events && PD.EventExact(db.events[input.eventId], input)
    ensures PD.Transition(db, input, now, modeOk).Ok? ==>
              LeaseOver(PD.Transition(db, input, now, modeOk).value.0, input.eventId, input.claimAttempt)
    ensures LeaseOver(Next(db, ReturnEvent(input.eventId, quarantine)), input.eventId, input.claimAttempt)
  {
    if PD.Transition(db, input, now, modeOk).Ok? {
      hide PD.Transition, PD.Apply, PD.Projection, DP.Checked;
      var d, desired, between, o := DT.TransitionReads(db, input, now, modeOk);
      DT.ApplyFrame(db, d, desired, input);
    }
  }

  /** A dispute call, a webhook credit call: with a lease that is over neither changes any row, ever again. */
  lemma StaleCallsChangeNothing(db: Database, eventId: Id, attempts: nat, steps: seq<Step>, input: PD.Input,
                                lockedAt: int, facts: CreditFacts, now: int, modeOk: bool)
    requires LeaseOver(db, eventId, attempts)
    requires input.eventId == eventId && input.claimAttempt == attempts
    ensures var later := Run(db, steps);
            && Next(later, ApplyDispute(input, now, modeOk)) == later
            && Next(later, CreditDeposit(DC.WebhookEvent(eventId, DC.Leased(attempts, lockedAt)), facts, now, modeOk)) == later
  {
    LeaseStaysOver(db, eventId, attempts, steps);
    hide Run, PD.Apply, PD.FindLinkedDeposit, DC.CheckProviderFacts;
  }

  /** An inbox row commits one dispute transition in its whole life. */
  lemma InboxRowCommitsOnce(db: Database, first: PD.Input, now: int, modeOk: bool, steps: seq<Step>,
                            second: PD.Input, now2: int, modeOk2: bool)
    requires PD.Transition(db, first, now, modeOk).Ok? && second.eventId == first.eventId
    ensures PD.Transition(Run(PD.Transition(db, first, now, modeOk).value.0, steps), second, now2, modeOk2).Err?
  {
    var db1 := PD.Transition(db, first, now, modeOk).value.0;
    assert db1.events[first.eventId].status == PROCESSED by {
      hide PD.Transition, PD.Apply, PD.Projection, DP.Checked;
      var d, desired, between, o := DT.TransitionReads(db, first, now, modeOk);
    }
    RunEvolves(db1, steps);
    hide Run, PD.Apply, PD.FindLinkedDeposit;
    assert first.eventId in db1.events && EventEvolves(db1.events[first.eventId], Run(db1, steps).events[first.eventId]);
  }

  /** The claim number `attempts` of a recovery is no longer held by anyone. */
  ghost predicate RecoveryOver(db: Database, recoveryId: Id, attempts: nat) {
    && recoveryId in db.recoveries
    && db.recoveries[recoveryId].attempts >= attempts
    && (db.recoveries[recoveryId].attempts == attempts ==> db.recoveries[recoveryId].status != CLAIMED)
  }

  /** A recovery claim is spent by its credit or its return, and changes nothing in the rest of any run. */
  lemma RecoveryLeaseIsFenced(db: Database, recoveryId: Id, evidenceId: Id, attempts: nat, lockedAt: int, f: CreditFacts,
                              now: int, modeOk: bool, spend: Step, steps: seq<Step>, f2: CreditFacts, now2: int, modeOk2: bool)
    requires DC.CheckAuthority(db, DC.ByRecovery(recoveryId, evidenceId, attempts, lockedAt), f).Ok?
    requires if spend.ReturnRecovery? then spend.recoveryId == recoveryId
             else spend == CreditDeposit(DC.ByRecovery(recoveryId, evidenceId, attempts, lockedAt), f, now, modeOk)
                  && DC.Finalize(db, spend.authority, f, now, modeOk).Ok?
    ensures RecoveryOver(Next(db, spend), recoveryId, attempts)
    ensures var later := Run(Next(db, spend), steps);
            Next(later, CreditDeposit(DC.ByRecovery(recoveryId, evidenceId, attempts, lockedAt), f2, now2, modeOk2)) == later
  {
    if spend.CreditDeposit? {
      var o, before := DepositCreditProof.FinalizeReads(db, spend.authority, f, now, modeOk);
    }
    var db1 := Next(db, spend);
    RunEvolves(db1, steps);
    hide Run, DC.CheckProviderFacts, DC.AttemptExact, DC.ExactLedgerReplay, DC.Credited, DC.CompleteAuthority;
    assert RecoveryEvolves(db1.recoveries[recoveryId], Run(db1, steps).recoveries[recoveryId]);
  }

  // ---------------------------------------------------------------- dispute bounds

  /** After any run the cases of a deposit stay within it, and each case accounts for all of its amount. */
  lemma DisputeBounds(steps: seq<Step>, k: nat)
    requires k < |Run(EMPTY, steps).cases|
    ensures var db := Run(EMPTY, steps); var c := db.cases[k];
            && c.depositTransactionId < |db.ledger| && db.ledger[c.depositTransactionId].kind.DEPOSIT?
            && CaseSum(DisputedOf(c.depositTransactionId), db.cases) <= db.ledger[c.depositTransactionId].amount
            && 0 <= c.held && 0 <= c.shortfall && c.held + c.shortfall == c.amount && 0 < c.amount
            && c.exposure == (if c.status.WON? then 0 else c.shortfall)
            && db.ledger[c.depositTransactionId].depositAttempt == Some(c.depositAttemptId)
  {
    hide Run;
    ReachableIsValid(steps);
    var db := Run(EMPTY, steps);
    ValidCase(db, k);
    assert AttemptLinked(db.cases[k].depositAttemptId, db.attempts[db.cases[k].depositAttemptId], db.ledger);
  }

  /** No event is the evidence of two transitions. */
  lemma EvidenceIsDistinct(steps: seq<Step>, k: nat, l: nat)
    requires k < |Run(EMPTY, steps).cases| && l < |Run(EMPTY, steps).cases|
    ensures var db := Run(EMPTY, steps);
            && (db.cases[k].openedBy.Some? ==> db.cases[k].openedBy != db.cases[l].resolvedBy)
            && (k != l && db.cases[k].openedBy.Some? ==> db.cases[k].openedBy != db.cases[l].openedBy)
            && (k != l && db.cases[k].resolvedBy.Some? ==> db.cases[k].resolvedBy != db.cases[l].resolvedBy)
  {
    hide Run;
    ReachableIsValid(steps);
    var db := Run(EMPTY, steps);
    assert CaseEvidence(db.cases[k], k, db.events, None) && CaseEvidence(db.cases[l], l, db.events, None);
  }

  /** A recorded case keeps its booking, and its outcome once it has one, for the rest of any run. */
  lemma CaseIsImmutable(db: Database, steps: seq<Step>, k: nat)
    requires k < |db.cases|
    ensures var c := db.cases[k]; var later := Run(db, steps);
            && k < |later.cases| && DP.SameBooking(c, later.cases[k])
            && (!c.status.OPEN? ==> later.cases[k].status == c.status && later.cases[k].exposure == c.exposure
                                    && later.cases[k].providerStatus == c.providerStatus)
  {
    RunEvolves(db, steps);
    hide Run;
    assert CaseEvolves(db.cases[k], Run(db, steps).cases[k]);
  }

  // ---------------------------------------------------------------- single calls

  /** A close that contradicts the recorded outcome changes nothing at all. */
  lemma ContradictionChangesNothing(db: Database, input: PD.Input, k: nat, now: int, modeOk: bool)
    requires PD.FindCase(db.cases, input.facts.disputeId) == Some(k)
    requires !db.cases[k].status.OPEN? && input.facts.eventType.DisputeClosed?
    requires PD.TargetStatus(input.facts) != Ok(db.cases[k].status)
    ensures PD.Transition(db, input, now, modeOk).Err?
    ensures Next(db, ApplyDispute(input, now, modeOk)) == db
  {
    hide PD.CompleteEvent, PD.FindDeposit, PD.FindCase, PD.CaseExact, PD.DepositExact;
  }

  /** A refunded order cannot be refunded again. */
  lemma RefundedOnce(db: Database, orderId: Id, walletId: Id, input: OrderRefunds.RefundInput, steps: seq<Step>,
                     walletId2: Id, input2: OrderRefunds.RefundInput)
    requires orderId in db.orders
    requires OrderRefunds.Refund(db, orderId, db.orders[orderId], walletId, input).Ok?
    ensures var later := Run(OrderRefunds.Refund(db, orderId, db.orders[orderId], walletId, input).value, steps);
            Next(later, RefundOrder(orderId, walletId2, input2)) == later
  {
    var db1 := OrderRefunds.Refund(db, orderId, db.orders[orderId], walletId, input).value;
    RunEvolves(db1, steps);
    hide Run;
  }

  /** An event that was processed in an earlier delivery never authorises a second credit. */
  lemma ProcessedEventOnlyReplays(db: Database, eventId: Id, lease: DC.Lease, f: CreditFacts, now: int, modeOk: bool)
    requires Valid(db) && lease.Seen?
    requires DC.Finalize(db, DC.WebhookEvent(eventId, lease), f, now, modeOk).Ok?
    ensures DC.Finalize(db, DC.WebhookEvent(eventId, lease), f, now, modeOk).value.0 == db
    ensures !DC.Finalize(db, DC.WebhookEvent(eventId, lease), f, now, modeOk).value.1.credited
  {
    var o, before := DepositCreditProof.FinalizeReads(db, DC.WebhookEvent(eventId, lease), f, now, modeOk);
    hide DC.Finalize;
    assert EventLinked(db.events[eventId], db.cases, db.attempts);
  }
}
