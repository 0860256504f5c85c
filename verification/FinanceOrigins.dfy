/**
 Where money and cases come from. Every provider-backed row of the ledger, and every recorded
 dispute, goes back to one step of the run whose evidence stood in the tables then.
 */
module FinanceOrigins {
  import opened Outcomes
  import opened DepositStatus
  import opened WalletState
  import opened CreditEffects
  import opened FinanceRuns
  import FinanceHistory
  import FinanceRunsProof
  import WalletInvariant
  import OrderRefunds
  import SeedFunding
  import DC = DepositCredit
  import DepositCreditProof
  import PD = PaymentDisputes
  import DP = PaymentDisputeProof
  import DT = DisputeTransitionProof

  // ---------------------------------------------------------------- what authorises a credit

  ghost predicate CreditOrigin(db: Database, step: Step, row: Transaction) {
    && step.CreditDeposit?
    && row.depositAttempt.Some? && row.depositAttempt.value in db.attempts
    && var id := row.depositAttempt.value; var a := db.attempts[id]; var f := step.facts;
    && PaidInFull(f) && NamesAttempt(f, id, a) && Authorises(db, step.authority, f, id) && Unused(db.ledger, f)
    && a.status in {CREATED, PENDING_CUSTOMER_ACTION, PROCESSING, FAILED, EXPIRED}
    && row.walletId == a.walletId && row.amount == f.checkoutAmount && row.currency == "USD" && row.kind.DEPOSIT?
    && row.reference == TextReference(f.sessionId) && row.providerRef == Some(f.paymentId)
  }

  lemma CreditIsAuthorised(db: Database, authority: DC.Authority, f: CreditFacts, now: int, modeOk: bool)
    requires WalletInvariant.Valid(db) && DC.Finalize(db, authority, f, now, modeOk).Ok?
    requires DC.Finalize(db, authority, f, now, modeOk).value.1.credited
    ensures var id := DC.Finalize(db, authority, f, now, modeOk).value.1.depositAttemptId;
            id in db.attempts && CreditOrigin(db, CreditDeposit(authority, f, now, modeOk), DC.DepositRow(db.attempts[id], id, f))
  {
    CreditsExactly(db, authority, f, now, modeOk);
    hide WalletInvariant.Valid, DC.Finalize, DC.Replays, DC.Credited, DC.AttemptExact, PaidInFull, NamesAttempt, Authorises, Unused;
    var o, before := DepositCreditProof.FinalizeReads(db, authority, f, now, modeOk);
    CommitsWhen(db, authority, f, now, modeOk);
  }

  /** Only a credit writes a provider-backed row. */
  lemma RowOrigin(db: Database, step: Step, i: nat)
    requires WalletInvariant.Valid(db) && |db.ledger| <= i < |Next(db, step).ledger|
    requires Next(db, step).ledger[i].providerRef.Some?
    ensures CreditOrigin(db, step, Next(db, step).ledger[i])
  {
    hide WalletInvariant.Valid, DC.Finalize, PD.Transition, SeedFunding.EnsureFunding, CreditOrigin, Collides;
    match step
    case CreditDeposit(authority, facts, now, modeOk) =>
      if DC.Finalize(db, authority, facts, now, modeOk).Ok? {
        CreditRows(db, authority, facts, now, modeOk);
        if DC.Finalize(db, authority, facts, now, modeOk).value.1.credited {
          CreditIsAuthorised(db, authority, facts, now, modeOk);
        }
      }
    case ApplyDispute(input, now, modeOk) =>
      if PD.Transition(db, input, now, modeOk).Ok? {
        DisputeRows(db, input, now, modeOk);
      }
    case SeedWallet(walletId, organizationId, userId) =>
      if SeedFunding.EnsureFunding(db, walletId, organizationId, userId).Ok? {
        SeedFunding.FundingWrites(db, walletId, organizationId, userId);
      }
    case _ =>
  }

  lemma CreditRows(db: Database, authority: DC.Authority, f: CreditFacts, now: int, modeOk: bool)
    requires DC.Finalize(db, authority, f, now, modeOk).Ok?
    ensures var (db', o) := DC.Finalize(db, authority, f, now, modeOk).value;
            && o.depositAttemptId in db.attempts
            && db'.ledger == if o.credited then db.ledger + [DC.DepositRow(db.attempts[o.depositAttemptId], o.depositAttemptId, f)]
                             else db.ledger
  {
    hide DC.Finalize, DC.Replays, DC.AttemptExact, DepositCreditProof.Admitted;
    var o, before := DepositCreditProof.FinalizeReads(db, authority, f, now, modeOk);
  }

  /** At most one row is appended, and it carries no provider reference. */
  ghost predicate PlainGrowth(rows: seq<Transaction>, rows': seq<Transaction>) {
    rows' == rows
    || (|rows'| == |rows| + 1 && rows' == rows + [rows'[|rows|]] && rows'[|rows|].providerRef.None?)
  }

  lemma BookWrites(db: Database, d: PD.LinkedDeposit, desired: DisputeStatus, input: PD.Input)
    requires d.row < |db.ledger| && PD.BookCase(db, d, desired, input).Ok?
    ensures var db' := PD.BookCase(db, d, desired, input).value;
            db'.cases == db.cases + [PD.NewCase(db, d, desired, input)] && PlainGrowth(db.ledger, db'.ledger)
  {
    hide Collides, CaseSum;
  }

  lemma ResolveWrites(db: Database, k: nat, desired: DisputeStatus, input: PD.Input)
    requires k < |db.cases| && PD.ResolveOpen(db, k, desired, input).Ok?
    ensures var db' := PD.ResolveOpen(db, k, desired, input).value;
            |db'.cases| == |db.cases| && PlainGrowth(db.ledger, db'.ledger)
  {
    hide Collides;
  }

  /** A first event books one case; any other event leaves the list of cases as long as it was. */
  lemma ApplyWrites(db: Database, d: PD.LinkedDeposit, desired: DisputeStatus, input: PD.Input)
    requires d.row < |db.ledger| && PD.Apply(db, d, desired, input).Ok?
    ensures var db' := PD.Apply(db, d, desired, input).value.0;
            && PlainGrowth(db.ledger, db'.ledger)
            && if PD.FindCase(db.cases, input.facts.disputeId).None?
               then db'.cases == db.cases + [PD.NewCase(db, d, desired, input)]
               else |db'.cases| == |db.cases|
  {
    hide PD.BookCase, PD.ResolveOpen, PD.NewCase, PD.FindCase, PD.CaseExact;
    match PD.FindCase(db.cases, input.facts.disputeId)
    case None => BookWrites(db, d, desired, input);
    case Some(k) =>
      if !desired.OPEN? && db.cases[k].status.OPEN? {
        ResolveWrites(db, k, desired, input);
      }
  }

  lemma CompletionWritesElsewhere(db: Database, attemptId: Id, k: nat, input: PD.Input, now: int)
    requires PD.CompleteEvent(db, attemptId, k, input, now).Ok?
    ensures var db' := PD.CompleteEvent(db, attemptId, k, input, now).value; db'.ledger == db.ledger && db'.cases == db.cases
  {
    hide PD.Projection;
  }

  lemma DisputeRows(db: Database, input: PD.Input, now: int, modeOk: bool)
    requires PD.Transition(db, input, now, modeOk).Ok?
    ensures PlainGrowth(db.ledger, PD.Transition(db, input, now, modeOk).value.0.ledger)
  {
    hide PD.Transition, PD.Apply, PD.CompleteEvent, DP.Checked;
    var d, desired, between, o := DT.TransitionReads(db, input, now, modeOk);
    ApplyWrites(db, d, desired, input);
    CompletionWritesElsewhere(between, d.attemptId, o.caseId, input, now);
  }

  /** A run can be taken apart before its last step. */
  lemma RunLast(db: Database, steps: seq<Step>)
    requires steps != []
    ensures Run(db, steps) == Next(Run(db, steps[..|steps| - 1]), steps[|steps| - 1])
  {
    hide Next;
    var n := |steps| - 1;
    RunAppend(db, steps[..n], [steps[n]]);
    assert steps[..n] + [steps[n]] == steps;
    assert Run(Run(db, steps[..n]), [steps[n]]) == Next(Run(db, steps[..n]), steps[n]);
  }

  /**
   Every provider-backed row that a run adds to the ledger was written by one of its credit steps, with
   paid-in-full facts that name the attempt, under evidence that was claimed at that moment.
   */
  lemma {:induction false} DepositWasAuthorised(db: Database, steps: seq<Step>, i: nat)
    requires WalletInvariant.Valid(db) && |db.ledger| <= i < |Run(db, steps).ledger|
    requires Run(db, steps).ledger[i].providerRef.Some?
    ensures exists n :: 0 <= n < |steps| && CreditOrigin(Run(db, steps[..n]), steps[n], Run(db, steps).ledger[i])
    decreases |steps|
  {
    hide Next, CreditOrigin, WalletInvariant.Valid;
    if steps != [] {
      var last := |steps| - 1;
      var front := steps[..last];
      var before := Run(db, front);
      RunLast(db, steps);
      FinanceRunsProof.RunKeepsValid(db, front);
      FinanceHistory.NextEvolves(before, steps[last]);
      if i < |before.ledger| {
        assert before.ledger[i] == Run(db, steps).ledger[i];
        DepositWasAuthorised(db, front, i);
        var n :| 0 <= n < |front| && CreditOrigin(Run(db, front[..n]), front[n], before.ledger[i]);
        assert front[..n] == steps[..n] && front[n] == steps[n];
      } else {
        RowOrigin(before, steps[last], i);
      }
    }
  }

  // ---------------------------------------------------------------- what authorises a case

  /** A claimed dispute event whose stored facts are those of the case, about a deposit of at least its amount. */
  ghost predicate CaseOrigin(db: Database, step: Step, c: PaymentDispute) {
    && step.ApplyDispute? && step.input.eventId in db.events
    && var e := db.events[step.input.eventId]; var f := step.input.facts;
    && e.status == CLAIMED && e.attempts == step.input.claimAttempt && e.lockedAt == Some(step.input.claimLockedAt)
    && e.provider == STRIPE && e.objectId == c.disputeId && e.paymentId == Some(c.paymentId) && e.chargeId == c.chargeId
    && e.amountMinor == Some(c.amount) && e.currency == Some(c.currency) && e.fingerprint == Some(f)
    && c.depositTransactionId < |db.ledger|
    && var row := db.ledger[c.depositTransactionId];
    && row.kind.DEPOSIT? && row.providerRef == Some(c.paymentId) && row.depositAttempt == Some(c.depositAttemptId)
    && row.walletId == c.walletId && c.amount <= row.amount
    && (e.eventType.DisputeCreated? ==> c.openedBy == Some(step.input.eventId) && c.status.OPEN?)
    && (!e.eventType.DisputeCreated? ==> c.resolvedBy == Some(step.input.eventId) && !c.status.OPEN? && c.openedBy.None?)
  }

  lemma BookedCaseOrigin(db: Database, input: PD.Input, now: int, modeOk: bool, d: PD.LinkedDeposit, desired: DisputeStatus)
    requires DP.Checked(db, d, desired, input) && d.row < |db.ledger| && input.fingerprint == input.facts
    ensures CaseOrigin(db, ApplyDispute(input, now, modeOk), PD.NewCase(db, d, desired, input))
  {
  }

  lemma DisputeCaseOrigin(db: Database, input: PD.Input, now: int, modeOk: bool, k: nat)
    requires PD.Transition(db, input, now, modeOk).Ok? && |db.cases| <= k < |PD.Transition(db, input, now, modeOk).value.0.cases|
    ensures CaseOrigin(db, ApplyDispute(input, now, modeOk), PD.Transition(db, input, now, modeOk).value.0.cases[k])
  {
    hide PD.Transition, PD.Apply, PD.CompleteEvent, DP.Checked, PD.NewCase, CaseOrigin, PD.FindCase;
    var d, desired, between, o := DT.TransitionReads(db, input, now, modeOk);
    ApplyWrites(db, d, desired, input);
    CompletionWritesElsewhere(between, d.attemptId, o.caseId, input, now);
    BookedCaseOrigin(db, input, now, modeOk, d, desired);
  }

  lemma CreditsKeepCases(db: Database, authority: DC.Authority, f: CreditFacts, now: int, modeOk: bool)
    requires DC.Finalize(db, authority, f, now, modeOk).Ok?
    ensures DC.Finalize(db, authority, f, now, modeOk).value.0.cases == db.cases
  {
    hide DC.Finalize, DC.Replays, DC.AttemptExact, DepositCreditProof.Admitted;
    var o, before := DepositCreditProof.FinalizeReads(db, authority, f, now, modeOk);
  }

  /** Only a dispute transition records a case, and the new case is the one its event describes. */
  lemma NewCaseOrigin(db: Database, step: Step, k: nat)
    requires |db.cases| <= k < |Next(db, step).cases|
    ensures CaseOrigin(db, step, Next(db, step).cases[k])
  {
    hide DC.Finalize, PD.Transition, SeedFunding.EnsureFunding, CaseOrigin, Collides;
    match step
    case ApplyDispute(input, now, modeOk) =>
      if PD.Transition(db, input, now, modeOk).Ok? {
        DisputeCaseOrigin(db, input, now, modeOk, k);
      }
    case CreditDeposit(authority, facts, now, modeOk) =>
      if DC.Finalize(db, authority, facts, now, modeOk).Ok? {
        CreditsKeepCases(db, authority, facts, now, modeOk);
      }
    case SeedWallet(walletId, organizationId, userId) =>
      if SeedFunding.EnsureFunding(db, walletId, organizationId, userId).Ok? {
        SeedFunding.FundingWrites(db, walletId, organizationId, userId);
      }
    case _ =>
  }

  /** What a recorded case keeps from the moment it was recorded. */
  ghost predicate SameCommand(c: PaymentDispute, c': PaymentDispute) {
    && c'.disputeId == c.disputeId && c'.paymentId == c.paymentId && c'.chargeId == c.chargeId
    && c'.depositAttemptId == c.depositAttemptId && c'.depositTransactionId == c.depositTransactionId
    && c'.walletId == c.walletId && c'.amount == c.amount && c'.currency == c.currency && c'.held == c.held
  }

  /**
   Every case that a run adds was recorded by one of its dispute steps, whose claimed event described
   exactly this case, about a credited deposit of at least its amount.
   */
  lemma {:induction false} CaseWasAuthorised(db: Database, steps: seq<Step>, k: nat) returns (n: nat, c: PaymentDispute)
    requires |db.cases| <= k < |Run(db, steps).cases|
    ensures n < |steps| && CaseOrigin(Run(db, steps[..n]), steps[n], c) && SameCommand(c, Run(db, steps).cases[k])
    decreases |steps|
  {
    hide Next, CaseOrigin;
    var last := |steps| - 1;
    var front := steps[..last];
    var before := Run(db, front);
    RunLast(db, steps);
    FinanceHistory.NextEvolves(before, steps[last]);
    if k < |before.cases| {
      assert FinanceHistory.CaseEvolves(before.cases[k], Run(db, steps).cases[k]);
      n, c := CaseWasAuthorised(db, front, k);
      assert front[..n] == steps[..n] && front[n] == steps[n];
    } else {
      NewCaseOrigin(before, steps[last], k);
      n, c := last, Run(db, steps).cases[k];
    }
  }
}
