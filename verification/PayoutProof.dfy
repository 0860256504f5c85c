/** Every step of a run keeps the payout invariants. */
module PayoutProof {
  import opened Outcomes
  import opened PayoutState
  import opened PayoutInvariant
  import opened PayoutRuns
  import opened PF = PayoutFinalization
  import Decimals
  import Text

  // ---------------------------------------------------------------- what a completion establishes

  /** Everything that a decision to complete has checked. */
  ghost predicate Admitted(db: Payouts, input: Input, now: int, modeOk: bool, at: int, amountMinor: Option<int>) {
    && input.withdrawal < |db.withdrawals| && input.execution < |db.executions|
    && var e, w := db.executions[input.execution], db.withdrawals[input.withdrawal];
    && CheckRoute(e, w, input, modeOk).Ok?
    && ReadEvidence(db, e, input).Ok?
    && var facts := ReadEvidence(db, e, input).value;
    && facts.amountMinor == amountMinor
    && CheckTime(facts, input, now) == Ok(at)
    && CheckAuthority(db, e, facts, input).Ok?
    && !e.status.COMPLETED?
    && CheckCompletable(db, e, w, input, at, now).Ok?
  }

  lemma DecisionAdmits(db: Payouts, input: Input, now: int, modeOk: bool, at: int, amountMinor: Option<int>)
    ensures Decide(db, input, now, modeOk) == Ok(Decision.Complete(at, amountMinor))
        <==> Admitted(db, input, now, modeOk, at, amountMinor)
  {
    hide CheckRoute, ReadEvidence, CheckTime, CheckAuthority, CheckCompletable, Recognise;
  }

  lemma CompletionIsBacked(db: Payouts, input: Input, now: int, modeOk: bool, at: int, amountMinor: Option<int>)
    requires Admitted(db, input, now, modeOk, at, amountMinor)
    ensures var e, w := db.executions[input.execution], db.withdrawals[input.withdrawal];
            Backed(CompletedExecution(e, input, at, amountMinor, now),
                   w.(status := WithdrawalStatus.COMPLETED, version := w.version + 1))
  {
  }

  /** An event whose lease is held has completed nothing yet. */
  lemma LeasedIsUnused(executions: seq<Execution>, webhooks: map<Id, WebhookEvent>, evidence: Evidence, i: nat)
    requires WebhooksEnded(executions, webhooks) && i < |executions| && evidence.Webhook?
    requires evidence.eventId in webhooks && webhooks[evidence.eventId].status.PROCESSING?
    ensures executions[i].completion.Some? ==> executions[i].completion.value.webhookEvent != Some(evidence.eventId)
  {
    assert WebhookEnded(executions[i], webhooks);
  }

  /** The unique indexes never have to stop a completion: the checks before it have seen every other row. */
  lemma CompletionIsUnique(base: map<Id, int>, db: Payouts, input: Input, now: int, modeOk: bool, at: int, amountMinor: Option<int>)
    requires Valid(base, db) && OwnsLease(db, input.evidence) && Admitted(db, input, now, modeOk, at, amountMinor)
    ensures !Violates(db.executions, input.execution,
                      CompletedExecution(db.executions[input.execution], input, at, amountMinor, now))
  {
    hide ReadEvidence, CheckTime, CheckAuthority, CheckState, CheckParties, Covered, AmountsAgree, CompletionsBacked,
      CompletedTogether, Conserved;
    var k := input.execution;
    var e := db.executions[k];
    var e' := CompletedExecution(e, input, at, amountMinor, now);
    forall j | 0 <= j < |db.executions| && j != k ensures !Conflicting(db.executions[j], e') {
      var o := db.executions[j];
      assert !(o.withdrawal == input.withdrawal && MovesMoney(o.status));
      assert !UsedBy(o, e.provider.id, EvidenceReference(input), input.evidence.ManualBank?);
      assert !Conflicting(o, e) by {
        assert if j < k then !Conflicting(o, e) else !Conflicting(e, o);
      }
      if input.evidence.Webhook? {
        LeasedIsUnused(db.executions, db.webhooks, input.evidence, j);
      }
    }
  }

  /** From a valid state a decision to complete is carried out, unless the publisher has no balance row. */
  lemma FinishCommits(base: map<Id, int>, db: Payouts, input: Input, now: int, modeOk: bool, at: int, amountMinor: Option<int>)
    requires Valid(base, db) && OwnsLease(db, input.evidence) && Admitted(db, input, now, modeOk, at, amountMinor)
    ensures Finish(db, input, at, amountMinor, now).Ok?
        <==> db.withdrawals[input.withdrawal].publisher in db.balances
  {
    CompletionIsUnique(base, db, input, now, modeOk, at, amountMinor);
    hide Violates, CompletedExecution, ReadEvidence, CheckTime, CheckAuthority, CheckCompletable;
    assert db.executions[input.execution].completion.None?;
  }

  // ---------------------------------------------------------------- the writes keep the invariants

  lemma TerminalKeepsValid(base: map<Id, int>, db: Payouts, evidence: Evidence, status: WebhookStatus, now: int, note: Option<Note>)
    requires Valid(base, db) && OwnsLease(db, evidence)
    ensures Valid(base, Terminal(db, evidence, status, now, note))
  {
    var db' := Terminal(db, evidence, status, now, note);
    if evidence.Webhook? {
      forall i | 0 <= i < |db.executions| ensures WebhookEnded(db'.executions[i], db'.webhooks) {
        LeasedIsUnused(db.executions, db.webhooks, evidence, i);
        assert WebhookEnded(db.executions[i], db.webhooks);
      }
    }
  }

  lemma MoneyConserved(base: map<Id, int>, db: Payouts, input: Input, e': Execution)
    requires input.withdrawal < |db.withdrawals| && input.execution < |db.executions|
    requires db.withdrawals[input.withdrawal].publisher in db.balances
    requires !db.withdrawals[input.withdrawal].status.COMPLETED?
    requires Conserved(base, db.withdrawals, db.balances) && PaidHaveBalance(db.withdrawals, db.balances)
    ensures var db' := Applied(db, input, e');
            Conserved(base, db'.withdrawals, db'.balances) && PaidHaveBalance(db'.withdrawals, db'.balances)
  {
    var db' := Applied(db, input, e');
    forall p | p in db'.balances ensures db'.balances[p].lifetimePaid == BaseOf(base, p) + PaidSum(p, db'.withdrawals) {
      PaidSumUpdate(p, db.withdrawals, input.withdrawal, db'.withdrawals[input.withdrawal]);
    }
  }

  lemma CompletedPair(db: Payouts, input: Input, e': Execution)
    requires input.withdrawal < |db.withdrawals| && input.execution < |db.executions|
    requires db.withdrawals[input.withdrawal].publisher in db.balances
    requires !db.withdrawals[input.withdrawal].status.COMPLETED?
    requires CompletedTogether(db.withdrawals, db.executions) && CompletionsBacked(db.withdrawals, db.executions)
    requires e'.status.COMPLETED? && e'.withdrawal == input.withdrawal == db.executions[input.execution].withdrawal
    requires Backed(e', Applied(db, input, e').withdrawals[input.withdrawal])
    ensures var db' := Applied(db, input, e');
            CompletedTogether(db'.withdrawals, db'.executions) && CompletionsBacked(db'.withdrawals, db'.executions)
  {
    hide Backed;
    var db' := Applied(db, input, e');
    forall k | 0 <= k < |db'.withdrawals| && db'.withdrawals[k].status.COMPLETED?
      ensures exists i :: 0 <= i < |db'.executions| && CompletedBy(db'.executions[i], k)
    {
      if k == input.withdrawal {
        assert CompletedBy(db'.executions[input.execution], k);
      } else {
        var i :| 0 <= i < |db.executions| && CompletedBy(db.executions[i], k);
        assert CompletedBy(db'.executions[i], k);
      }
    }
  }

  lemma RowStaysDistinct(executions: seq<Execution>, k: nat, e: Execution)
    requires RowsDistinct(executions) && k < |executions| && !Violates(executions, k, e)
    ensures RowsDistinct(executions[k := e])
  {
    var executions' := executions[k := e];
    forall i, j | 0 <= i < j < |executions'| ensures !Conflicting(executions'[i], executions'[j]) {
      if j == k {
        assert !Conflicting(executions[i], e);
      } else if i == k {
        assert !Conflicting(executions[j], e);
        ConflictSymmetric(executions[j], e);
      }
    }
  }

  lemma ConflictSymmetric(a: Execution, b: Execution)
    ensures Conflicting(a, b) <==> Conflicting(b, a)
  {
  }

  /** A completion changes three rows and one inbox row, and every invariant survives. */
  lemma FinishKeepsValid(base: map<Id, int>, db: Payouts, input: Input, now: int, modeOk: bool, at: int, amountMinor: Option<int>)
    requires Valid(base, db) && OwnsLease(db, input.evidence) && Admitted(db, input, now, modeOk, at, amountMinor)
    requires Finish(db, input, at, amountMinor, now).Ok?
    ensures Valid(base, Finish(db, input, at, amountMinor, now).value.0)
  {
    var e' := CompletedExecution(db.executions[input.execution], input, at, amountMinor, now);
    var applied := Applied(db, input, e');
    var db' := Finish(db, input, at, amountMinor, now).value.0;
    CompletionIsBacked(db, input, now, modeOk, at, amountMinor);
    AdmittedRows(db, input, now, modeOk, at, amountMinor);
    hide Admitted, Backed, Conserved, CompletedTogether, CompletionsBacked, PaidHaveBalance, RowsDistinct, Violates;
    MoneyConserved(base, db, input, e');
    CompletedPair(db, input, e');
    RowStaysDistinct(db.executions, input.execution, e');
    WebhooksStayEnded(db, input, e', if at > now then at else now);
  }

  /** The inbox row of this completion ends with it; those of the others had ended before. */
  lemma WebhooksStayEnded(db: Payouts, input: Input, e': Execution, now: int)
    requires WebhooksEnded(db.executions, db.webhooks) && OwnsLease(db, input.evidence) && input.execution < |db.executions|
    requires e'.completion.Some?
    requires e'.completion.value.webhookEvent == if input.evidence.Webhook? then Some(input.evidence.eventId) else None
    ensures WebhooksEnded(db.executions[input.execution := e'],
                          Terminal(db, input.evidence, WebhookStatus.PROCESSED, now, None).webhooks)
  {
    var executions := db.executions[input.execution := e'];
    var webhooks := Terminal(db, input.evidence, WebhookStatus.PROCESSED, now, None).webhooks;
    forall i | 0 <= i < |executions| ensures WebhookEnded(executions[i], webhooks) {
      if i != input.execution {
        assert WebhookEnded(db.executions[i], db.webhooks);
        if input.evidence.Webhook? {
          LeasedIsUnused(db.executions, db.webhooks, input.evidence, i);
        }
      }
    }
  }

  lemma AdmittedRows(db: Payouts, input: Input, now: int, modeOk: bool, at: int, amountMinor: Option<int>)
    requires Admitted(db, input, now, modeOk, at, amountMinor)
    ensures input.withdrawal < |db.withdrawals| && input.execution < |db.executions|
    ensures db.executions[input.execution].withdrawal == input.withdrawal
    ensures !db.executions[input.execution].status.COMPLETED? && !db.withdrawals[input.withdrawal].status.COMPLETED?
  {
    hide ReadEvidence, CheckTime, CheckAuthority, CheckParties, Covered, AmountsAgree, Competing, Reused;
  }

  lemma FinalizeKeepsValid(base: map<Id, int>, db: Payouts, input: Input, now: int, modeOk: bool)
    requires Valid(base, db) && Finalize(db, input, now, modeOk).Ok?
    ensures Valid(base, Finalize(db, input, now, modeOk).value.0)
  {
    hide Valid, Decide, Terminal, Finish;
    if OwnsLease(db, input.evidence) {
      var d := Decide(db, input, now, modeOk);
      if d.Err? {
        TerminalKeepsValid(base, db, input.evidence, WebhookStatus.QUARANTINED, now, Some(ConflictNote(d.error)));
      } else if d.value.Complete? {
        DecisionAdmits(db, input, now, modeOk, d.value.at, d.value.amountMinor);
        FinishKeepsValid(base, db, input, now, modeOk, d.value.at, d.value.amountMinor);
      } else if d.value.exact {
        TerminalKeepsValid(base, db, input.evidence, WebhookStatus.PROCESSED, now, None);
      } else {
        TerminalKeepsValid(base, db, input.evidence, WebhookStatus.IGNORED, now, Some(CorroboratesExistingCompletion));
      }
    }
  }

  /** From a valid state the only fault is a publisher without a balance row; uniqueness never has to step in. */
  lemma OnlyFaultIsMissingBalance(base: map<Id, int>, db: Payouts, input: Input, now: int, modeOk: bool)
    requires Valid(base, db)
    ensures Finalize(db, input, now, modeOk).Err? <==>
              && OwnsLease(db, input.evidence)
              && Decide(db, input, now, modeOk).Ok? && Decide(db, input, now, modeOk).value.Complete?
              && input.withdrawal < |db.withdrawals| && db.withdrawals[input.withdrawal].publisher !in db.balances
    ensures Finalize(db, input, now, modeOk).Err? ==> Finalize(db, input, now, modeOk) == Err(BALANCE_MISSING)
  {
    hide Valid, Decide, Terminal;
    if OwnsLease(db, input.evidence) {
      var d := Decide(db, input, now, modeOk);
      if d.Ok? && d.value.Complete? {
        DecisionAdmits(db, input, now, modeOk, d.value.at, d.value.amountMinor);
        AdmittedRows(db, input, now, modeOk, d.value.at, d.value.amountMinor);
        FinishCommits(base, db, input, now, modeOk, d.value.at, d.value.amountMinor);
      }
    }
  }

  // ---------------------------------------------------------------- the other steps

  lemma InboxKeepsValid(base: map<Id, int>, db: Payouts, id: Id, v: WebhookEvent)
    requires Valid(base, db)
    requires id in db.webhooks && (db.webhooks[id].status.PROCESSED? || db.webhooks[id].status.QUARANTINED?) ==>
               v.status.PROCESSED? || v.status.QUARANTINED?
    ensures Valid(base, Inbox(db, id, v))
  {
    forall i | 0 <= i < |db.executions| ensures WebhookEnded(db.executions[i], Inbox(db, id, v).webhooks) {
      assert WebhookEnded(db.executions[i], db.webhooks);
    }
  }

  lemma RequestKeepsValid(base: map<Id, int>, db: Payouts, w: Withdrawal)
    requires Valid(base, db) && !w.status.COMPLETED?
    ensures Valid(base, db.(withdrawals := db.withdrawals + [w]))
  {
    forall p | p in db.balances ensures db.balances[p].lifetimePaid == BaseOf(base, p) + PaidSum(p, db.withdrawals + [w]) {
      PaidSumAppend(p, db.withdrawals, w);
    }
  }

  lemma MoveWithdrawalKeepsValid(base: map<Id, int>, db: Payouts, k: nat, w: Withdrawal)
    requires Valid(base, db) && k < |db.withdrawals| && MayMoveWithdrawal(db.withdrawals[k], w)
    ensures Valid(base, db.(withdrawals := db.withdrawals[k := w]))
  {
    hide Backed;
    forall p | p in db.balances ensures db.balances[p].lifetimePaid == BaseOf(base, p) + PaidSum(p, db.withdrawals[k := w]) {
      PaidSumUpdate(p, db.withdrawals, k, w);
    }
  }

  lemma StartKeepsValid(base: map<Id, int>, db: Payouts, e: Execution)
    requires Valid(base, db) && !e.status.COMPLETED? && e.completion.None? && e.withdrawal < |db.withdrawals|
    requires !Violates(db.executions, |db.executions|, e)
    ensures Valid(base, db.(executions := db.executions + [e]))
  {
    hide Backed;
    var executions' := db.executions + [e];
    forall i, j | 0 <= i < j < |executions'| ensures !Conflicting(executions'[i], executions'[j]) {
      if j == |db.executions| {
        assert !Conflicting(db.executions[i], e);
      }
    }
    forall k | 0 <= k < |db.withdrawals| && db.withdrawals[k].status.COMPLETED?
      ensures exists i :: 0 <= i < |executions'| && CompletedBy(executions'[i], k)
    {
      var i :| 0 <= i < |db.executions| && CompletedBy(db.executions[i], k);
      assert CompletedBy(executions'[i], k);
    }
    forall i | 0 <= i < |executions'| ensures WebhookEnded(executions'[i], db.webhooks) {
      assert i < |db.executions| ==> WebhookEnded(db.executions[i], db.webhooks);
    }
  }

  lemma MoveExecutionKeepsValid(base: map<Id, int>, db: Payouts, k: nat, e: Execution)
    requires Valid(base, db) && k < |db.executions| && MayMoveExecution(db.executions[k], e) && !Violates(db.executions, k, e)
    ensures Valid(base, db.(executions := db.executions[k := e]))
  {
    hide Backed, Violates, RowsDistinct;
    var executions' := db.executions[k := e];
    RowStaysDistinct(db.executions, k, e);
    forall w | 0 <= w < |db.withdrawals| && db.withdrawals[w].status.COMPLETED?
      ensures exists i :: 0 <= i < |executions'| && CompletedBy(executions'[i], w)
    {
      var i :| 0 <= i < |db.executions| && CompletedBy(db.executions[i], w);
      assert CompletedBy(executions'[i], w);
    }
    forall i | 0 <= i < |executions'| ensures WebhookEnded(executions'[i], db.webhooks) {
      assert WebhookEnded(db.executions[i], db.webhooks);
    }
  }

  lemma OpenBalanceKeepsValid(base: map<Id, int>, db: Payouts, publisher: Id)
    requires Valid(base, db) && publisher !in db.balances && publisher !in base
    ensures Valid(base, db.(balances := db.balances[publisher := Balance(0, 0)]))
  {
    NothingPaid(publisher, db.withdrawals);
  }

  lemma {:induction false} NothingPaid(publisher: Id, ws: seq<Withdrawal>)
    requires forall k :: 0 <= k < |ws| && ws[k].status.COMPLETED? ==> ws[k].publisher != publisher
    ensures PaidSum(publisher, ws) == 0
  {
    if ws != [] {
      NothingPaid(publisher, ws[..|ws| - 1]);
    }
  }

  /** The publishers with a payment history already have their balance row. */
  ghost predicate BaseOpened(base: map<Id, int>, db: Payouts) {
    base.Keys <= db.balances.Keys
  }

  lemma NextKeepsValid(base: map<Id, int>, db: Payouts, step: Step)
    requires Valid(base, db) && BaseOpened(base, db)
    ensures Valid(base, Next(db, step)) && BaseOpened(base, Next(db, step))
  {
    BalancesStay(base, db, step);
    hide Valid, Finalize, MayMoveWithdrawal, MayMoveExecution, Violates;
    match step
    case Complete(input, now, modeOk) =>
      if Finalize(db, input, now, modeOk).Ok? {
        FinalizeKeepsValid(base, db, input, now, modeOk);
      }
    case ReceiveWebhook(id, v) =>
      if id !in db.webhooks { InboxKeepsValid(base, db, id, v); }
    case ClaimWebhook(id, now) =>
      if Next(db, step) != db { InboxKeepsValid(base, db, id, Next(db, step).webhooks[id]); }
    case ReturnWebhook(id) =>
      if Next(db, step) != db { InboxKeepsValid(base, db, id, Next(db, step).webhooks[id]); }
    case QuarantineWebhook(id, _) =>
      if Next(db, step) != db { InboxKeepsValid(base, db, id, Next(db, step).webhooks[id]); }
    case RequestWithdrawal(w) =>
      if !w.status.COMPLETED? { RequestKeepsValid(base, db, w); }
    case MoveWithdrawal(k, w) =>
      if k < |db.withdrawals| && MayMoveWithdrawal(db.withdrawals[k], w) { MoveWithdrawalKeepsValid(base, db, k, w); }
    case StartExecution(e) =>
      if Next(db, step) != db { StartKeepsValid(base, db, e); }
    case MoveExecution(k, e) =>
      if Next(db, step) != db { MoveExecutionKeepsValid(base, db, k, e); }
    case OpenBalance(p) =>
      if p !in db.balances { OpenBalanceKeepsValid(base, db, p); }
    case ChangeStaff(staff) => StaffKeepsValid(base, db, staff);
  }

  lemma StaffKeepsValid(base: map<Id, int>, db: Payouts, staff: set<Id>)
    requires Valid(base, db)
    ensures Valid(base, db.(staff := staff))
  {
  }

  lemma BalancesStay(base: map<Id, int>, db: Payouts, step: Step)
    ensures db.balances.Keys <= Next(db, step).balances.Keys
  {
    hide Decide, Violates, CompletedExecution;
  }

  lemma {:induction false} RunKeepsValid(base: map<Id, int>, db: Payouts, steps: seq<Step>)
    requires Valid(base, db) && BaseOpened(base, db)
    ensures Valid(base, Run(db, steps)) && BaseOpened(base, Run(db, steps))
    decreases |steps|
  {
    hide Valid, Next, BaseOpened;
    if steps != [] {
      NextKeepsValid(base, db, steps[0]);
      RunKeepsValid(base, Next(db, steps[0]), steps[1..]);
    }
  }
}
