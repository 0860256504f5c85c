/** The promises of the payout core, read off its invariants and from the history of a run. */
module PayoutTheorems {
  import opened Outcomes
  import opened PayoutState
  import opened PayoutInvariant
  import opened PayoutRuns
  import opened PF = PayoutFinalization
  import PayoutProof
  import Decimals
  import Text

  const EMPTY: Payouts := Payouts([], [], map[], map[], {})

  lemma EmptyIsValid()
    ensures Valid(map[], EMPTY) && PayoutProof.BaseOpened(map[], EMPTY)
  {
  }

  lemma ReachableIsValid(steps: seq<Step>)
    ensures Valid(map[], Run(EMPTY, steps))
  {
    EmptyIsValid();
    hide Valid, Run;
    PayoutProof.RunKeepsValid(map[], EMPTY, steps);
  }

  /** What was paid is what the completed withdrawals add up to, however their calls raced. */
  lemma PayoutConservation(steps: seq<Step>, publisher: Id)
    ensures var db := Run(EMPTY, steps);
            (if publisher in db.balances then db.balances[publisher].lifetimePaid else 0) == PaidSum(publisher, db.withdrawals)
  {
    ReachableIsValid(steps);
    hide Run;
    var db := Run(EMPTY, steps);
    if publisher !in db.balances {
      PayoutProof.NothingPaid(publisher, db.withdrawals);
    }
  }

  /** From any state that satisfies the invariants, every run adds exactly the withdrawals it completes. */
  lemma ConservationFrom(base: map<Id, int>, db: Payouts, steps: seq<Step>, publisher: Id)
    requires Valid(base, db) && PayoutProof.BaseOpened(base, db) && publisher in db.balances
    ensures var later := Run(db, steps);
            && publisher in later.balances
            && later.balances[publisher].lifetimePaid - db.balances[publisher].lifetimePaid
               == PaidSum(publisher, later.withdrawals) - PaidSum(publisher, db.withdrawals)
  {
    PayoutProof.RunKeepsValid(base, db, steps);
    BalancesStay(base, db, steps);
    hide Run;
  }

  lemma {:induction false} BalancesStay(base: map<Id, int>, db: Payouts, steps: seq<Step>)
    ensures db.balances.Keys <= Run(db, steps).balances.Keys
    decreases |steps|
  {
    hide Next;
    if steps != [] {
      PayoutProof.BalancesStay(base, db, steps[0]);
      BalancesStay(base, Next(db, steps[0]), steps[1..]);
    }
  }

  /** At most one execution completes a withdrawal, and the two are completed together. */
  lemma PaidOnce(steps: seq<Step>, k: nat)
    requires k < |Run(EMPTY, steps).withdrawals|
    ensures var db := Run(EMPTY, steps);
            && (db.withdrawals[k].status.COMPLETED? <==> exists i :: 0 <= i < |db.executions| && CompletedBy(db.executions[i], k))
            && forall i, j | 0 <= i < |db.executions| && 0 <= j < |db.executions| ::
                 CompletedBy(db.executions[i], k) && CompletedBy(db.executions[j], k) ==> i == j
  {
    ReachableIsValid(steps);
    hide Run;
    var db := Run(EMPTY, steps);
    forall i, j | 0 <= i < j < |db.executions| ensures !(CompletedBy(db.executions[i], k) && CompletedBy(db.executions[j], k)) {
      assert !Conflicting(db.executions[i], db.executions[j]);
    }
  }

  /** One piece of evidence completes one execution: no provider reference, bank receipt or webhook serves twice. */
  lemma EvidenceServesOnce(steps: seq<Step>, i: nat, j: nat)
    requires i < |Run(EMPTY, steps).executions| && j < |Run(EMPTY, steps).executions| && i != j
    requires Run(EMPTY, steps).executions[i].completion.Some? && Run(EMPTY, steps).executions[j].completion.Some?
    ensures var a, b := Run(EMPTY, steps).executions[i], Run(EMPTY, steps).executions[j];
            && (a.provider.id == b.provider.id ==> a.completion.value.evidenceRef != b.completion.value.evidenceRef)
            && (a.completion.value.webhookEvent.Some? ==> a.completion.value.webhookEvent != b.completion.value.webhookEvent)
  {
    ReachableIsValid(steps);
    hide Run;
    var db := Run(EMPTY, steps);
    assert if i < j then !Conflicting(db.executions[i], db.executions[j]) else !Conflicting(db.executions[j], db.executions[i]);
    assert Backed(db.executions[i], db.withdrawals[db.executions[i].withdrawal]);
  }

  /** Every completed execution was backed, in full and under four eyes. */
  lemma CompletionWasBacked(steps: seq<Step>, i: nat)
    requires i < |Run(EMPTY, steps).executions| && Run(EMPTY, steps).executions[i].status.COMPLETED?
    ensures var db := Run(EMPTY, steps); var e := db.executions[i];
            && e.withdrawal < |db.withdrawals| && e.completion.Some?
            && var w := db.withdrawals[e.withdrawal]; var c := e.completion.value;
            && Total(Active(w.allocations)) == w.amount == e.amount
            && (forall a :: a in w.allocations && a.releasedAt.None? ==> a.amount > 0 && a.currency == USD)
            && (c.source.MANUAL_BANK_CONFIRMATION? ==>
                  c.actor.Some? && w.requestedBy.Some? && w.approvedBy.Some? && e.initiatedBy.Some?
                  && c.actor !in {w.requestedBy, w.approvedBy, e.initiatedBy})
            && (!c.source.MANUAL_BANK_CONFIRMATION? ==>
                  c.amountMinor.Some? && c.amountMinor.value * Decimals.CENT == w.netAmount.GetOr(w.amount)
                  && c.evidenceRef == ProviderReferenceOf(e))
  {
    ReachableIsValid(steps);
    hide Run;
    var db := Run(EMPTY, steps);
    assert Backed(db.executions[i], db.withdrawals[db.executions[i].withdrawal]);
    var w := db.withdrawals[db.executions[i].withdrawal];
    forall a | a in w.allocations && a.releasedAt.None? ensures a.amount > 0 && a.currency == USD {
      assert a in Active(w.allocations);
    }
  }

  // ---------------------------------------------------------------- single calls

  /** A call that does not report that it applied has not touched an execution, a withdrawal or a balance. */
  lemma NotAppliedLeavesMoney(db: Payouts, input: Input, now: int, modeOk: bool)
    ensures var r := Finalize(db, input, now, modeOk);
            r.Ok? ==>
              var (db', reply) := r.value;
              && db'.staff == db.staff
              && (reply == Done(Completed, true)
                  || (&& (reply.Done? ==> !reply.applied && reply.kind != Completed)
                      && db'.executions == db.executions && db'.withdrawals == db.withdrawals && db'.balances == db.balances))
  {
    hide Decide, CompletedExecution, Violates;
  }

  // ---------------------------------------------------------------- history

  ghost predicate RowsKept(db: Payouts, later: Payouts) {
    && |db.executions| <= |later.executions| && |db.withdrawals| <= |later.withdrawals|
    && (forall k :: 0 <= k < |db.executions| && db.executions[k].status.COMPLETED? ==> later.executions[k] == db.executions[k])
    && (forall k :: 0 <= k < |db.withdrawals| && db.withdrawals[k].status.COMPLETED? ==> later.withdrawals[k] == db.withdrawals[k])
  }

  lemma NextKeepsRows(db: Payouts, step: Step)
    ensures RowsKept(db, Next(db, step))
  {
    if step.Complete? {
      CallKeepsRows(db, step.input, step.now, step.modeOk);
    }
  }

  lemma CallKeepsRows(db: Payouts, input: Input, now: int, modeOk: bool)
    ensures Finalize(db, input, now, modeOk).Ok? ==> RowsKept(db, Finalize(db, input, now, modeOk).value.0)
  {
    hide Decide, CompletedExecution, Violates;
    var d := Decide(db, input, now, modeOk);
    if d.Ok? && d.value.Complete? {
      PayoutProof.DecisionAdmits(db, input, now, modeOk, d.value.at, d.value.amountMinor);
      PayoutProof.AdmittedRows(db, input, now, modeOk, d.value.at, d.value.amountMinor);
    }
  }

  /** Completed rows are the same in every later state. */
  lemma {:induction false} RunKeepsRows(db: Payouts, steps: seq<Step>)
    ensures RowsKept(db, Run(db, steps))
    decreases |steps|
  {
    hide Next;
    if steps != [] {
      NextKeepsRows(db, steps[0]);
      RunKeepsRows(Next(db, steps[0]), steps[1..]);
    }
  }

  /** What a call that applied leaves behind: both rows completed, its evidence on the execution. */
  lemma AppliedReads(db: Payouts, input: Input, now: int, modeOk: bool) returns (at: int, amountMinor: Option<int>)
    requires Finalize(db, input, now, modeOk).Ok? && Finalize(db, input, now, modeOk).value.1 == Done(Completed, true)
    ensures PayoutProof.Admitted(db, input, now, modeOk, at, amountMinor)
    ensures var db' := Finalize(db, input, now, modeOk).value.0;
            && input.execution < |db'.executions| && input.withdrawal < |db'.withdrawals|
            && db'.executions[input.execution]
               == CompletedExecution(db.executions[input.execution], input, at, amountMinor, now)
            && db'.withdrawals[input.withdrawal].status.COMPLETED?
            && db'.withdrawals[input.withdrawal].publicReference == db.withdrawals[input.withdrawal].publicReference
  {
    hide Decide, CompletedExecution, Violates;
    var d := Decide(db, input, now, modeOk);
    at, amountMinor := d.value.at, d.value.amountMinor;
    PayoutProof.DecisionAdmits(db, input, now, modeOk, at, amountMinor);
    PayoutProof.AdmittedRows(db, input, now, modeOk, at, amountMinor);
  }

  /** A withdrawal is paid by one call: no later call on it, through whatever execution and evidence, applies. */
  lemma AppliesOnce(db: Payouts, input: Input, now: int, modeOk: bool, steps: seq<Step>, input2: Input, now2: int, modeOk2: bool)
    requires Finalize(db, input, now, modeOk).Ok? && Finalize(db, input, now, modeOk).value.1 == Done(Completed, true)
    requires input2.withdrawal == input.withdrawal || input2.execution == input.execution
    ensures var later := Run(Finalize(db, input, now, modeOk).value.0, steps);
            var r := Finalize(later, input2, now2, modeOk2);
            r.Ok? ==> r.value.1 != Done(Completed, true)
  {
    var at, amount := AppliedReads(db, input, now, modeOk);
    var db1 := Finalize(db, input, now, modeOk).value.0;
    assert db1.executions[input.execution].status.COMPLETED?;
    RunKeepsRows(db1, steps);
    hide Run, Finalize;
    var later := Run(db1, steps);
    if Finalize(later, input2, now2, modeOk2).Ok? && Finalize(later, input2, now2, modeOk2).value.1 == Done(Completed, true) {
      var at2, amount2 := AppliedReads(later, input2, now2, modeOk2);
      PayoutProof.AdmittedRows(later, input2, now2, modeOk2, at2, amount2);
    }
  }

  // ---------------------------------------------------------------- replays and corroboration

  /**
   Evidence about an execution that a provider source has completed: once it is accepted as
   evidence at all, it replays (same source, same event) or corroborates, and never conflicts.
   */
  lemma LaterEvidence(base: map<Id, int>, db: Payouts, input: Input, now: int, modeOk: bool)
    requires Valid(base, db) && OwnsLease(db, input.evidence) && !input.evidence.ManualBank?
    requires input.execution < |db.executions| && input.withdrawal < |db.withdrawals|
    requires db.executions[input.execution].status.COMPLETED? && db.executions[input.execution].completion.Some?
    requires !db.executions[input.execution].completion.value.source.MANUAL_BANK_CONFIRMATION?
    requires var e, w := db.executions[input.execution], db.withdrawals[input.withdrawal];
             CheckRoute(e, w, input, modeOk).Ok? && ReadEvidence(db, e, input).Ok?
             && CheckTime(ReadEvidence(db, e, input).value, input, now).Ok?
             && CheckAuthority(db, e, ReadEvidence(db, e, input).value, input).Ok?
    ensures var c := db.executions[input.execution].completion.value;
            var exact := c.source == SourceOf(input.evidence)
                         && (input.evidence.Webhook? ==> c.webhookEvent == Some(input.evidence.eventId));
            Finalize(db, input, now, modeOk).Ok?
            && Finalize(db, input, now, modeOk).value.1 == Done(if exact then Replayed else Corroborated, false)
  {
    hide Valid, Backed, ReadEvidence, CheckTime, CheckAuthority, Finalize, OwnsLease, Decide, Recognise, SourceOf;
    var e, w := db.executions[input.execution], db.withdrawals[input.withdrawal];
    var facts := ReadEvidence(db, e, input).value;
    CompletedRows(base, db, input.execution);
    assert e.withdrawal == input.withdrawal;
    hide CheckRoute;
    SameObject(db, e, w, facts, input);
    var exact := RecognisesProvider(e, w, input, CheckTime(facts, input, now).value);
    RecognisedDecision(db, input, now, modeOk, exact);
    RecognisedReply(db, input, now, modeOk, exact);
  }

  lemma RecognisesProvider(e: Execution, w: Withdrawal, input: Input, at: int) returns (exact: bool)
    requires !input.evidence.ManualBank? && w.status.COMPLETED? && e.completion.Some?
    requires CanonicalReference(e, e.completion.value) == Some(EvidenceReference(input))
    ensures Recognise(e, w, input, at) == Ok(exact)
    ensures exact <==> e.completion.value.source == SourceOf(input.evidence)
                       && (input.evidence.Webhook? ==> e.completion.value.webhookEvent == Some(input.evidence.eventId))
  {
    hide CanonicalReference, EvidenceReference, SourceOf;
    exact := Recognise(e, w, input, at).value;
  }

  lemma RecognisedDecision(db: Payouts, input: Input, now: int, modeOk: bool, exact: bool)
    requires input.execution < |db.executions| && input.withdrawal < |db.withdrawals|
    requires db.executions[input.execution].status.COMPLETED?
    requires var e, w := db.executions[input.execution], db.withdrawals[input.withdrawal];
             CheckRoute(e, w, input, modeOk).Ok? && ReadEvidence(db, e, input).Ok?
             && CheckTime(ReadEvidence(db, e, input).value, input, now).Ok?
             && CheckAuthority(db, e, ReadEvidence(db, e, input).value, input).Ok?
             && Recognise(e, w, input, CheckTime(ReadEvidence(db, e, input).value, input, now).value) == Ok(exact)
    ensures Decide(db, input, now, modeOk) == Ok(Recognised(exact))
  {
    hide CheckRoute, ReadEvidence, CheckTime, CheckAuthority, Recognise, CheckCompletable;
  }

  lemma RecognisedReply(db: Payouts, input: Input, now: int, modeOk: bool, exact: bool)
    requires OwnsLease(db, input.evidence) && Decide(db, input, now, modeOk) == Ok(Recognised(exact))
    ensures Finalize(db, input, now, modeOk).Ok?
            && Finalize(db, input, now, modeOk).value.1 == Done(if exact then Replayed else Corroborated, false)
  {
    hide Decide, Terminal;
  }

  lemma CompletedRows(base: map<Id, int>, db: Payouts, i: nat)
    requires Valid(base, db) && i < |db.executions| && db.executions[i].status.COMPLETED?
    ensures db.executions[i].withdrawal < |db.withdrawals|
    ensures var w := db.withdrawals[db.executions[i].withdrawal]; w.status.COMPLETED? && Backed(db.executions[i], w)
  {
    hide Backed;
  }

  /** Evidence that names the persisted provider object names what completed the execution. */
  lemma SameObject(db: Payouts, e: Execution, w: Withdrawal, facts: Facts, input: Input)
    requires !input.evidence.ManualBank? && CheckAuthority(db, e, facts, input).Ok?
    requires Backed(e, w) && !e.completion.value.source.MANUAL_BANK_CONFIRMATION?
    ensures CanonicalReference(e, e.completion.value) == Some(EvidenceReference(input))
  {
    hide DecimalMinorAmount, EvidenceReference, Covered, AmountsAgree;
  }

  /** The same input, submitted again at any later time and in any later state, is recognised as a replay. */
  lemma ResubmissionReplays(base: map<Id, int>, db: Payouts, input: Input, now: int, steps: seq<Step>, now2: int)
    requires !input.evidence.Webhook? && now <= now2
    requires Finalize(db, input, now, true).Ok? && Finalize(db, input, now, true).value.1 == Done(Completed, true)
    requires var later := Run(Finalize(db, input, now, true).value.0, steps);
             input.evidence.ManualBank? ==> input.evidence.actor in later.staff
    ensures var later := Run(Finalize(db, input, now, true).value.0, steps);
            Finalize(later, input, now2, true) == Ok((later, Done(Replayed, false)))
  {
    var at, amount := AppliedReads(db, input, now, true);
    var db1 := Finalize(db, input, now, true).value.0;
    assert db1.executions[input.execution].status.COMPLETED?;
    RunKeepsRows(db1, steps);
    hide Run;
    var later := Run(db1, steps);
    var e := db.executions[input.execution];
    CompletedRowReplays(db, input, now, at, amount, later, now2);
  }

  lemma CompletedRowReplays(db: Payouts, input: Input, now: int, at: int, amountMinor: Option<int>, later: Payouts, now2: int)
    requires PayoutProof.Admitted(db, input, now, true, at, amountMinor) && !input.evidence.Webhook? && now <= now2
    requires input.execution < |later.executions| && input.withdrawal < |later.withdrawals|
    requires later.executions[input.execution]
          == CompletedExecution(db.executions[input.execution], input, at, amountMinor, now)
    requires later.withdrawals[input.withdrawal].status.COMPLETED?
    requires later.withdrawals[input.withdrawal].publicReference == db.withdrawals[input.withdrawal].publicReference
    requires input.evidence.ManualBank? ==> input.evidence.actor in later.staff
    ensures Finalize(later, input, now2, true) == Ok((later, Done(Replayed, false)))
  {
    hide DecimalMinorAmount, NormalizedMinorAmount, NormalizedCurrency, AmountsAgree, Covered, Competing, Reused;
    if input.evidence.ManualBank? {
      Text.TrimIdempotent(input.evidence.reason);
    }
  }

  // ---------------------------------------------------------------- leases

  /** The claim number `attempts` of a webhook is no longer held by anyone. */
  ghost predicate LeaseOver(db: Payouts, eventId: Id, attempts: int) {
    && eventId in db.webhooks
    && db.webhooks[eventId].attempts >= attempts
    && (db.webhooks[eventId].attempts == attempts ==> !db.webhooks[eventId].status.PROCESSING?)
  }

  lemma LeaseStaysOverStep(db: Payouts, eventId: Id, attempts: int, step: Step)
    requires LeaseOver(db, eventId, attempts)
    ensures LeaseOver(Next(db, step), eventId, attempts)
  {
    hide Decide, CompletedExecution, Violates, MayMoveWithdrawal, MayMoveExecution;
  }

  lemma {:induction false} LeaseStaysOver(db: Payouts, eventId: Id, attempts: int, steps: seq<Step>)
    requires LeaseOver(db, eventId, attempts)
    ensures LeaseOver(Run(db, steps), eventId, attempts)
    decreases |steps|
  {
    hide Next, LeaseOver;
    if steps != [] {
      LeaseStaysOverStep(db, eventId, attempts, steps[0]);
      LeaseStaysOver(Next(db, steps[0]), eventId, attempts, steps[1..]);
    }
  }

  /** A webhook call that commits uses its lease up, whatever it decides; so does the return of the lease. */
  lemma CallEndsLease(db: Payouts, input: Input, now: int, modeOk: bool)
    requires input.evidence.Webhook? && input.evidence.eventId in db.webhooks
    requires db.webhooks[input.evidence.eventId].attempts == input.evidence.attempt
    ensures Finalize(db, input, now, modeOk).Ok? && OwnsLease(db, input.evidence) ==>
              LeaseOver(Finalize(db, input, now, modeOk).value.0, input.evidence.eventId, input.evidence.attempt)
    ensures LeaseOver(Next(db, ReturnWebhook(input.evidence.eventId)), input.evidence.eventId, input.evidence.attempt)
  {
    hide Decide, CompletedExecution, Violates;
  }

  /** With a lease that is over, a call changes no row, now and in every later state, and says so. */
  lemma StaleCallsChangeNothing(db: Payouts, input: Input, steps: seq<Step>, now: int, modeOk: bool)
    requires input.evidence.Webhook? && LeaseOver(db, input.evidence.eventId, input.evidence.attempt)
    ensures var later := Run(db, steps);
            Finalize(later, input, now, modeOk) == Ok((later, Conflict(WEBHOOK_LEASE_LOST)))
  {
    LeaseStaysOver(db, input.evidence.eventId, input.evidence.attempt, steps);
    hide Run, Decide;
  }
}
