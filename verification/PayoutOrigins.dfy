/** Every completed payout of a run goes back to one call, whose evidence and rows were in order then. */
module PayoutOrigins {
  import opened Outcomes
  import opened PayoutState
  import opened PayoutInvariant
  import opened PayoutEffects
  import opened PayoutRuns
  import PF = PayoutFinalization
  import PayoutProof
  import PayoutTheorems

  /** The step is a call that completed row `i` to what it is, on evidence that was genuine at that moment. */
  ghost predicate CompletionOrigin(db: Payouts, step: Step, i: nat, e': Execution) {
    && step.Complete? && step.input.execution == i < |db.executions|
    && exists at, cents :: Applies(db, step.input, step.now, step.modeOk, at, cents)
                           && RowCompleted(db.executions[i], e', step.input, at, cents, step.now)
  }

  ghost predicate NotYet(db: Payouts, i: nat) {
    i < |db.executions| ==> !db.executions[i].status.COMPLETED?
  }

  lemma CallOrigin(base: map<Id, int>, db: Payouts, input: PF.Input, now: int, modeOk: bool, i: nat)
    requires Valid(base, db) && NotYet(db, i) && PF.Finalize(db, input, now, modeOk).Ok?
    requires var db' := PF.Finalize(db, input, now, modeOk).value.0; i < |db'.executions| && db'.executions[i].status.COMPLETED?
    ensures CompletionOrigin(db, Complete(input, now, modeOk), i, PF.Finalize(db, input, now, modeOk).value.0.executions[i])
  {
    hide Valid, PF.Finalize, Applies, RowCompleted;
    PayoutTheorems.NotAppliedLeavesMoney(db, input, now, modeOk);
    if PF.Finalize(db, input, now, modeOk).value.1 == PF.Done(PF.Completed, true) {
      var at, cents := CompletionWrites(base, db, input, now, modeOk);
    }
  }

  /** Nothing but a call completes an execution. */
  lemma StepOrigin(base: map<Id, int>, db: Payouts, step: Step, i: nat)
    requires Valid(base, db) && NotYet(db, i)
    requires i < |Next(db, step).executions| && Next(db, step).executions[i].status.COMPLETED?
    ensures CompletionOrigin(db, step, i, Next(db, step).executions[i])
  {
    hide Valid, PF.Finalize, CompletionOrigin, Violates;
    if step.Complete? && PF.Finalize(db, step.input, step.now, step.modeOk).Ok? {
      CallOrigin(base, db, step.input, step.now, step.modeOk, i);
    }
  }

  lemma RunLast(db: Payouts, steps: seq<Step>)
    requires steps != []
    ensures Run(db, steps) == Next(Run(db, steps[..|steps| - 1]), steps[|steps| - 1])
  {
    hide Next;
    var n := |steps| - 1;
    RunAppend(db, steps[..n], [steps[n]]);
    assert steps[..n] + [steps[n]] == steps;
    assert Run(Run(db, steps[..n]), [steps[n]]) == Next(Run(db, steps[..n]), steps[n]);
  }

  /**
   Every execution that a run completes was completed by one of its calls: with a claim that was held,
   evidence that was genuine and about this execution and amount, rows that could complete, a reservation
   that covered it, and four eyes on a manual one.
   */
  lemma {:induction false} CompletionWasAuthorised(base: map<Id, int>, db: Payouts, steps: seq<Step>, i: nat)
    requires Valid(base, db) && PayoutProof.BaseOpened(base, db) && NotYet(db, i)
    requires i < |Run(db, steps).executions| && Run(db, steps).executions[i].status.COMPLETED?
    ensures exists n :: 0 <= n < |steps| && CompletionOrigin(Run(db, steps[..n]), steps[n], i, Run(db, steps).executions[i])
    decreases |steps|
  {
    hide Next, CompletionOrigin, Valid;
    if steps != [] {
      var last := |steps| - 1;
      var front := steps[..last];
      var before := Run(db, front);
      RunLast(db, steps);
      PayoutProof.RunKeepsValid(base, db, front);
      if i < |before.executions| && before.executions[i].status.COMPLETED? {
        PayoutTheorems.NextKeepsRows(before, steps[last]);
        CompletionWasAuthorised(base, db, front, i);
        var n :| 0 <= n < |front| && CompletionOrigin(Run(db, front[..n]), front[n], i, before.executions[i]);
        assert front[..n] == steps[..n] && front[n] == steps[n];
      } else {
        StepOrigin(base, before, steps[last], i);
      }
    }
  }
}
