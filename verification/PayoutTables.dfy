/**
 The payout tables as the finalizer updates them, row by row inside one transaction. A
 thrown error rolls every write of the transaction back.
 */
module PayoutTables {
  import opened Outcomes
  import opened PayoutState
  import PayoutRuns
  import PF = PayoutFinalization

  const SERIALIZABLE_ATTEMPTS: nat := 7

  class Tables {
    var executions: seq<Execution>
    var withdrawals: seq<Withdrawal>
    var balances: map<Id, Balance>
    var webhooks: map<Id, WebhookEvent>
    var staff: set<Id>

    function Rows(): Payouts
      reads this
    {
      Payouts(executions, withdrawals, balances, webhooks, staff)
    }

    constructor ()
      ensures Rows() == Payouts([], [], map[], map[], {})
    {
      executions, withdrawals, balances, webhooks, staff := [], [], map[], map[], {};
    }

    /** Rolls the open transaction back to the rows it started from. */
    method Restore(db: Payouts)
      modifies this
      ensures Rows() == db
    {
      executions, withdrawals, balances, webhooks, staff := db.executions, db.withdrawals, db.balances, db.webhooks, db.staff;
    }

    /** Other transactions commit while this one waits to be tried again. */
    method Interleave(others: seq<PayoutRuns.Step>)
      modifies this
      ensures Rows() == PayoutRuns.Run(old(Rows()), others)
    {
      Restore(PayoutRuns.Run(Rows(), others));
    }

    method LockAndOwnWebhookLease(evidence: PF.Evidence) returns (owned: bool)
      ensures owned == PF.OwnsLease(Rows(), evidence)
    {
      if !evidence.Webhook? {
        return true;
      }
      if evidence.eventId !in webhooks {
        return false;
      }
      var v := webhooks[evidence.eventId];
      return v.status.PROCESSING? && evidence.attempt > 0 && evidence.lockedAt.Some? && v.attempts == evidence.attempt
             && v.lockedAt == evidence.lockedAt;
    }

    /** Ends the lease of a webhook, unless it is not this claim's lease any more. */
    method UpdateWebhookTerminalState(evidence: PF.Evidence, status: WebhookStatus, now: int, error: Option<Note>)
      returns (updated: bool)
      modifies this`webhooks
      ensures updated == PF.OwnsLease(old(Rows()), evidence)
      ensures Rows() == if updated then PF.Terminal(old(Rows()), evidence, status, now, error) else old(Rows())
    {
      updated := LockAndOwnWebhookLease(evidence);
      if updated && evidence.Webhook? {
        var v := webhooks[evidence.eventId];
        webhooks := webhooks[evidence.eventId := v.(status := status, lockedAt := None, processedAt := Some(now),
                                                    lastError := error)];
      }
    }

    method DeterministicConflict(evidence: PF.Evidence, code: Code, now: int) returns (reply: PF.Reply)
      modifies this`webhooks
      ensures if PF.OwnsLease(old(Rows()), evidence) then (Rows(), reply) == PF.Refuse(old(Rows()), evidence, code, now)
              else Rows() == old(Rows()) && reply == PF.Conflict(WEBHOOK_LEASE_LOST)
    {
      var terminalized := UpdateWebhookTerminalState(
        evidence, if evidence.Webhook? then WebhookStatus.QUARANTINED else WebhookStatus.IGNORED, now, Some(ConflictNote(code)));
      if !terminalized {
        return PF.Conflict(WEBHOOK_LEASE_LOST);
      }
      return PF.Conflict(code);
    }

    /** Filters the unreleased allocations, adds them up, and looks for one that is not a positive USD amount. */
    method AllocationsCover(w: Withdrawal) returns (covered: bool)
      ensures covered == PF.Covered(w)
    {
      hide Active, Total, AllSound;
      var active: seq<Allocation>, total, sound := [], 0, true;
      assert w.allocations[..0] == [];
      NoAllocations(w.currency);
      var i := 0;
      while i < |w.allocations|
        invariant 0 <= i <= |w.allocations|
        invariant active == Active(w.allocations[..i]) && total == Total(active) && sound == AllSound(active, w.currency)
      {
        var a := w.allocations[i];
        ActiveStep(w.allocations, i);
        if a.releasedAt.None? {
          TotalAppend(active, a);
          AllSoundAppend(active, a, w.currency);
          active, total := active + [a], total + a.amount;
          sound := sound && a.currency == USD && a.currency == w.currency && a.amount > 0;
        }
        i := i + 1;
      }
      assert w.allocations[..i] == w.allocations;
      return active != [] && total == w.amount && sound;
    }

    /** Writes the execution unless its evidence is taken or one of the unique indexes rejects it. */
    method CompleteExecution(k: nat, e': Execution) returns (r: Result<(), PF.Fault>)
      requires k < |executions|
      modifies this`executions
      ensures r == if old(executions)[k].completion.Some? then Err(PF.EXECUTION_CHANGED)
                   else if Violates(old(executions), k, e') then Err(PF.UNIQUE_VIOLATION) else Ok(())
      ensures executions == if r.Ok? then old(executions)[k := e'] else old(executions)
    {
      if executions[k].completion.Some? {
        return Err(PF.EXECUTION_CHANGED);
      }
      if Violates(executions, k, e') {
        return Err(PF.UNIQUE_VIOLATION);
      }
      executions := executions[k := e'];
      return Ok(());
    }

    /** The money-moving tail of the transaction: execution, withdrawal, balance, inbox. */
    method WriteCompletion(input: PF.Input, at: int, amountMinor: Option<int>, now: int) returns (r: Result<PF.Reply, PF.Fault>)
      requires PF.OwnsLease(Rows(), input.evidence)
      requires input.execution < |executions| && input.withdrawal < |withdrawals|
      modifies this
      ensures var spec := PF.Finish(old(Rows()), input, at, amountMinor, now);
              if spec.Ok? then r == Ok(spec.value.1) && Rows() == spec.value.0 else r == Err(spec.error)
    {
      hide PF.CompletedExecution, Violates;
      var w := withdrawals[input.withdrawal];
      if w.publisher !in balances {
        return Err(PF.BALANCE_MISSING);
      }
      var completedAt := if at > now then at else now;
      var _ :- CompleteExecution(input.execution,
                                 PF.CompletedExecution(executions[input.execution], input, at, amountMinor, now));
      withdrawals := withdrawals[input.withdrawal := w.(status := WithdrawalStatus.COMPLETED, version := w.version + 1)];
      var b := balances[w.publisher];
      balances := balances[w.publisher := Balance(b.lifetimePaid + w.amount, b.version + 1)];
      var terminalized := UpdateWebhookTerminalState(input.evidence, WebhookStatus.PROCESSED, completedAt, None);
      if !terminalized {
        return Err(PF.LEASE_CHANGED);
      }
      return Ok(PF.Done(PF.Completed, true));
    }

    /** The checks of the transaction in their order, up to the decision. */
    method Judge(input: PF.Input, now: int, modeOk: bool) returns (d: Result<PF.Decision, Code>)
      ensures d == PF.Decide(Rows(), input, now, modeOk)
      ensures d.Ok? ==> input.execution < |executions| && input.withdrawal < |withdrawals|
    {
      hide PF.CheckRoute, PF.ReadEvidence, PF.CheckTime, PF.CheckAuthority, PF.Recognise, PF.CheckState, PF.CheckParties,
        PF.Covered, PF.AmountsAgree;
      if input.withdrawal >= |withdrawals| {
        return Err(WITHDRAWAL_NOT_FOUND);
      }
      if input.execution >= |executions| {
        return Err(EXECUTION_NOT_FOUND);
      }
      var e, w := executions[input.execution], withdrawals[input.withdrawal];
      var _ :- PF.CheckRoute(e, w, input, modeOk);
      var facts :- PF.ReadEvidence(Rows(), e, input);
      var at :- PF.CheckTime(facts, input, now);
      var _ :- PF.CheckAuthority(Rows(), e, facts, input);
      if e.status.COMPLETED? {
        var exact :- PF.Recognise(e, w, input, at);
        return Ok(PF.Recognised(exact));
      }
      var _ :- PF.CheckState(e, w, input);
      if !PF.AmountsAgree(e, w) {
        return Err(AMOUNT_CURRENCY_MISMATCH);
      }
      var covered := AllocationsCover(w);
      if !covered {
        return Err(RESERVATION_MISMATCH);
      }
      var _ :- PF.CheckParties(e, w, input, at, now);
      if PF.Competing(executions, input.execution, input.withdrawal) {
        return Err(COMPETING_EXECUTION);
      }
      if PF.Reused(executions, input.execution, e.provider.id, PF.EvidenceReference(input), input.evidence.ManualBank?) {
        return Err(EVIDENCE_ALREADY_USED);
      }
      return Ok(PF.Complete(at, facts.amountMinor));
    }

    method FinalizeInTransaction(input: PF.Input, now: int, modeOk: bool) returns (r: Result<PF.Reply, PF.Fault>)
      modifies this
      ensures var spec := PF.Finalize(old(Rows()), input, now, modeOk);
              if spec.Ok? then r == Ok(spec.value.1) && Rows() == spec.value.0 else r == Err(spec.error)
    {
      hide PF.Decide, PF.Finish, PF.Terminal;
      var owned := LockAndOwnWebhookLease(input.evidence);
      if !owned {
        return Ok(PF.Conflict(WEBHOOK_LEASE_LOST));
      }
      var d := Judge(input, now, modeOk);
      if d.Err? {
        var reply := DeterministicConflict(input.evidence, d.error, now);
        return Ok(reply);
      }
      if d.value.Complete? {
        r := WriteCompletion(input, d.value.at, d.value.amountMinor, now);
        return;
      }
      var terminalized := UpdateWebhookTerminalState(
        input.evidence, if d.value.exact then WebhookStatus.PROCESSED else WebhookStatus.IGNORED, now,
        if d.value.exact then None else Some(CorroboratesExistingCompletion));
      if !terminalized {
        return Ok(PF.Conflict(WEBHOOK_LEASE_LOST));
      }
      return Ok(PF.Done(if d.value.exact then PF.Replayed else PF.Corroborated, false));
    }

    /** One transaction: all of its writes, or none of them. */
    method FinalizeOnce(input: PF.Input, now: int, modeOk: bool) returns (r: Result<PF.Reply, PF.Fault>)
      modifies this
      ensures Rows() == PayoutRuns.Next(old(Rows()), PayoutRuns.Complete(input, now, modeOk))
      ensures var spec := PF.Finalize(old(Rows()), input, now, modeOk);
              r == if spec.Ok? then Ok(spec.value.1) else Err(spec.error)
    {
      hide PF.Finalize;
      var before := Rows();
      r := FinalizeInTransaction(input, now, modeOk);
      if r.Err? {
        Restore(before);
      }
    }

    /** The separate transaction that quarantines a webhook after a unique violation. */
    method AuditUniqueCollision(evidence: PF.Evidence, now: int)
      modifies this`webhooks
      ensures Rows() == PF.AuditCollision(old(Rows()), evidence, now)
    {
      var owned := LockAndOwnWebhookLease(evidence);
      if owned {
        var _ := DeterministicConflict(evidence, EVIDENCE_ALREADY_USED, now);
      }
    }

    /**
     The bounded retry of a completion. `races[i]` is what others commit when attempt `i` loses a
     serialisation race; the seventh loss is thrown. The call commits at most one completion step,
     on top of what the others committed.
     */
    method FinalizePayoutExecution(input: PF.Input, now: int, modeOk: bool, races: seq<seq<PayoutRuns.Step>>)
      returns (r: Result<PF.Reply, PF.Fault>)
      modifies this
      ensures var lost := if |races| < SERIALIZABLE_ATTEMPTS then |races| else SERIALIZABLE_ATTEMPTS;
              var before := PayoutRuns.Run(old(Rows()), PayoutRuns.Flatten(races[..lost]));
              var spec := PF.Finalize(before, input, now, modeOk);
              if lost == SERIALIZABLE_ATTEMPTS then Rows() == before && r == Err(PF.SERIALIZATION)
              else if spec == Err(PF.UNIQUE_VIOLATION) then
                Rows() == PF.AuditCollision(before, input.evidence, now) && r == Ok(PF.Conflict(EVIDENCE_ALREADY_USED))
              else
                && Rows() == PayoutRuns.Next(before, PayoutRuns.Complete(input, now, modeOk))
                && r == if spec.Ok? then Ok(spec.value.1) else Err(spec.error)
    {
      hide PF.Finalize, PayoutRuns.Run, PayoutRuns.Flatten;
      var attempt := 0;
      PayoutRuns.RunNothing(Rows());
      assert races[..0] == [];
      while attempt < SERIALIZABLE_ATTEMPTS
        invariant 0 <= attempt <= SERIALIZABLE_ATTEMPTS && attempt <= |races|
        invariant Rows() == PayoutRuns.Run(old(Rows()), PayoutRuns.Flatten(races[..attempt]))
      {
        if attempt < |races| {
          PayoutRuns.RunFurther(old(Rows()), races, attempt);
          Interleave(races[attempt]);
          attempt := attempt + 1;
        } else {
          r := FinalizeOnce(input, now, modeOk);
          if r == Err(PF.UNIQUE_VIOLATION) {
            AuditUniqueCollision(input.evidence, now);
            r := Ok(PF.Conflict(EVIDENCE_ALREADY_USED));
          }
          return;
        }
      }
      return Err(PF.SERIALIZATION);
    }
  }

  lemma NoAllocations(currency: string)
    ensures Active([]) == [] && Total([]) == 0 && AllSound([], currency)
  {
  }
}
