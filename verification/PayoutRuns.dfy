/**
 Runs of the payout tables: completion calls of every source, interleaved with what the rest
 of the platform may do to the same rows under the guards of the database.
 */
module PayoutRuns {
  import opened Outcomes
  import opened PayoutState
  import PF = PayoutFinalization

  datatype Step =
    | Complete(input: PF.Input, now: int, modeOk: bool)
    // The webhook inbox: delivery, claim, return of a lease, and quarantine by an operator.
    | ReceiveWebhook(eventId: Id, event: WebhookEvent)
    | ClaimWebhook(eventId: Id, now: int)
    | ReturnWebhook(eventId: Id)
    | QuarantineWebhook(eventId: Id, note: Note)
    // Requests and executions before their completion.
    | RequestWithdrawal(withdrawal: Withdrawal)
    | MoveWithdrawal(k: nat, moved: Withdrawal)
    | StartExecution(execution: Execution)
    | MoveExecution(k: nat, changed: Execution)
    | OpenBalance(publisher: Id)
    | ChangeStaff(staff: set<Id>)

  function Committed(db: Payouts, r: Result<(Payouts, PF.Reply), PF.Fault>): Payouts {
    if r.Ok? then r.value.0 else db
  }

  function Inbox(db: Payouts, id: Id, v: WebhookEvent): Payouts {
    db.(webhooks := db.webhooks[id := v])
  }

  /** Only the finalizer completes a withdrawal; a completed row is immutable, and so is what was requested. */
  predicate MayMoveWithdrawal(w: Withdrawal, w': Withdrawal) {
    !w.status.COMPLETED? && !w'.status.COMPLETED? && w'.publisher == w.publisher && w'.amount == w.amount
  }

  /** Only the finalizer completes an execution, and a completed row is immutable. */
  predicate MayMoveExecution(e: Execution, e': Execution) {
    !e.status.COMPLETED? && !e'.status.COMPLETED? && e'.completion.None? && e'.withdrawal == e.withdrawal
  }

  function Next(db: Payouts, step: Step): Payouts {
    match step
    case Complete(input, now, modeOk) => Committed(db, PF.Finalize(db, input, now, modeOk))
    case ReceiveWebhook(id, v) =>
      if id in db.webhooks || !v.status.PENDING? || v.attempts != 0 || v.lockedAt.Some? then db else Inbox(db, id, v)
    case ClaimWebhook(id, now) =>
      if id !in db.webhooks || !(db.webhooks[id].status.PENDING? || db.webhooks[id].status.FAILED?) then db
      else
        var v := db.webhooks[id];
        Inbox(db, id, v.(status := WebhookStatus.PROCESSING, attempts := v.attempts + 1, lockedAt := Some(now)))
    case ReturnWebhook(id) =>
      if id !in db.webhooks || !db.webhooks[id].status.PROCESSING? then db
      else Inbox(db, id, db.webhooks[id].(status := WebhookStatus.FAILED, lockedAt := None))
    case QuarantineWebhook(id, note) =>
      if id !in db.webhooks || db.webhooks[id].status.QUARANTINED? then db
      else Inbox(db, id, db.webhooks[id].(status := WebhookStatus.QUARANTINED, lockedAt := None, lastError := Some(note)))
    case RequestWithdrawal(w) =>
      if w.status.COMPLETED? then db else db.(withdrawals := db.withdrawals + [w])
    case MoveWithdrawal(k, w) =>
      if k >= |db.withdrawals| || !MayMoveWithdrawal(db.withdrawals[k], w) then db
      else db.(withdrawals := db.withdrawals[k := w])
    case StartExecution(e) =>
      if e.status.COMPLETED? || e.completion.Some? || e.withdrawal >= |db.withdrawals|
         || Violates(db.executions, |db.executions|, e) then db
      else db.(executions := db.executions + [e])
    case MoveExecution(k, e) =>
      if k >= |db.executions| || !MayMoveExecution(db.executions[k], e) || Violates(db.executions, k, e) then db
      else db.(executions := db.executions[k := e])
    case OpenBalance(publisher) =>
      if publisher in db.balances then db else db.(balances := db.balances[publisher := Balance(0, 0)])
    case ChangeStaff(staff) => db.(staff := staff)
  }

  function Run(db: Payouts, steps: seq<Step>): Payouts
    decreases |steps|
  {
    if steps == [] then db else Run(Next(db, steps[0]), steps[1..])
  }

  lemma {:induction false} RunAppend(db: Payouts, a: seq<Step>, b: seq<Step>)
    ensures Run(db, a + b) == Run(Run(db, a), b)
    decreases |a|
  {
    hide Next;
    if a == [] {
      assert a + b == b;
    } else {
      RunAppend(Next(db, a[0]), a[1..], b);
      assert (a + b)[1..] == a[1..] + b;
    }
  }

  function Flatten(parts: seq<seq<Step>>): seq<Step> {
    if parts == [] then [] else Flatten(parts[..|parts| - 1]) + parts[|parts| - 1]
  }

  lemma RunNothing(db: Payouts)
    ensures Run(db, Flatten([])) == db
  {
  }

  lemma RunFurther(db: Payouts, parts: seq<seq<Step>>, n: nat)
    requires n < |parts|
    ensures Run(db, Flatten(parts[..n + 1])) == Run(Run(db, Flatten(parts[..n])), parts[n])
  {
    hide Next;
    assert parts[..n + 1][..n] == parts[..n];
    RunAppend(db, Flatten(parts[..n]), parts[n]);
  }
}
