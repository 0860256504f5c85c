/**
 The finance tables as the finalizers update them, row by row inside one transaction.
 A thrown error rolls every write of the transaction back.
 */
module FinanceTables {
  import opened Outcomes
  import opened DepositStatus
  import opened WalletState
  import WalletInvariant
  import DC = DepositCredit
  import PD = PaymentDisputes
  import DT = DisputeTransitionProof
  import OrderRefunds
  import SeedFunding
  import FinanceRuns
  import FinanceRunsProof
  import Text

  class Tables {
    var wallets: map<Id, Wallet>
    var ledger: seq<Transaction>
    var attempts: map<Id, DepositAttempt>
    var cases: seq<PaymentDispute>
    var events: map<Id, ProviderEvent>
    var recoveries: map<Id, Recovery>
    var evidence: map<Id, Evidence>
    var orders: map<Id, Order>
    var reservations: seq<OrderReservation>
    var assignments: map<Id, Assignment>
    var orderEvents: seq<RefundIssued>

    function Rows(): Database
      reads this
    {
      Database(wallets, ledger, attempts, cases, events, recoveries, evidence, orders, reservations,
               assignments, orderEvents)
    }

    ghost predicate Valid()
      reads this
    {
      WalletInvariant.Valid(Rows())
    }

    constructor ()
      ensures Valid()
    {
      wallets, ledger, attempts, cases := map[], [], map[], [];
      events, recoveries, evidence, orders, reservations := map[], map[], map[], map[], [];
      assignments, orderEvents := map[], [];
      new;
      FinanceRunsProof.EmptyIsValid();
    }

    /** Rolls the open transaction back to the rows it started from. */
    method Restore(db: Database)
      modifies this
      ensures Rows() == db
    {
      wallets, ledger, attempts, cases := db.wallets, db.ledger, db.attempts, db.cases;
      events, recoveries, evidence := db.events, db.recoveries, db.evidence;
      orders, reservations := db.orders, db.reservations;
      assignments, orderEvents := db.assignments, db.orderEvents;
    }

    /** Other transactions commit while this one waits to be tried again. */
    method Interleave(others: seq<FinanceRuns.Step>)
      modifies this
      ensures Rows() == FinanceRuns.Run(old(Rows()), others)
    {
      Restore(FinanceRuns.Run(Rows(), others));
    }

    /** Appends a ledger row unless one of the unique indexes rejects it. */
    method CreateRow(row: Transaction) returns (unique: bool)
      modifies this`ledger
      ensures unique == !Collides(old(ledger), row)
      ensures ledger == if unique then old(ledger) + [row] else old(ledger)
    {
      unique := !Collides(ledger, row);
      if unique {
        ledger := ledger + [row];
      }
    }

    /** Moves balances of one wallet under its version. */
    method MoveWallet(walletId: Id, available: int, reserved: int)
      requires walletId in wallets
      modifies this`wallets
      ensures Rows() == PD.MoveMoney(old(Rows()), walletId, available, reserved)
    {
      var w := wallets[walletId];
      wallets := wallets[walletId := w.(available := w.available + available, reserved := w.reserved + reserved,
                                        version := w.version + 1)];
    }

    /** Moves balances of one wallet and appends the row that says so; `None` when an index rejects the row. */
    method MoveWithRow(walletId: Id, available: int, reserved: int, row: Transaction) returns (id: Option<nat>)
      requires walletId in wallets
      modifies this`wallets, this`ledger
      ensures id == if Collides(old(ledger), row) then None else Some(|old(ledger)|)
      ensures id.Some? ==> Rows() == PD.MoveMoney(old(Rows()), walletId, available, reserved).(ledger := old(ledger) + [row])
    {
      hide PD.MoveMoney, Collides;
      id := Some(|ledger|);
      MoveWallet(walletId, available, reserved);
      var unique := CreateRow(row);
      if !unique {
        id := None;
      }
    }

    // -------------------------------------------------------------- payment disputes

    /** Reads the cases of the attempt, re-projects its status, and consumes the lease of the event. */
    method CompleteEvent(attemptId: Id, caseId: nat, input: PD.Input, now: int) returns (r: Result<(), PD.Fault>)
      modifies this
      ensures var spec := PD.CompleteEvent(old(Rows()), attemptId, caseId, input, now);
              if spec.Ok? then r.Ok? && Rows() == spec.value else r == Err(spec.error)
    {
      if attemptId !in attempts {
        return Err(PD.ROW_MISSING);
      }
      var lost, open := false, false;
      var i := 0;
      while i < |cases|
        invariant 0 <= i <= |cases|
        invariant lost <==> exists j :: 0 <= j < i && cases[j].depositAttemptId == attemptId && cases[j].status.LOST?
        invariant open <==> exists j :: 0 <= j < i && cases[j].depositAttemptId == attemptId && cases[j].status.OPEN?
      {
        if cases[i].depositAttemptId == attemptId {
          lost := lost || cases[i].status.LOST?;
          open := open || cases[i].status.OPEN?;
        }
        i := i + 1;
      }
      var current := attempts[attemptId].status;
      var status := if RefundProjected(current) then current else if lost then CHARGEBACK else if open then DISPUTED
                    else SUCCEEDED;
      attempts := attempts[attemptId := attempts[attemptId].(status := status)];
      if input.eventId !in events {
        return Err(PD.LOST_RACE);
      }
      var e := events[input.eventId];
      if e.status != CLAIMED || e.attempts != input.claimAttempt || e.lockedAt != Some(input.claimLockedAt)
         || !(e.caseId.None? || e.caseId == Some(caseId))
      {
        return Err(PD.LOST_RACE);
      }
      events := events[input.eventId := e.(status := PROCESSED, processedAt := Some(now), lockedAt := None,
                                           depositAttemptId := Some(attemptId), caseId := Some(caseId))];
      return Ok(());
    }

    method AttachOpening(k: nat, eventId: Id)
      requires k < |cases|
      modifies this`cases
      ensures Rows() == PD.AttachOpening(old(Rows()), k, eventId) && |cases| == old(|cases|)
    {
      var c := cases[k];
      if c.openedBy.None? {
        cases := cases[k := c.(openedBy := Some(eventId), version := c.version + 1)];
      }
    }

    /** Releases the hold of a won case, or debits the hold of a lost one. */
    method ResolveOpen(k: nat, desired: DisputeStatus, input: PD.Input) returns (r: Result<(), PD.Fault>)
      requires k < |cases|
      modifies this`wallets, this`ledger, this`cases
      ensures var spec := PD.ResolveOpen(old(Rows()), k, desired, input);
              if spec.Ok? then r.Ok? && Rows() == spec.value && |cases| == old(|cases|) else r == Err(spec.error)
    {
      hide PD.MoveMoney, PD.DisputeRow, Collides, Text.Upper;
      var c := cases[k];
      if c.walletId !in wallets {
        return Err(PD.ROW_MISSING);
      }
      var w := wallets[c.walletId];
      if Text.Upper(w.currency) != input.facts.currency {
        return Err(PD.WALLET_CURRENCY_MISMATCH);
      }
      if c.held > 0 && w.reserved < c.held {
        return Err(PD.HOLD_MISSING);
      }
      if c.resolutionTransactionId.Some? {
        return Err(PD.LOST_RACE);
      }
      var resolution: Option<nat> := None;
      if c.held > 0 {
        resolution := MoveWithRow(
          c.walletId, if desired.WON? then c.held else 0, -c.held,
          if desired.WON? then PD.DisputeRow(c.walletId, c.held, RESERVATION_ENTRY, input.facts, WonPhase)
          else PD.DisputeRow(c.walletId, -c.held, CHARGEBACK_ENTRY, input.facts, LostPhase));
        if resolution.None? {
          return Err(PD.UNIQUE_VIOLATION);
        }
      }
      cases := cases[k := c.(status := desired, providerStatus := input.facts.providerStatus,
                             resolvedBy := Some(input.eventId), resolutionTransactionId := resolution,
                             exposure := if desired.WON? then 0 else c.shortfall, version := c.version + 1)];
      return Ok(());
    }

    /** Books the first event of a dispute: hold, direct recovery, or a win that moves nothing. */
    method BookCase(d: PD.LinkedDeposit, desired: DisputeStatus, input: PD.Input) returns (r: Result<(), PD.Fault>)
      requires d.row < |ledger|
      modifies this`wallets, this`ledger, this`cases
      ensures var spec := PD.BookCase(old(Rows()), d, desired, input);
              if spec.Ok? then r.Ok? && Rows() == spec.value && |cases| == old(|cases|) + 1 else r == Err(spec.error)
    {
      hide PD.MoveMoney, PD.DisputeRow, CaseSum, Collides, Text.Upper;
      var f := input.facts;
      var deposit := ledger[d.row];
      if CaseSum(DisputedOf(d.row), cases) + f.amountMinor > deposit.amount {
        return Err(PD.CUMULATIVE_AMOUNT_EXCEEDED);
      }
      if deposit.walletId !in wallets {
        return Err(PD.ROW_MISSING);
      }
      var w := wallets[deposit.walletId];
      if Text.Upper(w.currency) != f.currency {
        return Err(PD.WALLET_CURRENCY_MISMATCH);
      }
      if w.available < 0 {
        return Err(PD.WALLET_NEGATIVE);
      }
      var held := 0;
      if !desired.WON? {
        held := if w.available < f.amountMinor then w.available else f.amountMinor;
      }
      var shortfall := f.amountMinor - held;
      var row: Option<nat> := None;
      if held > 0 {
        row := MoveWithRow(
          deposit.walletId, -held, if desired.OPEN? then held else 0,
          if desired.OPEN? then PD.DisputeRow(deposit.walletId, -held, RESERVATION_ENTRY, f, HoldPhase)
          else PD.DisputeRow(deposit.walletId, -held, CHARGEBACK_ENTRY, f, LostPhase));
        if row.None? {
          return Err(PD.UNIQUE_VIOLATION);
        }
      }
      var c := PaymentDispute(
        f.disputeId, f.paymentId, f.chargeId, d.attemptId, d.row, deposit.walletId, f.amountMinor, f.currency,
        held, shortfall, if desired.WON? then 0 else shortfall, desired, f.providerStatus,
        if desired.OPEN? then Some(input.eventId) else None, if desired.OPEN? then None else Some(input.eventId),
        if desired.OPEN? then row else None, if desired.OPEN? then None else row, 0);
      cases := cases + [c];
      return Ok(());
    }

    /** The writes of one dispute transaction; on an error the caller rolls them back. */
    method WriteDispute(input: PD.Input, now: int, modeOk: bool) returns (r: Result<PD.Outcome, PD.Fault>)
      modifies this
      ensures var spec := PD.Transition(old(Rows()), input, now, modeOk);
              if spec.Ok? then r == Ok(spec.value.1) && Rows() == spec.value.0 else r == Err(spec.error)
    {
      hide PD.BookCase, PD.ResolveOpen, PD.AttachOpening, PD.CompleteEvent, PD.FindLinkedDeposit, PD.CaseExact;
      if input.fingerprint != input.facts {
        return Err(PD.EVENT_ENVELOPE_MISMATCH);
      }
      var desired :- PD.TargetStatus(input.facts);
      if input.eventId !in events {
        return Err(PD.EVENT_EVIDENCE_MISSING);
      }
      if !PD.EventExact(events[input.eventId], input) {
        return Err(PD.EVENT_ENVELOPE_MISMATCH);
      }
      var d :- PD.FindLinkedDeposit(Rows(), input.facts);
      PD.LinkedRowExists(Rows(), input.facts);
      if !modeOk {
        return Err(PD.STRIPE_MODE);
      }
      var created, resolved := false, false;
      var existing := PD.FindCase(cases, input.facts.disputeId);
      var k := existing.GetOr(|cases|);
      if existing.Some? {
        if !PD.CaseExact(cases[k], input.facts, Rows(), d) {
          return Err(PD.DISPUTE_IDENTITY_REUSED);
        }
        if desired.OPEN? {
          AttachOpening(k, input.eventId);
        } else if cases[k].status.OPEN? {
          var _ :- ResolveOpen(k, desired, input);
          resolved := true;
        } else if cases[k].status != desired {
          return Err(PD.TERMINAL_CONTRADICTION);
        }
      } else {
        var _ :- BookCase(d, desired, input);
        created, resolved := true, !desired.OPEN?;
      }
      var outcome := PD.OutcomeOf(Rows(), k, created, resolved);
      var _ :- CompleteEvent(d.attemptId, k, input, now);
      return Ok(outcome);
    }

    /** One dispute transaction: all of its writes, or none of them. */
    method TransitionOnce(input: PD.Input, now: int, modeOk: bool) returns (r: Result<PD.Outcome, PD.Fault>)
      modifies this
      ensures Rows() == FinanceRuns.Next(old(Rows()), FinanceRuns.ApplyDispute(input, now, modeOk))
      ensures var spec := PD.Transition(old(Rows()), input, now, modeOk);
              r == if spec.Ok? then Ok(spec.value.1) else Err(spec.error)
    {
      hide PD.Transition;
      var before := Rows();
      r := WriteDispute(input, now, modeOk);
      if r.Err? {
        Restore(before);
      }
    }

    /**
     The bounded retry. `races[i]` is what other transactions commit when attempt `i` loses a
     serialisation race. Whatever the races, the call itself commits its transition at most once.
     */
    method TransitionPaymentDispute(input: PD.Input, now: int, modeOk: bool, races: seq<seq<FinanceRuns.Step>>)
      returns (r: Result<PD.Outcome, PD.Fault>)
      requires Valid()
      modifies this
      ensures Valid()
      ensures var lost := if |races| < DISPUTE_MAX_ATTEMPTS then |races| else DISPUTE_MAX_ATTEMPTS;
              var before := FinanceRuns.Run(old(Rows()), FinanceRuns.Flatten(races[..lost]));
              if lost == DISPUTE_MAX_ATTEMPTS then Rows() == before && r == Err(PD.CONCURRENT_CHANGE)
              else
                && Rows() == FinanceRuns.Next(before, FinanceRuns.ApplyDispute(input, now, modeOk))
                && var spec := PD.Transition(before, input, now, modeOk);
                   r == if spec.Ok? then Ok(spec.value.1) else Err(spec.error)
    {
      hide PD.Transition, FinanceRuns.Next, WalletInvariant.Valid, FinanceRuns.Run, FinanceRuns.Flatten;
      var attempt := 0;
      FinanceRuns.RunNothing(Rows());
      assert races[..0] == [];
      while attempt < DISPUTE_MAX_ATTEMPTS
        invariant 0 <= attempt <= DISPUTE_MAX_ATTEMPTS && attempt <= |races| && Valid()
        invariant Rows() == FinanceRuns.Run(old(Rows()), FinanceRuns.Flatten(races[..attempt]))
      {
        if attempt == |races| {
          FinanceRunsProof.NextKeepsValid(Rows(), FinanceRuns.ApplyDispute(input, now, modeOk));
          r := TransitionOnce(input, now, modeOk);
          return;
        }
        FinanceRuns.RunFurther(old(Rows()), races, attempt);
        FinanceRunsProof.RunKeepsValid(Rows(), races[attempt]);
        Interleave(races[attempt]);
        attempt := attempt + 1;
      }
      return Err(PD.CONCURRENT_CHANGE);
    }

    // -------------------------------------------------------------- deposit credit

    /** Consumes the authority of a credit, or accepts the processed event that already names the attempt. */
    method CompleteAuthority(authority: DC.Authority, attemptId: Id, now: int) returns (r: Result<(), DC.Fault>)
      modifies this
      ensures var spec := DC.CompleteAuthority(old(Rows()), authority, attemptId, now);
              if spec.Ok? then r.Ok? && Rows() == spec.value else r == Err(spec.error)
    {
      match authority {
        case WebhookEvent(eventId, lease) =>
          if lease.Seen? {
            if lease.status != PROCESSED || eventId !in events || events[eventId].depositAttemptId != Some(attemptId) {
              return Err(DC.AUTHORITY_EVIDENCE_MISMATCH);
            }
          } else {
            if eventId !in events || !DC.OwnsLease(events[eventId], lease) {
              return Err(DC.LOST_RACE);
            }
            events := events[eventId := events[eventId].(status := PROCESSED, processedAt := Some(now), lockedAt := None,
                                                         depositAttemptId := Some(attemptId))];
          }
        case ByRecovery(recoveryId, evidenceId, claimed, lockedAt) =>
          if recoveryId !in recoveries {
            return Err(DC.LOST_RACE);
          }
          var q := recoveries[recoveryId];
          if q.depositAttemptId != attemptId || q.status != CLAIMED || q.attempts != claimed
             || q.lockedAt != Some(lockedAt) || q.evidenceId.Some?
          {
            return Err(DC.LOST_RACE);
          }
          recoveries := recoveries[recoveryId := q.(status := PROCESSED, lockedAt := None, evidenceId := Some(evidenceId))];
      }
      return Ok(());
    }

    /** The writes of a first credit: ledger row, wallet increment, attempt. */
    method WriteCredit(attemptId: Id, f: CreditFacts)
      requires attemptId in attempts && attempts[attemptId].walletId in wallets && DC.Replays(ledger, f) == {}
      modifies this
      ensures Rows() == DC.Credited(old(Rows()), attemptId, f)
    {
      var a := attempts[attemptId];
      var ledgerId := |ledger|;
      forall i | 0 <= i < |ledger|
        ensures ledger[i].reference != TextReference(f.sessionId)
        ensures ledger[i].provider != Some(STRIPE) || ledger[i].providerRef != Some(f.paymentId)
      {
        assert i !in DC.Replays(ledger, f);
      }
      var unique := CreateRow(DC.DepositRow(a, attemptId, f));
      assert unique;
      var w := wallets[a.walletId];
      wallets := wallets[a.walletId := w.(available := w.available + f.checkoutAmount, version := w.version + 1)];
      attempts := attempts[attemptId := a.(status := SUCCEEDED, providerPaymentId := Some(f.paymentId),
                                           providerChargeId := f.chargeId, ledgerTransactionId := Some(ledgerId))];
    }

    method WriteDeposit(authority: DC.Authority, f: CreditFacts, now: int, modeOk: bool)
      returns (r: Result<DC.Outcome, DC.Fault>)
      modifies this
      ensures var spec := DC.Finalize(old(Rows()), authority, f, now, modeOk);
              if spec.Ok? then r == Ok(spec.value.1) && Rows() == spec.value.0 else r == Err(spec.error)
    {
      hide DC.CheckProviderFacts, DC.CompleteAuthority, DC.Credited, DC.AttemptExact;
      var _ :- DC.CheckProviderFacts(f);
      var _ :- DC.CheckAuthority(Rows(), authority, f);
      var id :- DC.FindExactAttempt(Rows(), f);
      var a := attempts[id];
      if authority.ByRecovery? && recoveries[authority.recoveryId].depositAttemptId != id {
        return Err(DC.AUTHORITY_EVIDENCE_MISMATCH);
      }
      if !modeOk {
        return Err(DC.STRIPE_MODE);
      }
      if a.walletId !in wallets {
        return Err(DC.ROW_MISSING);
      }
      if wallets[a.walletId].currency != USD {
        return Err(DC.DEPOSIT_WALLET_CURRENCY_MISMATCH);
      }
      var replay :- DC.ExactLedgerReplay(Rows(), a, f);
      if replay.Some? {
        var _ :- CompleteAuthority(authority, id, now);
        return Ok(DC.Outcome(id, a.walletId, replay.value, false));
      }
      if !CreditablePreCredit(a.status) || a.ledgerTransactionId.Some? {
        return Err(DC.DEPOSIT_ATTEMPT_STATE_MISMATCH);
      }
      var ledgerId := |ledger|;
      WriteCredit(id, f);
      var _ :- CompleteAuthority(authority, id, now);
      return Ok(DC.Outcome(id, a.walletId, ledgerId, true));
    }

    /** One credit transaction: all of its writes, or none of them. */
    method FinalizeOnce(authority: DC.Authority, f: CreditFacts, now: int, modeOk: bool)
      returns (r: Result<DC.Outcome, DC.Fault>)
      modifies this
      ensures Rows() == FinanceRuns.Next(old(Rows()), FinanceRuns.CreditDeposit(authority, f, now, modeOk))
      ensures var spec := DC.Finalize(old(Rows()), authority, f, now, modeOk);
              r == if spec.Ok? then Ok(spec.value.1) else Err(spec.error)
    {
      hide DC.Finalize;
      var before := Rows();
      r := WriteDeposit(authority, f, now, modeOk);
      if r.Err? {
        Restore(before);
      }
    }

    /**
     The bounded retry of a credit. A lost race is tried again; the last one is thrown. The
     call credits the wallet at most once, on top of what the others committed in between.
     */
    method FinalizeDepositCredit(authority: DC.Authority, f: CreditFacts, now: int, modeOk: bool,
                                 races: seq<seq<FinanceRuns.Step>>)
      returns (r: Result<DC.Outcome, DC.Fault>)
      modifies this
      ensures var lost := if |races| < CREDIT_MAX_ATTEMPTS then |races| else CREDIT_MAX_ATTEMPTS;
              var before := FinanceRuns.Run(old(Rows()), FinanceRuns.Flatten(races[..lost]));
              if DC.CheckProviderFacts(f).Err? then Rows() == old(Rows()) && r == Err(DC.CheckProviderFacts(f).error)
              else if lost == CREDIT_MAX_ATTEMPTS then Rows() == before && r == Err(DC.LOST_RACE)
              else
                && Rows() == FinanceRuns.Next(before, FinanceRuns.CreditDeposit(authority, f, now, modeOk))
                && var spec := DC.Finalize(before, authority, f, now, modeOk);
                   r == if spec.Ok? then Ok(spec.value.1) else Err(spec.error)
    {
      hide DC.Finalize, DC.CheckProviderFacts, FinanceRuns.Run, FinanceRuns.Flatten;
      var _ :- DC.CheckProviderFacts(f);
      var attempt, tried := 0, 0;
      FinanceRuns.RunNothing(Rows());
      assert races[..0] == [];
      r := Err(DC.LOST_RACE);
      while attempt < CREDIT_MAX_ATTEMPTS
        invariant 0 <= tried <= attempt <= CREDIT_MAX_ATTEMPTS && tried <= |races| && r == Err(DC.LOST_RACE)
        invariant tried < attempt ==>
                    tried == |races| && DC.Finalize(Rows(), authority, f, now, modeOk) == Err(DC.LOST_RACE)
        invariant Rows() == FinanceRuns.Run(old(Rows()), FinanceRuns.Flatten(races[..tried]))
      {
        if tried < |races| {
          FinanceRuns.RunFurther(old(Rows()), races, tried);
          Interleave(races[tried]);
          tried := tried + 1;
        } else {
          r := FinalizeOnce(authority, f, now, modeOk);
          if r != Err(DC.LOST_RACE) {
            return;
          }
        }
        attempt := attempt + 1;
      }
    }

    // -------------------------------------------------------------- seed funding

    method UpsertWallet(walletId: Id, organizationId: Id, userId: Id)
      modifies this`wallets
      ensures Rows() == SeedFunding.Opened(old(Rows()), walletId, organizationId, userId)
    {
      if walletId !in wallets {
        wallets := wallets[walletId := Wallet(0, 0, USD, Some(organizationId), Some(userId), 0)];
      }
    }

    method WalletLedgerParity(walletId: Id) returns (parity: bool)
      requires walletId in wallets
      ensures parity == SeedFunding.WalletLedgerParity(Rows(), walletId)
    {
      var w := wallets[walletId];
      parity := w.available + w.reserved == LedgerSum(BalanceRows(walletId), ledger);
    }

    /** The seed row first, then the increment of the wallet. */
    method WriteSeed(walletId: Id) returns (unique: bool)
      requires walletId in wallets
      modifies this`wallets, this`ledger
      ensures unique == !Collides(old(ledger), SeedFunding.NewRow(walletId))
      ensures unique ==> Rows() == SeedFunding.Funded(old(Rows()), walletId)
    {
      hide PD.MoveMoney, SeedFunding.NewRow, Collides;
      unique := CreateRow(SeedFunding.NewRow(walletId));
      if unique {
        OnlyAvailable(Rows(), walletId, SeedFunding.SEED_AMOUNT);
        MoveWallet(walletId, SeedFunding.SEED_AMOUNT, 0);
      }
    }

    /** The writes of the seed; on an error the caller rolls them back. */
    method WriteFunding(walletId: Id, organizationId: Id, userId: Id) returns (r: Result<bool, SeedFunding.Fault>)
      modifies this`wallets, this`ledger
      ensures var spec := SeedFunding.EnsureFunding(old(Rows()), walletId, organizationId, userId);
              if spec.Ok? then r == Ok(spec.value.1) && Rows() == spec.value.0 else r == Err(spec.error)
    {
      hide SeedFunding.SeedRow, SeedFunding.ExactEvidence, SeedFunding.Opened, SeedFunding.NewRow,
        SeedFunding.WalletLedgerParity, SeedFunding.Funded, Collides;
      var before := Rows();
      UpsertWallet(walletId, organizationId, userId);
      var w := wallets[walletId];
      if w.organizationId != Some(organizationId) || w.userId != Some(userId) || w.currency != USD {
        return Err(SeedFunding.WALLET_IDENTITY);
      }
      var existing := SeedFunding.SeedRow(ledger);
      if existing.Some? && !SeedFunding.ExactEvidence(before, existing.value, walletId) {
        return Err(SeedFunding.EVIDENCE_CONFLICT);
      }
      var parity := WalletLedgerParity(walletId);
      if !parity {
        return Err(SeedFunding.PARITY_BROKEN);
      }
      if existing.Some? {
        return Ok(false);
      }
      var unique := WriteSeed(walletId);
      if !unique {
        return Err(SeedFunding.UNIQUE_VIOLATION);
      }
      return Ok(true);
    }

    /** Opens the wallet if needed, and funds it unless the exact seed deposit is there; a fault undoes both. */
    method EnsureDevelopmentSeedFunding(walletId: Id, organizationId: Id, userId: Id)
      returns (r: Result<bool, SeedFunding.Fault>)
      modifies this
      ensures var spec := SeedFunding.EnsureFunding(old(Rows()), walletId, organizationId, userId);
              if spec.Ok? then r == Ok(spec.value.1) && Rows() == spec.value.0 else r == Err(spec.error) && Rows() == old(Rows())
    {
      hide SeedFunding.EnsureFunding;
      var before := Rows();
      r := WriteFunding(walletId, organizationId, userId);
      if r.Err? {
        Restore(before);
      }
    }

    // -------------------------------------------------------------- order refund

    /** The writes of a refund; on an error the caller rolls them back. */
    method WriteRefund(orderId: Id, o: Order, walletId: Id, input: OrderRefunds.RefundInput)
      returns (r: Result<(), OrderRefunds.Fault>)
      modifies this`wallets, this`ledger, this`orders, this`assignments, this`orderEvents
      ensures var spec := OrderRefunds.Refund(old(Rows()), orderId, o, walletId, input);
              if spec.Ok? then r.Ok? && Rows() == spec.value else r == Err(spec.error)
    {
      hide OrderRefunds.Cancelled, OrderRefunds.Closed, OrderRefunds.RefundRow, PD.MoveMoney, Collides;
      if o.status != PAID && o.status != SUBMITTED {
        return Err(OrderRefunds.NOT_REFUNDABLE);
      }
      if o.paymentStatus != PAYMENT_PAID {
        return Err(OrderRefunds.NOT_CAPTURED);
      }
      if o.currency != USD {
        return Err(OrderRefunds.ORDER_NOT_USD);
      }
      if walletId !in wallets || wallets[walletId].organizationId != Some(o.organizationId) {
        return Err(OrderRefunds.WALLET_MISSING);
      }
      if wallets[walletId].currency != USD {
        return Err(OrderRefunds.WALLET_NOT_USD);
      }
      OnlyAvailable(Rows(), walletId, o.amount);
      MoveWallet(walletId, o.amount, 0);
      if orderId !in orders || orders[orderId].version != o.version || orders[orderId].status != o.status
         || orders[orderId].paymentStatus != PAYMENT_PAID
      {
        return Err(OrderRefunds.ORDER_CHANGED);
      }
      orders := orders[orderId := OrderRefunds.Closed(orders[orderId], input)];
      assignments := OrderRefunds.Cancelled(assignments, orderId);
      var row := |ledger|;
      var unique := CreateRow(OrderRefunds.RefundRow(orderId, o, walletId, input));
      if !unique {
        return Err(OrderRefunds.UNIQUE_VIOLATION);
      }
      orderEvents := orderEvents + [RefundIssued(orderId, input.actor, input.reason, input.responsibility, row)];
      return Ok(());
    }

    /** One refund transaction: all of its writes, or none of them. */
    method RefundUnacceptedPaidOrder(orderId: Id, o: Order, walletId: Id, input: OrderRefunds.RefundInput)
      returns (r: Result<(), OrderRefunds.Fault>)
      modifies this
      ensures var spec := OrderRefunds.Refund(old(Rows()), orderId, o, walletId, input);
              if spec.Ok? then r.Ok? && Rows() == spec.value else r == Err(spec.error) && Rows() == old(Rows())
    {
      hide OrderRefunds.Refund;
      var before := Rows();
      r := WriteRefund(orderId, o, walletId, input);
      if r.Err? {
        Restore(before);
      }
    }
  }

  lemma OnlyAvailable(db: Database, walletId: Id, amount: int)
    requires walletId in db.wallets
    ensures var w := db.wallets[walletId];
            PD.MoveMoney(db, walletId, amount, 0).wallets
            == db.wallets[walletId := w.(available := w.available + amount, version := w.version + 1)]
  {
    assert db.wallets[walletId].reserved + 0 == db.wallets[walletId].reserved;
  }

  const DISPUTE_MAX_ATTEMPTS: nat := 4
  const CREDIT_MAX_ATTEMPTS: nat := 4
}
