/** The whole dispute transaction: it keeps the invariants, and exactly when it commits. */
module DisputeTransitionProof {
  import opened Outcomes
  import opened DepositStatus
  import opened WalletState
  import opened WalletInvariant
  import opened PaymentDisputes
  import opened PaymentDisputeProof
  import Text

  /** A replayed terminal event changes no case, so only its own completion is due. */
  lemma ReplayKeeps(db: Database, d: LinkedDeposit, desired: DisputeStatus, input: Input, k: nat)
    requires Valid(db) && Checked(db, d, desired, input)
    requires k < |db.cases| && db.cases[k].disputeId == input.facts.disputeId && db.cases[k].depositAttemptId == d.attemptId
    ensures Booked(db, d.attemptId, k, input)
  {
    hide Valid, Base, Checked, MoneyValid, AmountsValid, RowsDistinct, DepositsOwned, AttemptsLinked, DisputeRowsOwned,
      SessionsDistinct, DisputesBounded, EventsValid, EvidenceValid, Projected, CasesValid, CaseShape, CaseLinked, Booked;
    ValidParts(db);
    ValidCase(db, k);
    assert db.cases == db.cases[k := db.cases[k]];
    CaseChangeBooked(db, db, k, db.cases[k], d, desired, input);
  }

  /** A successful branch leaves the state that completing its event turns into a valid one. */
  lemma ApplyKeeps(db: Database, d: LinkedDeposit, desired: DisputeStatus, input: Input)
    requires Valid(db) && Checked(db, d, desired, input) && d.row < |db.ledger|
    requires Apply(db, d, desired, input).Ok?
    ensures var (db', o) := Apply(db, d, desired, input).value; Booked(db', d.attemptId, o.caseId, input)
  {
    hide Valid, Checked, Booked, BookCase, ResolveOpen, FindCase;
    var found := FindCase(db.cases, input.facts.disputeId);
    match found
    case None =>
      BookKeeps(db, d, desired, input);
    case Some(k) =>
      if desired.OPEN? {
        AttachKeeps(db, d, input, k);
      } else if !db.cases[k].status.OPEN? {
        ReplayKeeps(db, d, desired, input, k);
      } else {
        ResolveKeeps(db, d, desired, input, k);
      }
  }

  /** What a committed transition has passed through. */
  lemma TransitionReads(db: Database, input: Input, now: int, modeOk: bool)
    returns (d: LinkedDeposit, desired: DisputeStatus, between: Database, o: Outcome)
    requires Transition(db, input, now, modeOk).Ok?
    ensures Checked(db, d, desired, input) && d.row < |db.ledger| && modeOk && input.fingerprint == input.facts
    ensures Apply(db, d, desired, input) == Ok((between, o))
    ensures CompleteEvent(between, d.attemptId, o.caseId, input, now) == Ok(Transition(db, input, now, modeOk).value.0)
    ensures o == Transition(db, input, now, modeOk).value.1
  {
    desired := TargetStatus(input.facts).value;
    d := FindLinkedDeposit(db, input.facts).value;
    between := Apply(db, d, desired, input).value.0;
    o := Apply(db, d, desired, input).value.1;
  }

  lemma TransitionKeepsValid(db: Database, input: Input, now: int, modeOk: bool)
    requires Valid(db) && Transition(db, input, now, modeOk).Ok?
    ensures Valid(Transition(db, input, now, modeOk).value.0)
  {
    hide Valid, Transition, Apply, Checked, Booked, CompleteEvent;
    var d, desired, between, o := TransitionReads(db, input, now, modeOk);
    ApplyKeeps(db, d, desired, input);
    CompleteKeeps(between, d.attemptId, o.caseId, input, now);
  }

  // ---------------------------------------------------------------- the defensive faults are unreachable

  /** Faults that would mean that money, rows or a lease had gone missing inside one transaction. */
  ghost predicate Defensive(fault: Fault) {
    fault in {WALLET_NEGATIVE, HOLD_MISSING, UNIQUE_VIOLATION, LOST_RACE, ROW_MISSING}
  }

  /** The hold of an open case is present in the reserved balance of its wallet. */
  lemma HoldPresent(db: Database, k: nat)
    requires Valid(db) && k < |db.cases| && db.cases[k].status.OPEN?
    ensures WalletOf(db, db.cases[k].walletId).reserved >= db.cases[k].held
  {
    var w := db.cases[k].walletId;
    assert BalancedIn(db, w);
    OpenHoldsCover(w, db.cases, k);
    ReservationSumNonNegative(w, db.reservations);
  }

  /** The reference of a phase is free while its case has no row for that phase. */
  lemma ReferenceFree(db: Database, disputeId: Id, phase: Phase)
    requires Valid(db)
    requires forall k :: 0 <= k < |db.cases| && db.cases[k].disputeId == disputeId ==>
               (if phase.HoldPhase? then db.cases[k].holdTransactionId.None? else db.cases[k].resolutionTransactionId.None?)
    ensures !ReferenceTaken(db.ledger, DisputeReference(disputeId, phase))
  {
    hide MoneyValid, RowsDistinct, DepositsOwned, AttemptsLinked, EventsValid, EvidenceValid, Projected, DisputesBounded,
      CasesValid;
    forall i | 0 <= i < |db.ledger| && db.ledger[i].reference.DisputeReference?
      ensures db.ledger[i].reference != DisputeReference(disputeId, phase)
    {
      var k: nat :| DisputeRowOwned(db.ledger[i], i, db.cases, k);
      assert db.cases[k].disputeId == db.ledger[i].reference.disputeId;
    }
  }

  ghost predicate Usable(db: Database, walletId: Id, currency: string) {
    Text.Upper(WalletOf(db, walletId).currency) == currency
  }

  /** The wallet of a case exists, because its deposit has been credited there. */
  lemma CaseWalletExists(db: Database, k: nat)
    requires Valid(db) && k < |db.cases|
    ensures db.cases[k].walletId in db.wallets
  {
    ValidCase(db, k);
    assert AttemptLinked(db.cases[k].depositAttemptId, db.attempts[db.cases[k].depositAttemptId], db.ledger);
  }

  lemma ResolutionReferenceFree(db: Database, k: nat, phase: Phase)
    requires Valid(db) && k < |db.cases| && db.cases[k].status.OPEN? && !phase.HoldPhase?
    ensures !ReferenceTaken(db.ledger, DisputeReference(db.cases[k].disputeId, phase))
  {
    hide MoneyValid, RowsDistinct, DepositsOwned, AttemptsLinked, EventsValid, EvidenceValid, Projected, DisputeRowsOwned,
      DisputesBounded, ReferenceTaken, CaseLinked;
    ReferenceFree(db, db.cases[k].disputeId, phase);
  }

  lemma ResolveNeverDefensive(db: Database, k: nat, desired: DisputeStatus, input: Input)
    requires Valid(db) && k < |db.cases| && db.cases[k].status.OPEN? && db.cases[k].disputeId == input.facts.disputeId
    ensures ResolveOpen(db, k, desired, input).Ok? <==> Usable(db, db.cases[k].walletId, input.facts.currency)
    ensures ResolveOpen(db, k, desired, input).Err? ==> ResolveOpen(db, k, desired, input).error == WALLET_CURRENCY_MISMATCH
  {
    hide Valid, Base, ReferenceTaken, CaseLinked;
    ValidCase(db, k);
    CaseWalletExists(db, k);
    HoldPresent(db, k);
    ResolutionReferenceFree(db, k, WonPhase);
    ResolutionReferenceFree(db, k, LostPhase);
  }

  lemma BookNeverDefensive(db: Database, d: LinkedDeposit, desired: DisputeStatus, input: Input)
    requires Valid(db) && d.row < |db.ledger| && db.ledger[d.row].walletId in db.wallets
    requires FindCase(db.cases, input.facts.disputeId).None?
    ensures BookCase(db, d, desired, input).Ok? <==>
              && CaseSum(DisputedOf(d.row), db.cases) + input.facts.amountMinor <= db.ledger[d.row].amount
              && Usable(db, db.ledger[d.row].walletId, input.facts.currency)
    ensures BookCase(db, d, desired, input).Err? ==>
              BookCase(db, d, desired, input).error in {CUMULATIVE_AMOUNT_EXCEEDED, WALLET_CURRENCY_MISMATCH}
  {
    assert BalancedIn(db, db.ledger[d.row].walletId);
    ReferenceFree(db, input.facts.disputeId, HoldPhase);
    ReferenceFree(db, input.facts.disputeId, LostPhase);
  }

  lemma ResolveFrame(db: Database, k: nat, desired: DisputeStatus, input: Input)
    requires k < |db.cases| && ResolveOpen(db, k, desired, input).Ok?
    ensures var db' := ResolveOpen(db, k, desired, input).value; db'.events == db.events && db'.attempts == db.attempts
  {
  }

  lemma BookFrame(db: Database, d: LinkedDeposit, desired: DisputeStatus, input: Input)
    requires d.row < |db.ledger| && BookCase(db, d, desired, input).Ok?
    ensures var db' := BookCase(db, d, desired, input).value; db'.events == db.events && db'.attempts == db.attempts
  {
    hide Collides, CaseSum;
  }

  /** No branch touches the inbox or the attempts; that is left to the completion of the event. */
  lemma ApplyFrame(db: Database, d: LinkedDeposit, desired: DisputeStatus, input: Input)
    requires d.row < |db.ledger| && Apply(db, d, desired, input).Ok?
    ensures var db' := Apply(db, d, desired, input).value.0; db'.events == db.events && db'.attempts == db.attempts
  {
    hide FindCase, BookCase, ResolveOpen, CaseExact;
    match FindCase(db.cases, input.facts.disputeId)
    case None => BookFrame(db, d, desired, input);
    case Some(k) =>
      if !desired.OPEN? && db.cases[k].status.OPEN? {
        ResolveFrame(db, k, desired, input);
      }
  }

  /** What a caller can check beforehand about the branch that the event selects. */
  ghost predicate Applicable(db: Database, d: LinkedDeposit, desired: DisputeStatus, input: Input)
    requires d.row < |db.ledger|
  {
    match FindCase(db.cases, input.facts.disputeId)
    case Some(k) =>
      && CaseExact(db.cases[k], input.facts, db, d)
      && (desired.OPEN? || db.cases[k].status == desired
          || (db.cases[k].status.OPEN? && Usable(db, db.cases[k].walletId, input.facts.currency)))
    case None =>
      && CaseSum(DisputedOf(d.row), db.cases) + input.facts.amountMinor <= db.ledger[d.row].amount
      && Usable(db, db.ledger[d.row].walletId, input.facts.currency)
  }

  lemma ApplyNeverDefensive(db: Database, d: LinkedDeposit, desired: DisputeStatus, input: Input)
    requires Valid(db) && Checked(db, d, desired, input) && d.row < |db.ledger|
    ensures Apply(db, d, desired, input).Ok? <==> Applicable(db, d, desired, input)
    ensures Apply(db, d, desired, input).Err? ==> !Defensive(Apply(db, d, desired, input).error)
  {
    hide Valid, Checked, BookCase, ResolveOpen, FindCase, CaseSum, CaseExact, Usable;
    CheckedFacts(db, d, desired, input);
    match FindCase(db.cases, input.facts.disputeId)
    case None => BookNeverDefensive(db, d, desired, input);
    case Some(k) =>
      if db.cases[k].status.OPEN? {
        ResolveNeverDefensive(db, k, desired, input);
      }
  }

  lemma CompleteSucceeds(db: Database, attemptId: Id, k: nat, input: Input, now: int)
    requires Booked(db, attemptId, k, input) && EventExact(db.events[input.eventId], input)
    ensures CompleteEvent(db, attemptId, k, input, now).Ok?
  {
    assert EventLinked(db.events[input.eventId], db.cases, db.attempts);
  }

  /**
   The input that is rebuilt from a claimed inbox row is the one that the transition accepts
   as exact for that row, and there is no other.
   */
  lemma StoredRowIsExact(eventId: Id, e: ProviderEvent, input: Input)
    requires e.status == CLAIMED && e.attempts > 0
    ensures InputFromStoredRow(eventId, e) == Ok(input) <==>
              && input.eventId == eventId && EventExact(e, input) && input.fingerprint == input.facts
              && TargetStatus(input.facts).Ok? && input.facts.amountMinor > 0 && input.facts.currency == USD
              && (input.facts.eventType.DisputeCreated? || input.facts.eventType.DisputeClosed?)
  {
  }

  /**
   In a valid state a dispute event commits exactly when its lease and facts are exact, its
   deposit is linked, and its branch is applicable. No hold, row, reference or lease can be
   found missing on the way, and no wallet can be found negative.
   */
  lemma TransitionCommitsExactly(db: Database, input: Input, now: int, modeOk: bool)
    requires Valid(db)
    ensures var r := Transition(db, input, now, modeOk);
            && (r.Err? ==> !Defensive(r.error))
            && (r.Ok? <==>
                  && modeOk && input.fingerprint == input.facts
                  && TargetStatus(input.facts).Ok?
                  && input.eventId in db.events && EventExact(db.events[input.eventId], input)
                  && FindLinkedDeposit(db, input.facts).Ok?
                  && Applicable(db, FindLinkedDeposit(db, input.facts).value, TargetStatus(input.facts).value, input))
  {
    hide Valid, Apply, Booked, CompleteEvent, EventExact, Applicable;
    if modeOk && input.fingerprint == input.facts && TargetStatus(input.facts).Ok? && input.eventId in db.events
       && EventExact(db.events[input.eventId], input) && FindLinkedDeposit(db, input.facts).Ok?
    {
      var d := FindLinkedDeposit(db, input.facts).value;
      var desired := TargetStatus(input.facts).value;
      ApplyNeverDefensive(db, d, desired, input);
      if Apply(db, d, desired, input).Ok? {
        var (between, o) := Apply(db, d, desired, input).value;
        ApplyKeeps(db, d, desired, input);
        ApplyFrame(db, d, desired, input);
        CompleteSucceeds(between, d.attemptId, o.caseId, input, now);
      }
    }
  }
}
