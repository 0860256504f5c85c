/** Every branch of the dispute machine keeps the invariants, and its defensive faults cannot occur. */
module PaymentDisputeProof {
  import opened Outcomes
  import opened DepositStatus
  import opened WalletState
  import opened WalletInvariant
  import opened PaymentDisputes

  // ---------------------------------------------------------------- appending a ledger row

  /** A row that is neither a deposit nor provider-backed, and collides with no other. */
  ghost predicate PlainRow(ledger: seq<Transaction>, row: Transaction) {
    row.providerRef.None? && !row.kind.DEPOSIT? && !Collides(ledger, row)
  }

  lemma AppendKeepsRows(db: Database, row: Transaction)
    requires Base(db) && PlainRow(db.ledger, row)
    ensures var ledger := db.ledger + [row];
            && RowsDistinct(ledger) && DepositsOwned(ledger, db.attempts) && AttemptsLinked(db.attempts, ledger)
            && CasesValid(db.cases, ledger, db.attempts) && DisputesBounded(db.cases, ledger)
            && (!row.reference.DisputeReference? ==> DisputeRowsOwned(ledger, db.cases))
  {
    var ledger := db.ledger + [row];
    forall i | 0 <= i < |db.ledger| ensures RowsDiffer(db.ledger[i], row) {
      if db.ledger[i].reference == row.reference {
        assert ReferenceTaken(db.ledger, row.reference) || row.reference == NoReference;
      }
    }
    forall id | id in db.attempts ensures AttemptLinked(id, db.attempts[id], ledger) {
      assert AttemptLinked(id, db.attempts[id], db.ledger);
    }
    forall k | 0 <= k < |db.cases| ensures CaseLinked(db.cases[k], ledger, db.attempts) {
      assert CaseLinked(db.cases[k], db.ledger, db.attempts);
    }
  }

  // ---------------------------------------------------------------- changing one case

  /** The identity and the booking of a case, which no later event may rewrite. */
  ghost predicate SameBooking(c: PaymentDispute, c': PaymentDispute) {
    && c'.disputeId == c.disputeId && c'.paymentId == c.paymentId && c'.chargeId == c.chargeId
    && c'.depositAttemptId == c.depositAttemptId && c'.depositTransactionId == c.depositTransactionId
    && c'.walletId == c.walletId && c'.amount == c.amount && c'.currency == c.currency
    && c'.held == c.held && c'.shortfall == c.shortfall && c'.holdTransactionId == c.holdTransactionId
  }

  lemma DisputedKept(cases: seq<PaymentDispute>, ledger: seq<Transaction>, k: nat, c': PaymentDispute)
    requires k < |cases| && SameBooking(cases[k], c') && DisputesBounded(cases, ledger)
    ensures DisputesBounded(cases[k := c'], ledger)
  {
    forall d | 0 <= d < |ledger| && ledger[d].kind.DEPOSIT?
      ensures CaseSum(DisputedOf(d), cases[k := c']) <= ledger[d].amount
    {
      CaseSumUpdate(DisputedOf(d), cases, k, c');
    }
  }

  lemma EventsKept(events: Events, cases: seq<PaymentDispute>, attempts: Attempts, k: nat, c': PaymentDispute)
    requires k < |cases| && SameBooking(cases[k], c') && EventsValid(events, cases, attempts)
    ensures EventsValid(events, cases[k := c'], attempts)
  {
    forall id | id in events ensures EventLinked(events[id], cases[k := c'], attempts) {
      assert EventLinked(events[id], cases, attempts);
    }
  }

  /** Dispute rows stay owned when the changed case keeps its links, and a new row is linked by it. */
  lemma DisputeRowsKept(ledger: seq<Transaction>, cases: seq<PaymentDispute>, k: nat, c': PaymentDispute)
    requires k < |cases| && SameBooking(cases[k], c') && DisputeRowsOwned(ledger, cases)
    requires cases[k].resolutionTransactionId.Some? ==> c'.resolutionTransactionId == cases[k].resolutionTransactionId
    ensures DisputeRowsOwned(ledger, cases[k := c'])
  {
    var cases' := cases[k := c'];
    forall i | 0 <= i < |ledger| && ledger[i].reference.DisputeReference?
      ensures exists l :: DisputeRowOwned(ledger[i], i, cases', l)
    {
      var l :| DisputeRowOwned(ledger[i], i, cases, l);
      assert DisputeRowOwned(ledger[i], i, cases', l);
    }
  }

  /** No case names an event that has not been completed. */
  lemma UnusedEvent(db: Database, eventId: Id)
    requires Valid(db) && eventId in db.events && db.events[eventId].status == CLAIMED
    ensures EventLinked(db.events[eventId], db.cases, db.attempts) && db.events[eventId].caseId.None?
    ensures forall k :: 0 <= k < |db.cases| ==> db.cases[k].openedBy != Some(eventId) && db.cases[k].resolvedBy != Some(eventId)
  {
    assert EventLinked(db.events[eventId], db.cases, db.attempts);
    forall k | 0 <= k < |db.cases|
      ensures db.cases[k].openedBy != Some(eventId) && db.cases[k].resolvedBy != Some(eventId)
    {
      assert CaseEvidence(db.cases[k], k, db.events, None);
    }
  }

  // ---------------------------------------------------------------- what a branch leaves behind

  /**
   The state between a branch and the completion of its event: only the evidence link of the
   event and the projection of the attempt are still due, and case `k` is the case of the event.
   */
  ghost predicate Booked(db: Database, attemptId: Id, k: nat, input: Input) {
    && Base(db)
    && EvidenceValid(db.cases, db.events, Some(input.eventId))
    && Projected(db.attempts, db.cases, Some(attemptId))
    && k < |db.cases|
    && db.cases[k].disputeId == input.facts.disputeId
    && db.cases[k].depositAttemptId == attemptId
    && (forall j :: 0 <= j < |db.cases| && j != k ==>
          db.cases[j].openedBy != Some(input.eventId) && db.cases[j].resolvedBy != Some(input.eventId))
    && (db.cases[k].openedBy == Some(input.eventId) ==> input.facts.eventType.DisputeCreated?)
    && (db.cases[k].resolvedBy == Some(input.eventId) ==> !input.facts.eventType.DisputeCreated?)
    && input.eventId in db.events
    && db.events[input.eventId].status == CLAIMED
    && db.events[input.eventId].objectId == input.facts.disputeId
    && db.events[input.eventId].eventType == input.facts.eventType
    && attemptId in db.attempts
    && CreditBacked(db.attempts[attemptId].status)
  }

  /** The event and the deposit of a call that has passed its checks. */
  ghost predicate Checked(db: Database, d: LinkedDeposit, desired: DisputeStatus, input: Input) {
    && TargetStatus(input.facts) == Ok(desired)
    && input.eventId in db.events
    && EventExact(db.events[input.eventId], input)
    && FindLinkedDeposit(db, input.facts) == Ok(d)
  }

  lemma CheckedFacts(db: Database, d: LinkedDeposit, desired: DisputeStatus, input: Input)
    requires Valid(db) && Checked(db, d, desired, input)
    ensures desired.OPEN? <==> input.facts.eventType.DisputeCreated?
    ensures input.facts.amountMinor > 0
    ensures d.row < |db.ledger| && db.ledger[d.row].kind.DEPOSIT? && db.ledger[d.row].walletId in db.wallets
    ensures d.attemptId in db.attempts && CreditBacked(db.attempts[d.attemptId].status)
    ensures db.attempts[d.attemptId].ledgerTransactionId == Some(d.row)
    ensures db.attempts[d.attemptId].walletId == db.ledger[d.row].walletId
    ensures input.eventId in db.events && db.events[input.eventId].status == CLAIMED
    ensures db.events[input.eventId].objectId == input.facts.disputeId
    ensures db.events[input.eventId].eventType == input.facts.eventType
  {
    UnusedEvent(db, input.eventId);
  }

  lemma EvidencePending(cases: seq<PaymentDispute>, events: Events, k: nat, c': PaymentDispute, eventId: Id)
    requires k < |cases| && EvidenceValid(cases, events, None)
    requires c'.openedBy == cases[k].openedBy || c'.openedBy == Some(eventId)
    requires c'.resolvedBy == cases[k].resolvedBy || c'.resolvedBy == Some(eventId)
    ensures EvidenceValid(cases[k := c'], events, Some(eventId))
  {
    var cases' := cases[k := c'];
    forall j | 0 <= j < |cases'| ensures CaseEvidence(cases'[j], j, events, Some(eventId)) {
      assert CaseEvidence(cases[j], j, events, None);
    }
  }

  /** A change of one case can only move the projection of its own attempt. */
  lemma ProjectionElsewhere(attempts: Attempts, cases: seq<PaymentDispute>, k: nat, c': PaymentDispute)
    requires k < |cases| && SameBooking(cases[k], c') && Projected(attempts, cases, None)
    ensures Projected(attempts, cases[k := c'], Some(c'.depositAttemptId))
  {
    var cases' := cases[k := c'];
    forall id | id in attempts && CreditBacked(attempts[id].status) && id != c'.depositAttemptId
      ensures Projection(attempts[id].status, cases', id) == Projection(attempts[id].status, cases, id)
    {
      assert forall i :: 0 <= i < |cases| && cases'[i].depositAttemptId == id ==> cases'[i] == cases[i];
      assert forall i :: 0 <= i < |cases| && cases[i].depositAttemptId == id ==> cases'[i] == cases[i];
    }
  }

  /** What a branch has to show when it replaces case `k` and perhaps appends a ledger row. */
  ghost predicate CaseChange(db: Database, db': Database, k: nat, c': PaymentDispute, d: LinkedDeposit, input: Input) {
    && k < |db.cases| && SameBooking(db.cases[k], c')
    && db.cases[k].disputeId == input.facts.disputeId && db.cases[k].depositAttemptId == d.attemptId
    && db'.cases == db.cases[k := c'] && db'.attempts == db.attempts && db'.events == db.events
    && db'.reservations == db.reservations && db'.orders == db.orders && db.wallets.Keys <= db'.wallets.Keys
    && (c'.openedBy == db.cases[k].openedBy || (c'.openedBy == Some(input.eventId) && input.facts.eventType.DisputeCreated?))
    && (c'.resolvedBy == db.cases[k].resolvedBy || (c'.resolvedBy == Some(input.eventId) && !input.facts.eventType.DisputeCreated?))
    && MoneyValid(db')
    && RowsDistinct(db'.ledger) && DepositsOwned(db'.ledger, db.attempts) && AttemptsLinked(db.attempts, db'.ledger)
    && CasesValid(db.cases, db'.ledger, db.attempts) && DisputesBounded(db.cases, db'.ledger)
    && CaseShape(c') && CaseLinked(c', db'.ledger, db.attempts)
    && DisputeRowsOwned(db'.ledger, db'.cases)
  }

  lemma CaseChangeBooked(db: Database, db': Database, k: nat, c': PaymentDispute, d: LinkedDeposit,
                         desired: DisputeStatus, input: Input)
    requires Valid(db) && Checked(db, d, desired, input) && CaseChange(db, db', k, c', d, input)
    ensures Booked(db', d.attemptId, k, input)
  {
    hide Valid, Base, Checked, MoneyValid, AmountsValid, RowsDistinct, DepositsOwned, AttemptsLinked, DisputeRowsOwned,
      SessionsDistinct, DisputesBounded, EventsValid, EvidenceValid, Projected, CasesValid, CaseShape, CaseLinked;
    CheckedFacts(db, d, desired, input);
    UnusedEvent(db, input.eventId);
    ValidParts(db);
    DisputedKept(db.cases, db'.ledger, k, c');
    EventsKept(db.events, db.cases, db.attempts, k, c');
    EvidencePending(db.cases, db.events, k, c', input.eventId);
    ProjectionElsewhere(db.attempts, db.cases, k, c');
    CaseReplaced(db.cases, k, c', db'.ledger, db.attempts);
    MoreWallets(db.attempts, db.wallets, db'.wallets);
    BaseFrom(db');
  }

  /** A case that keeps its status and its hold weighs the same in every sum. */
  lemma SameWeightKeepsMoney(db: Database, k: nat, c': PaymentDispute)
    requires MoneyValid(db) && k < |db.cases| && SameBooking(db.cases[k], c') && c'.status == db.cases[k].status
    ensures MoneyValid(db.(cases := db.cases[k := c']))
  {
    var db' := db.(cases := db.cases[k := c']);
    forall w: Id ensures BalancedIn(db', w) {
      assert BalancedIn(db, w);
      CaseSumsUpdate(w, db.cases, k, c');
    }
  }

  lemma AttachedShape(c: PaymentDispute, c': PaymentDispute, ledger: seq<Transaction>, attempts: Attempts)
    requires CaseShape(c) && CaseLinked(c, ledger, attempts)
    requires c' == c || (c.openedBy.None? && c' == c.(openedBy := c'.openedBy, version := c'.version))
    ensures CaseLinked(c', ledger, attempts) && (c'.openedBy.Some? || c' == c ==> CaseShape(c'))
  {
  }

  /** Late opening evidence is attached without moving money. */
  lemma AttachKeeps(db: Database, d: LinkedDeposit, input: Input, k: nat)
    requires Valid(db) && Checked(db, d, OPEN, input)
    requires k < |db.cases| && db.cases[k].disputeId == input.facts.disputeId && db.cases[k].depositAttemptId == d.attemptId
    ensures Booked(AttachOpening(db, k, input.eventId), d.attemptId, k, input)
  {
    hide Valid, Base, Checked, AmountsValid, RowsDistinct, DepositsOwned, AttemptsLinked, DisputeRowsOwned, MoneyValid,
      SessionsDistinct, DisputesBounded, EventsValid, EvidenceValid, Projected, Booked, CaseShape, CaseLinked;
    CheckedFacts(db, d, OPEN, input);
    ValidParts(db);
    var c := db.cases[k];
    var db' := AttachOpening(db, k, input.eventId);
    var c' := db'.cases[k];
    AttachedShape(c, c', db.ledger, db.attempts);
    assert db'.cases == db.cases[k := c'] && db' == db.(cases := db.cases[k := c']);
    SameWeightKeepsMoney(db, k, c');
    DisputeRowsKept(db.ledger, db.cases, k, c');
    CaseChangeBooked(db, db', k, c', d, OPEN, input);
  }

  // ---------------------------------------------------------------- closing an open case

  lemma ResolveKeepsMoney(db: Database, k: nat, desired: DisputeStatus, input: Input)
    requires MoneyValid(db) && k < |db.cases| && CaseShape(db.cases[k]) && db.cases[k].status.OPEN? && !desired.OPEN?
    requires ResolveOpen(db, k, desired, input).Ok?
    ensures MoneyValid(ResolveOpen(db, k, desired, input).value)
  {
    hide LedgerSum, CaseSum, ReservationSum, Collides;
    var c := db.cases[k];
    var db' := ResolveOpen(db, k, desired, input).value;
    var c' := db'.cases[k];
    assert db'.cases == db.cases[k := c'] && BalancedIn(db, c.walletId);
    if c.held > 0 {
      var row := db'.ledger[|db.ledger|];
      assert db'.ledger == db.ledger + [row];
      forall w: Id ensures BalancedIn(db', w) {
        assert BalancedIn(db, w);
        CaseSumsUpdate(w, db.cases, k, c');
        LedgerSumsAppend(w, db.ledger, row);
      }
    } else {
      forall w: Id ensures BalancedIn(db', w) {
        assert BalancedIn(db, w);
        CaseSumsUpdate(w, db.cases, k, c');
      }
    }
  }

  /** The resolved case is well formed and linked to its evidence rows. */
  lemma ResolveKeepsCase(db: Database, k: nat, desired: DisputeStatus, input: Input)
    requires k < |db.cases| && CaseShape(db.cases[k]) && CaseLinked(db.cases[k], db.ledger, db.attempts)
    requires db.cases[k].status.OPEN? && !desired.OPEN? && db.cases[k].disputeId == input.facts.disputeId
    requires ResolveOpen(db, k, desired, input).Ok?
    ensures var db' := ResolveOpen(db, k, desired, input).value;
            && SameBooking(db.cases[k], db'.cases[k]) && db'.cases == db.cases[k := db'.cases[k]]
            && CaseShape(db'.cases[k]) && CaseLinked(db'.cases[k], db'.ledger, db.attempts)
  {
    hide Collides;
  }

  /** A resolution row is linked from the case that it resolves. */
  lemma ResolveOwnsRow(db: Database, k: nat, desired: DisputeStatus, input: Input)
    requires DisputeRowsOwned(db.ledger, db.cases)
    requires k < |db.cases| && CaseShape(db.cases[k]) && db.cases[k].status.OPEN? && !desired.OPEN?
    requires db.cases[k].disputeId == input.facts.disputeId && ResolveOpen(db, k, desired, input).Ok?
    ensures var db' := ResolveOpen(db, k, desired, input).value; DisputeRowsOwned(db'.ledger, db'.cases)
  {
    hide Collides;
    var db' := ResolveOpen(db, k, desired, input).value;
    DisputeRowsKept(db.ledger, db.cases, k, db'.cases[k]);
    if db.cases[k].held > 0 {
      assert DisputeRowOwned(db'.ledger[|db.ledger|], |db.ledger|, db'.cases, k);
      assert forall i :: 0 <= i < |db.ledger| ==> db'.ledger[i] == db.ledger[i];
    }
  }

  /** The rows of the ledger after a resolution, whether or not one was appended. */
  lemma ResolveKeepsRows(db: Database, k: nat, desired: DisputeStatus, input: Input)
    requires Base(db) && k < |db.cases| && ResolveOpen(db, k, desired, input).Ok?
    ensures var db' := ResolveOpen(db, k, desired, input).value;
            && RowsDistinct(db'.ledger) && DepositsOwned(db'.ledger, db.attempts) && AttemptsLinked(db.attempts, db'.ledger)
            && CasesValid(db.cases, db'.ledger, db.attempts) && DisputesBounded(db.cases, db'.ledger)
            && db'.attempts == db.attempts && db'.events == db.events && db'.reservations == db.reservations
            && db'.orders == db.orders && db.wallets.Keys <= db'.wallets.Keys
  {
    hide MoneyValid, AmountsValid, RowsDistinct, DepositsOwned, AttemptsLinked, DisputeRowsOwned, SessionsDistinct,
      DisputesBounded, EventsValid, CasesValid;
    var db' := ResolveOpen(db, k, desired, input).value;
    if db.cases[k].held > 0 {
      var row := db'.ledger[|db.ledger|];
      assert db'.ledger == db.ledger + [row];
      AppendKeepsRows(db, row);
    }
  }

  lemma ResolveKeeps(db: Database, d: LinkedDeposit, desired: DisputeStatus, input: Input, k: nat)
    requires Valid(db) && Checked(db, d, desired, input) && !desired.OPEN?
    requires k < |db.cases| && db.cases[k].disputeId == input.facts.disputeId && db.cases[k].depositAttemptId == d.attemptId
    requires db.cases[k].status.OPEN? && ResolveOpen(db, k, desired, input).Ok?
    ensures Booked(ResolveOpen(db, k, desired, input).value, d.attemptId, k, input)
  {
    hide Valid, Base, Checked, MoneyValid, AmountsValid, RowsDistinct, DepositsOwned, AttemptsLinked, DisputeRowsOwned,
      SessionsDistinct, DisputesBounded, EventsValid, EvidenceValid, Projected, CasesValid, Booked, CaseLinked, ResolveOpen;
    CheckedFacts(db, d, desired, input);
    ValidCase(db, k);
    ValidParts(db);
    var db' := ResolveOpen(db, k, desired, input).value;
    ResolveKeepsMoney(db, k, desired, input);
    ResolveKeepsCase(db, k, desired, input);
    ResolveKeepsRows(db, k, desired, input);
    ResolveOwnsRow(db, k, desired, input);
    ResolveEvidence(db, k, desired, input);
    CaseChangeBooked(db, db', k, db'.cases[k], d, desired, input);
  }

  lemma ResolveEvidence(db: Database, k: nat, desired: DisputeStatus, input: Input)
    requires k < |db.cases| && ResolveOpen(db, k, desired, input).Ok?
    ensures var c' := ResolveOpen(db, k, desired, input).value.cases[k];
            c'.openedBy == db.cases[k].openedBy && c'.resolvedBy == Some(input.eventId)
  {
  }

  // ---------------------------------------------------------------- booking a new case

  lemma BookKeepsMoney(db: Database, d: LinkedDeposit, desired: DisputeStatus, input: Input)
    requires MoneyValid(db) && d.row < |db.ledger| && input.facts.amountMinor > 0
    requires BookCase(db, d, desired, input).Ok?
    ensures MoneyValid(BookCase(db, d, desired, input).value)
  {
    hide LedgerSum, CaseSum, ReservationSum, Collides;
    var db' := BookCase(db, d, desired, input).value;
    var c := NewCase(db, d, desired, input);
    assert BalancedIn(db, c.walletId);
    if c.held > 0 {
      var row := db'.ledger[|db.ledger|];
      assert db'.ledger == db.ledger + [row];
      forall w: Id ensures BalancedIn(db', w) {
        assert BalancedIn(db, w);
        CaseSumsAppend(w, db.cases, c);
        LedgerSumsAppend(w, db.ledger, row);
      }
    } else {
      forall w: Id ensures BalancedIn(db', w) {
        assert BalancedIn(db, w);
        CaseSumsAppend(w, db.cases, c);
      }
    }
  }

  /** The booked case splits its amount into what is held and what is short. */
  lemma NewCaseShape(db: Database, d: LinkedDeposit, desired: DisputeStatus, input: Input)
    requires d.row < |db.ledger| && input.facts.amountMinor > 0 && WalletOf(db, db.ledger[d.row].walletId).available >= 0
    ensures CaseShape(NewCase(db, d, desired, input))
  {
  }

  /** Booking appends one case, and the row of what it holds. */
  lemma BookWrites(db: Database, d: LinkedDeposit, desired: DisputeStatus, input: Input)
    requires d.row < |db.ledger| && BookCase(db, d, desired, input).Ok?
    ensures var db' := BookCase(db, d, desired, input).value; var c := NewCase(db, d, desired, input);
            && db' == db.(wallets := db'.wallets, ledger := db'.ledger, cases := db.cases + [c])
            && db.wallets.Keys <= db'.wallets.Keys && WalletOf(db, db.ledger[d.row].walletId).available >= 0
            && CaseSum(DisputedOf(d.row), db.cases) + input.facts.amountMinor <= db.ledger[d.row].amount
            && db'.ledger
               == if c.held <= 0 then db.ledger
                  else if desired.OPEN? then
                    db.ledger + [DisputeRow(c.walletId, -c.held, RESERVATION_ENTRY, input.facts, HoldPhase)]
                  else db.ledger + [DisputeRow(c.walletId, -c.held, CHARGEBACK_ENTRY, input.facts, LostPhase)]
  {
    hide Collides, CaseSum, NewCase, MoveMoney, DisputeRow;
  }

  lemma NewCaseLinked(db: Database, d: LinkedDeposit, desired: DisputeStatus, input: Input)
    requires d.row < |db.ledger| && BookCase(db, d, desired, input).Ok?
    requires d.attemptId in db.attempts && db.attempts[d.attemptId].ledgerTransactionId == Some(d.row)
    requires db.attempts[d.attemptId].walletId == db.ledger[d.row].walletId
    ensures CaseLinked(NewCase(db, d, desired, input), BookCase(db, d, desired, input).value.ledger, db.attempts)
  {
    BookWrites(db, d, desired, input);
    hide BookCase, WalletOf;
  }

  /** The booked case has its shape, and links its evidence row. */
  lemma BookMakesCase(db: Database, d: LinkedDeposit, desired: DisputeStatus, input: Input)
    requires d.row < |db.ledger| && input.facts.amountMinor > 0
    requires BookCase(db, d, desired, input).Ok?
    requires d.attemptId in db.attempts && db.attempts[d.attemptId].ledgerTransactionId == Some(d.row)
    requires db.attempts[d.attemptId].walletId == db.ledger[d.row].walletId
    ensures var db' := BookCase(db, d, desired, input).value; var c := NewCase(db, d, desired, input);
            && db'.cases == db.cases + [c] && CaseShape(c) && CaseLinked(c, db'.ledger, db.attempts)
            && c.disputeId == input.facts.disputeId && c.depositAttemptId == d.attemptId
            && c.depositTransactionId == d.row && c.amount == input.facts.amountMinor
            && c.openedBy == (if desired.OPEN? then Some(input.eventId) else None)
            && c.resolvedBy == (if desired.OPEN? then None else Some(input.eventId))
            && db'.attempts == db.attempts && db'.events == db.events && db'.reservations == db.reservations
            && db'.orders == db.orders && db.wallets.Keys <= db'.wallets.Keys
            && CaseSum(DisputedOf(d.row), db.cases) + c.amount <= db.ledger[d.row].amount
  {
    BookWrites(db, d, desired, input);
    NewCaseShape(db, d, desired, input);
    NewCaseLinked(db, d, desired, input);
    hide BookCase, CaseSum, WalletOf, CaseShape, CaseLinked;
  }

  lemma BookKeepsRows(db: Database, d: LinkedDeposit, desired: DisputeStatus, input: Input)
    requires Base(db) && d.row < |db.ledger| && BookCase(db, d, desired, input).Ok?
    ensures var db' := BookCase(db, d, desired, input).value;
            && RowsDistinct(db'.ledger) && DepositsOwned(db'.ledger, db.attempts) && AttemptsLinked(db.attempts, db'.ledger)
            && CasesValid(db.cases, db'.ledger, db.attempts) && DisputesBounded(db.cases, db'.ledger)
            && (forall i :: 0 <= i < |db'.ledger| && db'.ledger[i].kind.DEPOSIT? ==> i < |db.ledger|)
            && |db.ledger| <= |db'.ledger| && (forall i :: 0 <= i < |db.ledger| ==> db'.ledger[i] == db.ledger[i])
  {
    hide MoneyValid, AmountsValid, RowsDistinct, DepositsOwned, AttemptsLinked, DisputeRowsOwned, SessionsDistinct,
      DisputesBounded, EventsValid, CasesValid, CaseSum;
    var db' := BookCase(db, d, desired, input).value;
    if NewCase(db, d, desired, input).held > 0 {
      var row := db'.ledger[|db.ledger|];
      assert db'.ledger == db.ledger + [row];
      AppendKeepsRows(db, row);
    }
  }

  lemma BookOwnsRow(db: Database, d: LinkedDeposit, desired: DisputeStatus, input: Input)
    requires DisputeRowsOwned(db.ledger, db.cases) && d.row < |db.ledger| && BookCase(db, d, desired, input).Ok?
    ensures var db' := BookCase(db, d, desired, input).value; DisputeRowsOwned(db'.ledger, db'.cases)
  {
    hide Collides, CaseSum;
    var db' := BookCase(db, d, desired, input).value;
    forall i | 0 <= i < |db'.ledger| && db'.ledger[i].reference.DisputeReference?
      ensures exists l :: DisputeRowOwned(db'.ledger[i], i, db'.cases, l)
    {
      if i < |db.ledger| {
        var l :| DisputeRowOwned(db.ledger[i], i, db.cases, l);
        assert DisputeRowOwned(db'.ledger[i], i, db'.cases, l);
      } else {
        assert DisputeRowOwned(db'.ledger[i], i, db'.cases, |db.cases|);
      }
    }
  }

  /** The tables other than the wallet accept a further case of a dispute that had none. */
  lemma CaseAppended(cases: seq<PaymentDispute>, c: PaymentDispute, ledger: seq<Transaction>, attempts: Attempts,
                     events: Events, eventId: Id)
    requires CasesValid(cases, ledger, attempts) && CaseShape(c) && CaseLinked(c, ledger, attempts)
    requires FindCase(cases, c.disputeId).None?
    requires DisputesBounded(cases, ledger) && c.depositTransactionId < |ledger|
    requires CaseSum(DisputedOf(c.depositTransactionId), cases) + c.amount <= ledger[c.depositTransactionId].amount
    requires EventsValid(events, cases, attempts) && EvidenceValid(cases, events, None) && Projected(attempts, cases, None)
    requires c.openedBy == Some(eventId) || c.openedBy.None?
    requires c.resolvedBy == Some(eventId) || c.resolvedBy.None?
    ensures CasesValid(cases + [c], ledger, attempts) && DisputesBounded(cases + [c], ledger)
    ensures EventsValid(events, cases + [c], attempts) && EvidenceValid(cases + [c], events, Some(eventId))
    ensures Projected(attempts, cases + [c], Some(c.depositAttemptId))
  {
    hide CaseShape, CaseLinked, EventLinked, EvidenceOf, Projection, CaseSum;
    CaseListGrows(cases, c, ledger, attempts);
    BoundGrows(cases, c, ledger);
    EventsSeeMore(events, cases, c, attempts);
    EvidenceGrows(cases, c, events, eventId);
    hide CasesValid, DisputesBounded, EventsValid, EvidenceValid, Projected;
    ProjectionAppended(attempts, cases, c);
  }

  lemma CaseListGrows(cases: seq<PaymentDispute>, c: PaymentDispute, ledger: seq<Transaction>, attempts: Attempts)
    requires CasesValid(cases, ledger, attempts) && CaseShape(c) && CaseLinked(c, ledger, attempts)
    requires FindCase(cases, c.disputeId).None?
    ensures CasesValid(cases + [c], ledger, attempts)
  {
    hide CaseShape, CaseLinked;
    var cases' := cases + [c];
    forall k, l | 0 <= k < l < |cases'| ensures cases'[k].disputeId != cases'[l].disputeId {
      assert cases'[k] == cases[k];
    }
  }

  lemma BoundGrows(cases: seq<PaymentDispute>, c: PaymentDispute, ledger: seq<Transaction>)
    requires DisputesBounded(cases, ledger) && c.depositTransactionId < |ledger|
    requires CaseSum(DisputedOf(c.depositTransactionId), cases) + c.amount <= ledger[c.depositTransactionId].amount
    ensures DisputesBounded(cases + [c], ledger)
  {
    hide CaseSum;
    forall dep | 0 <= dep < |ledger| && ledger[dep].kind.DEPOSIT?
      ensures CaseSum(DisputedOf(dep), cases + [c]) <= ledger[dep].amount
    {
      CaseSumAppend(DisputedOf(dep), cases, c);
    }
  }

  lemma EventsSeeMore(events: Events, cases: seq<PaymentDispute>, c: PaymentDispute, attempts: Attempts)
    requires EventsValid(events, cases, attempts)
    ensures EventsValid(events, cases + [c], attempts)
  {
    forall id | id in events ensures EventLinked(events[id], cases + [c], attempts) {
      assert EventLinked(events[id], cases, attempts);
    }
  }

  lemma EvidenceGrows(cases: seq<PaymentDispute>, c: PaymentDispute, events: Events, eventId: Id)
    requires EvidenceValid(cases, events, None)
    requires c.openedBy == Some(eventId) || c.openedBy.None?
    requires c.resolvedBy == Some(eventId) || c.resolvedBy.None?
    ensures EvidenceValid(cases + [c], events, Some(eventId))
  {
    hide EvidenceOf;
    var cases' := cases + [c];
    forall k | 0 <= k < |cases'| ensures CaseEvidence(cases'[k], k, events, Some(eventId)) {
      assert k < |cases| ==> CaseEvidence(cases[k], k, events, None);
    }
  }

  lemma ProjectionAppended(attempts: Attempts, cases: seq<PaymentDispute>, c: PaymentDispute)
    requires Projected(attempts, cases, None)
    ensures Projected(attempts, cases + [c], Some(c.depositAttemptId))
  {
    var cases' := cases + [c];
    forall id | id in attempts && CreditBacked(attempts[id].status) && id != c.depositAttemptId
      ensures Projection(attempts[id].status, cases', id) == Projection(attempts[id].status, cases, id)
    {
      assert forall i :: 0 <= i < |cases'| && cases'[i].depositAttemptId == id ==> i < |cases| && cases'[i] == cases[i];
      assert forall i :: 0 <= i < |cases| && cases[i].depositAttemptId == id ==> cases'[i] == cases[i];
    }
  }

  lemma BookKeeps(db: Database, d: LinkedDeposit, desired: DisputeStatus, input: Input)
    requires Valid(db) && Checked(db, d, desired, input) && d.row < |db.ledger|
    requires FindCase(db.cases, input.facts.disputeId).None? && BookCase(db, d, desired, input).Ok?
    ensures Booked(BookCase(db, d, desired, input).value, d.attemptId, |db.cases|, input)
  {
    hide Valid, Base, Checked, MoneyValid, AmountsValid, RowsDistinct, DepositsOwned, AttemptsLinked, DisputeRowsOwned,
      SessionsDistinct, DisputesBounded, EventsValid, EvidenceValid, Projected, CasesValid, CaseLinked, CaseShape,
      BookCase, CaseSum, NewCase, CreditedWalletsExist, FindCase;
    CheckedFacts(db, d, desired, input);
    UnusedEvent(db, input.eventId);
    ValidParts(db);
    BaseFrom(db);
    var db' := BookCase(db, d, desired, input).value;
    var c := NewCase(db, d, desired, input);
    BookKeepsMoney(db, d, desired, input);
    BookMakesCase(db, d, desired, input);
    BookKeepsRows(db, d, desired, input);
    BookOwnsRow(db, d, desired, input);
    CaseAppended(db.cases, c, db'.ledger, db.attempts, db.events, input.eventId);
    MoreWallets(db.attempts, db.wallets, db'.wallets);
    BaseFrom(db');
  }

  // ---------------------------------------------------------------- completing the event

  /** The projection moves between credit-backed statuses only, and is stable. */
  lemma ProjectionStaysBacked(current: Status, cases: seq<PaymentDispute>, id: Id)
    ensures CreditBacked(Projection(current, cases, id))
    ensures Projection(Projection(current, cases, id), cases, id) == Projection(current, cases, id)
  {
  }

  /** Moving one credited attempt to another credit-backed status disturbs no link. */
  lemma RestatusKeepsLinks(db: Database, id: Id, status: Status)
    requires Base(db) && id in db.attempts && CreditBacked(db.attempts[id].status) && CreditBacked(status)
    ensures var attempts := db.attempts[id := db.attempts[id].(status := status)];
            && CasesValid(db.cases, db.ledger, attempts) && DepositsOwned(db.ledger, attempts)
            && AttemptsLinked(attempts, db.ledger)
  {
    hide MoneyValid, AmountsValid, RowsDistinct, DisputeRowsOwned, DisputesBounded, EventsValid;
    var attempts := db.attempts[id := db.attempts[id].(status := status)];
    forall j | 0 <= j < |db.cases| ensures CaseLinked(db.cases[j], db.ledger, attempts) {
      assert CaseLinked(db.cases[j], db.ledger, db.attempts);
    }
    forall i | 0 <= i < |db.ledger| && db.ledger[i].providerRef.Some? ensures DepositOwned(db.ledger[i], i, attempts) {
      assert DepositOwned(db.ledger[i], i, db.attempts);
    }
    forall a | a in attempts ensures AttemptLinked(a, attempts[a], db.ledger) {
      assert AttemptLinked(a, db.attempts[a], db.ledger);
    }
  }

  lemma RestatusKeepsRest(attempts: Attempts, id: Id, status: Status, wallets: map<Id, Wallet>, events: Events,
                          cases: seq<PaymentDispute>)
    requires id in attempts && CreditBacked(attempts[id].status) && CreditBacked(status)
    requires CreditedWalletsExist(attempts, wallets) && SessionsDistinct(attempts) && EventsValid(events, cases, attempts)
    ensures var attempts' := attempts[id := attempts[id].(status := status)];
            && CreditedWalletsExist(attempts', wallets) && SessionsDistinct(attempts')
            && EventsValid(events, cases, attempts')
  {
    var attempts' := attempts[id := attempts[id].(status := status)];
    forall e | e in events ensures EventLinked(events[e], cases, attempts') {
      assert EventLinked(events[e], cases, attempts);
    }
  }

  lemma RestatusProjects(attempts: Attempts, id: Id, cases: seq<PaymentDispute>)
    requires id in attempts && Projected(attempts, cases, Some(id))
    ensures Projected(attempts[id := attempts[id].(status := Projection(attempts[id].status, cases, id))], cases, None)
  {
    ProjectionStaysBacked(attempts[id].status, cases, id);
  }

  /** Completing the event makes it the evidence that the case already names. */
  lemma EventCompleted(events: Events, cases: seq<PaymentDispute>, attempts: Attempts, eventId: Id, e: ProviderEvent,
                       k: nat)
    requires EventsValid(events, cases, attempts) && EventLinked(e, cases, attempts)
    requires EvidenceValid(cases, events, Some(eventId)) && k < |cases| && e.caseId == Some(k)
    requires eventId in events && events[eventId].caseId.None?
    requires forall j :: 0 <= j < |cases| && j != k ==> cases[j].openedBy != Some(eventId) && cases[j].resolvedBy != Some(eventId)
    requires cases[k].openedBy == Some(eventId) ==> e.eventType.DisputeCreated?
    requires cases[k].resolvedBy == Some(eventId) ==> !e.eventType.DisputeCreated?
    ensures EventsValid(events[eventId := e], cases, attempts) && EvidenceValid(cases, events[eventId := e], None)
  {
    var events' := events[eventId := e];
    forall j | 0 <= j < |cases| ensures CaseEvidence(cases[j], j, events', None) {
      assert CaseEvidence(cases[j], j, events, Some(eventId));
    }
  }

  lemma CompleteKeeps(db: Database, attemptId: Id, k: nat, input: Input, now: int)
    requires Booked(db, attemptId, k, input) && CompleteEvent(db, attemptId, k, input, now).Ok?
    ensures Valid(CompleteEvent(db, attemptId, k, input, now).value)
  {
    hide MoneyValid, AmountsValid, RowsDistinct, DepositsOwned, AttemptsLinked, DisputeRowsOwned, CreditedWalletsExist,
      SessionsDistinct, DisputesBounded, EvidenceValid, Projected, CasesValid, Projection;
    var db' := CompleteEvent(db, attemptId, k, input, now).value;
    var status := Projection(db.attempts[attemptId].status, db.cases, attemptId);
    var e := db.events[input.eventId];
    assert EventLinked(e, db.cases, db.attempts);
    ProjectionStaysBacked(db.attempts[attemptId].status, db.cases, attemptId);
    hide EventsValid;
    RestatusKeepsLinks(db, attemptId, status);
    RestatusKeepsRest(db.attempts, attemptId, status, db.wallets, db.events, db.cases);
    RestatusProjects(db.attempts, attemptId, db.cases);
    EventCompleted(db.events, db.cases, db'.attempts, input.eventId, db'.events[input.eventId], k);
    OtherTablesKeepMoney(db, db');
  }
}
