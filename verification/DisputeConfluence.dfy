/**
 Events may arrive out of order. Applying the created and the closed event of a dispute
 back to back gives the same money, case, deposit and inbox in either order.
 */
module DisputeConfluence {
  import opened Outcomes
  import opened DepositStatus
  import opened WalletState
  import opened WalletInvariant
  import opened PaymentDisputes
  import opened PaymentDisputeProof
  import opened DisputeTransitionProof
  import Text

  /** Two leased events of one dispute that has no case yet: its opening and its close. */
  ghost predicate Pair(db: Database, d: LinkedDeposit, opening: Input, closing: Input, outcome: DisputeStatus) {
    && Valid(db)
    && Checked(db, d, OPEN, opening) && opening.fingerprint == opening.facts
    && Checked(db, d, outcome, closing) && closing.fingerprint == closing.facts && !outcome.OPEN?
    && opening.eventId != closing.eventId
    && opening.facts.disputeId == closing.facts.disputeId
    && opening.facts.paymentId == closing.facts.paymentId
    && opening.facts.chargeId == closing.facts.chargeId
    && opening.facts.amountMinor == closing.facts.amountMinor
    && opening.facts.currency == closing.facts.currency
    && FindCase(db.cases, opening.facts.disputeId).None?
    && d.row < |db.ledger|
  }

  ghost predicate SameDispute(x: Input, y: Input) {
    && x.eventId != y.eventId && x.facts.disputeId == y.facts.disputeId && x.facts.paymentId == y.facts.paymentId
    && x.facts.chargeId == y.facts.chargeId && x.facts.amountMinor == y.facts.amountMinor
    && x.facts.currency == y.facts.currency
  }

  // ---------------------------------------------------------------- the effect of the first event

  ghost function Processed(e: ProviderEvent, now: int, attemptId: Id, k: nat): ProviderEvent {
    e.(status := PROCESSED, processedAt := Some(now), lockedAt := None, depositAttemptId := Some(attemptId), caseId := Some(k))
  }

  ghost function WithStatus(attempts: Attempts, id: Id, status: Status): Attempts
    requires id in attempts
  {
    attempts[id := attempts[id].(status := status)]
  }

  /** Only one wallet moves, by the given amounts, and no wallet changes its currency. */
  ghost predicate Moved(wallets: map<Id, Wallet>, wallets': map<Id, Wallet>, walletId: Id, available: int, reserved: int) {
    && wallets'.Keys == wallets.Keys
    && (forall w :: w in wallets ==> wallets'[w].currency == wallets[w].currency)
    && (forall w :: w in wallets ==>
          wallets'[w].available == wallets[w].available + (if w == walletId then available else 0))
    && (forall w :: w in wallets ==>
          wallets'[w].reserved == wallets[w].reserved + (if w == walletId then reserved else 0))
  }

  /** Rows may be appended, but no deposit among them. */
  ghost predicate NoNewDeposit(rows: seq<Transaction>, rows': seq<Transaction>) {
    && |rows| <= |rows'| && (forall i :: 0 <= i < |rows| ==> rows'[i] == rows[i])
    && (forall i :: |rows| <= i < |rows'| ==> !rows'[i].kind.DEPOSIT?)
  }

  /** The first event of a dispute books a case from `db`. */
  ghost predicate First(db: Database, s: Database, d: LinkedDeposit, desired: DisputeStatus, x: Input, now: int)
    requires d.row < |db.ledger| && d.attemptId in db.attempts && x.eventId in db.events
  {
    var c := NewCase(db, d, desired, x);
    && s.cases == db.cases + [c]
    && s.attempts == WithStatus(db.attempts, d.attemptId, Projection(db.attempts[d.attemptId].status, s.cases, d.attemptId))
    && s.events == db.events[x.eventId := Processed(db.events[x.eventId], now, d.attemptId, |db.cases|)]
    && Moved(db.wallets, s.wallets, c.walletId, -c.held, if desired.OPEN? then c.held else 0)
    && NoNewDeposit(db.ledger, s.ledger)
  }

  lemma BookMoves(db: Database, d: LinkedDeposit, desired: DisputeStatus, x: Input)
    requires d.row < |db.ledger| && x.facts.amountMinor > 0 && BookCase(db, d, desired, x).Ok?
    ensures var c := NewCase(db, d, desired, x);
            Moved(db.wallets, BookCase(db, d, desired, x).value.wallets, c.walletId, -c.held,
                  if desired.OPEN? then c.held else 0)
  {
    hide Collides, CaseSum, MoveMoney, Moved, DisputeRow;
    var c := NewCase(db, d, desired, x);
    MoneyMoves(db, c.walletId, -c.held, if desired.OPEN? then c.held else 0);
    NothingMoves(db.wallets, c.walletId);
  }

  lemma NothingMoves(wallets: map<Id, Wallet>, walletId: Id)
    ensures Moved(wallets, wallets, walletId, 0, 0)
  {
  }

  lemma BookEffect(db: Database, d: LinkedDeposit, desired: DisputeStatus, x: Input)
    requires d.row < |db.ledger| && BookCase(db, d, desired, x).Ok?
    ensures var s := BookCase(db, d, desired, x).value;
            && s.cases == db.cases + [NewCase(db, d, desired, x)] && s.attempts == db.attempts && s.events == db.events
            && NoNewDeposit(db.ledger, s.ledger)
  {
    BookWrites(db, d, desired, x);
    hide BookCase, NewCase;
  }

  lemma CompleteEffect(db: Database, id: Id, k: nat, x: Input, now: int)
    requires CompleteEvent(db, id, k, x, now).Ok?
    ensures id in db.attempts && x.eventId in db.events
    ensures CompleteEvent(db, id, k, x, now).value
         == db.(attempts := WithStatus(db.attempts, id, Projection(db.attempts[id].status, db.cases, id)),
                events := db.events[x.eventId := Processed(db.events[x.eventId], now, id, k)])
  {
  }

  lemma FirstEffect(db: Database, d: LinkedDeposit, desired: DisputeStatus, x: Input, now: int)
    returns (s: Database)
    requires Valid(db) && Checked(db, d, desired, x) && x.fingerprint == x.facts && d.row < |db.ledger|
    requires FindCase(db.cases, x.facts.disputeId).None?
    requires Transition(db, x, now, true).Ok?
    ensures s == Transition(db, x, now, true).value.0
    ensures d.attemptId in db.attempts && x.eventId in db.events && First(db, s, d, desired, x, now)
  {
    hide Valid, MoneyValid, BookCase, CompleteEvent, FindCase, NewCase, Projection, Moved, NoNewDeposit, FindLinkedDeposit,
      EventExact, CasesValid, DisputesBounded, DisputeRowsOwned, RowsDistinct, DepositsOwned, AttemptsLinked,
      CreditedWalletsExist, SessionsDistinct, EventsValid, EvidenceValid, Projected, AmountsValid;
    ValidParts(db);
    s := Transition(db, x, now, true).value.0;
    CheckedFacts(db, d, desired, x);
    var between := BookCase(db, d, desired, x).value;
    BookEffect(db, d, desired, x);
    BookMoves(db, d, desired, x);
    CompleteEffect(between, d.attemptId, |db.cases|, x, now);
  }

  // ---------------------------------------------------------------- the second event finds the case

  lemma {:induction false} FindDepositStable(rows: seq<Transaction>, rows': seq<Transaction>, paymentId: Id)
    requires NoNewDeposit(rows, rows')
    ensures FindDeposit(rows', paymentId) == FindDeposit(rows, paymentId)
    decreases |rows'|
  {
    if |rows'| == |rows| {
      assert rows' == rows;
    } else {
      FindDepositStable(rows, rows'[..|rows'| - 1], paymentId);
    }
  }

  lemma SecondFindsDeposit(db: Database, s: Database, d: LinkedDeposit, dx: DisputeStatus, x: Input, dy: DisputeStatus,
                           y: Input, now: int)
    requires Checked(db, d, dy, y) && x.eventId != y.eventId
    requires d.row < |db.ledger| && d.attemptId in db.attempts && x.eventId in db.events && First(db, s, d, dx, x, now)
    ensures Checked(s, d, dy, y) && d.row < |s.ledger|
  {
    hide Moved, NewCase, Projection;
    FindDepositStable(db.ledger, s.ledger, y.facts.paymentId);
    ProjectionStaysBacked(db.attempts[d.attemptId].status, s.cases, d.attemptId);
  }

  lemma SecondFindsCase(db: Database, s: Database, d: LinkedDeposit, dx: DisputeStatus, x: Input, y: Input, now: int)
    requires SameDispute(x, y) && d.row < |db.ledger| && d.attemptId in db.attempts && x.eventId in db.events
    requires First(db, s, d, dx, x, now)
    requires Text.Upper(db.ledger[d.row].currency) == x.facts.currency
    ensures FindCase(s.cases, y.facts.disputeId) == Some(|db.cases|)
    ensures CaseExact(s.cases[|db.cases|], y.facts, s, d)
  {
    hide Moved, Projection;
    Text.UpperIdempotent(db.ledger[d.row].currency);
  }

  lemma LinkedCurrency(db: Database, d: LinkedDeposit, desired: DisputeStatus, x: Input)
    requires Checked(db, d, desired, x)
    ensures d.row < |db.ledger| && Text.Upper(db.ledger[d.row].currency) == x.facts.currency
  {
  }

  // ---------------------------------------------------------------- the effect of the second event

  lemma ResolveMoves(s: Database, k: nat, outcome: DisputeStatus, y: Input)
    requires k < |s.cases| && s.cases[k].held >= 0 && !outcome.OPEN? && ResolveOpen(s, k, outcome, y).Ok?
    ensures var c := s.cases[k];
            Moved(s.wallets, ResolveOpen(s, k, outcome, y).value.wallets, c.walletId,
                  if outcome.WON? then c.held else 0, -c.held)
  {
    hide Collides;
    var s' := ResolveOpen(s, k, outcome, y).value;
    if s.cases[k].held > 0 {
      MoneyMoves(s, s.cases[k].walletId, if outcome.WON? then s.cases[k].held else 0, -s.cases[k].held);
    }
  }

  lemma MoneyMoves(db: Database, walletId: Id, available: int, reserved: int)
    requires walletId in db.wallets
    ensures Moved(db.wallets, MoveMoney(db, walletId, available, reserved).wallets, walletId, available, reserved)
  {
  }

  lemma ResolveEffect(s: Database, k: nat, outcome: DisputeStatus, y: Input)
    requires k < |s.cases| && ResolveOpen(s, k, outcome, y).Ok?
    ensures var s' := ResolveOpen(s, k, outcome, y).value;
            && s'.attempts == s.attempts && s'.events == s.events && |s'.cases| == |s.cases|
            && (forall j :: 0 <= j < |s.cases| && j != k ==> s'.cases[j] == s.cases[j])
            && SameBooking(s.cases[k], s'.cases[k]) && s'.cases[k].status == outcome
            && s'.cases[k].providerStatus == y.facts.providerStatus && s'.cases[k].openedBy == s.cases[k].openedBy
            && s'.cases[k].resolvedBy == Some(y.eventId)
            && s'.cases[k].exposure == (if outcome.WON? then 0 else s.cases[k].shortfall)
  {
    hide Collides;
  }

  /** The state after the second event, as far as the other order has to match it. */
  ghost predicate Final(db: Database, t: Database, d: LinkedDeposit, opening: Input, closing: Input, outcome: DisputeStatus,
                        openedAt: int, closedAt: int)
    requires d.row < |db.ledger| && d.attemptId in db.attempts
    requires opening.eventId in db.events && closing.eventId in db.events
  {
    var k := |db.cases|;
    var f := opening.facts;
    var held := HeldFor(outcome, WalletOf(db, db.ledger[d.row].walletId).available, f.amountMinor);
    && |t.cases| == k + 1 && t.cases[..k] == db.cases
    && Outcome(t.cases[k], db, d, opening, closing, outcome)
    && t.events == db.events[opening.eventId := Processed(db.events[opening.eventId], openedAt, d.attemptId, k)]
                            [closing.eventId := Processed(db.events[closing.eventId], closedAt, d.attemptId, k)]
    && t.attempts == WithStatus(db.attempts, d.attemptId, Projection(db.attempts[d.attemptId].status, t.cases, d.attemptId))
    && Moved(db.wallets, t.wallets, db.ledger[d.row].walletId, -held, 0)
  }

  /** What both orders record about the case. A dispute that was won first has never held anything. */
  ghost predicate Outcome(c: PaymentDispute, db: Database, d: LinkedDeposit, opening: Input, closing: Input,
                          outcome: DisputeStatus)
    requires d.row < |db.ledger|
  {
    var f := opening.facts;
    var held := HeldFor(outcome, WalletOf(db, db.ledger[d.row].walletId).available, f.amountMinor);
    && c.disputeId == f.disputeId && c.paymentId == f.paymentId && c.chargeId == f.chargeId
    && c.depositAttemptId == d.attemptId && c.depositTransactionId == d.row && c.walletId == db.ledger[d.row].walletId
    && c.amount == f.amountMinor && c.currency == f.currency
    && c.status == outcome && c.providerStatus == closing.facts.providerStatus
    && c.openedBy == Some(opening.eventId) && c.resolvedBy == Some(closing.eventId)
    && c.exposure == (if outcome.WON? then 0 else f.amountMinor - held)
    && (outcome.LOST? ==> c.held == held && c.shortfall == f.amountMinor - held)
  }

  /** Re-projecting depends only on the statuses of the cases of the attempt. */
  lemma ProjectionTwice(current: Status, cases: seq<PaymentDispute>, cases': seq<PaymentDispute>, id: Id)
    ensures Projection(Projection(current, cases, id), cases', id) == Projection(current, cases', id)
  {
  }

  lemma MovedTwice(a: map<Id, Wallet>, b: map<Id, Wallet>, c: map<Id, Wallet>, walletId: Id, x: int, y: int, x': int, y': int)
    requires Moved(a, b, walletId, x, y) && Moved(b, c, walletId, x', y')
    ensures Moved(a, c, walletId, x + x', y + y')
  {
  }

  /** A transition whose checks are known is its branch followed by its completion. */
  lemma TransitionIs(db: Database, d: LinkedDeposit, desired: DisputeStatus, x: Input, now: int)
    returns (between: Database, k: nat)
    requires Checked(db, d, desired, x) && Transition(db, x, now, true).Ok? && d.row < |db.ledger|
    ensures Apply(db, d, desired, x).Ok? && between == Apply(db, d, desired, x).value.0
    ensures k == Apply(db, d, desired, x).value.1.caseId
    ensures CompleteEvent(between, d.attemptId, k, x, now) == Ok(Transition(db, x, now, true).value.0)
  {
    between := Apply(db, d, desired, x).value.0;
    k := Apply(db, d, desired, x).value.1.caseId;
  }

  /** On an open case a close is a resolution; on a closed case an opening only attaches itself. */
  lemma BranchOnCase(s: Database, d: LinkedDeposit, desired: DisputeStatus, y: Input, k: nat)
    requires FindCase(s.cases, y.facts.disputeId) == Some(k) && d.row < |s.ledger| && Apply(s, d, desired, y).Ok?
    ensures Apply(s, d, desired, y).value.1.caseId == k
    ensures desired.OPEN? ==> Apply(s, d, desired, y).value.0 == AttachOpening(s, k, y.eventId)
    ensures !desired.OPEN? && s.cases[k].status.OPEN? ==>
              ResolveOpen(s, k, desired, y) == Ok(Apply(s, d, desired, y).value.0)
  {
    hide FindCase, CaseExact, ResolveOpen, AttachOpening;
  }

  lemma CloseAfterOpen(db: Database, s: Database, d: LinkedDeposit, opening: Input, closing: Input, outcome: DisputeStatus,
                       openedAt: int, closedAt: int)
    requires Pair(db, d, opening, closing, outcome) && Valid(s)
    requires d.attemptId in db.attempts && opening.eventId in db.events && closing.eventId in db.events
    requires First(db, s, d, OPEN, opening, openedAt)
    requires Checked(s, d, outcome, closing) && d.row < |s.ledger|
    requires FindCase(s.cases, closing.facts.disputeId) == Some(|db.cases|)
    requires Transition(s, closing, closedAt, true).Ok?
    ensures Final(db, Transition(s, closing, closedAt, true).value.0, d, opening, closing, outcome, openedAt, closedAt)
  {
    hide Valid, Checked, ResolveOpen, Projection, FindCase, CompleteEvent, Transition, Apply, Moved, CaseLinked;
    var k := |db.cases|;
    var t := Transition(s, closing, closedAt, true).value.0;
    var c := s.cases[k];
    ValidCase(s, k);
    var between, _ := TransitionIs(s, d, outcome, closing, closedAt);
    BranchOnCase(s, d, outcome, closing, k);
    ResolveMoves(s, k, outcome, closing);
    ResolveEffect(s, k, outcome, closing);
    CompleteEffect(between, d.attemptId, k, closing, closedAt);
    ProjectionTwice(db.attempts[d.attemptId].status, s.cases, t.cases, d.attemptId);
    MovedTwice(db.wallets, s.wallets, t.wallets, c.walletId, -c.held, c.held, if outcome.WON? then c.held else 0, -c.held);
  }

  lemma OpenAfterClose(db: Database, s: Database, d: LinkedDeposit, opening: Input, closing: Input, outcome: DisputeStatus,
                       openedAt: int, closedAt: int)
    requires Pair(db, d, opening, closing, outcome)
    requires d.attemptId in db.attempts && opening.eventId in db.events && closing.eventId in db.events
    requires First(db, s, d, outcome, closing, closedAt)
    requires Checked(s, d, OPEN, opening) && d.row < |s.ledger|
    requires FindCase(s.cases, opening.facts.disputeId) == Some(|db.cases|)
    requires Transition(s, opening, openedAt, true).Ok?
    ensures Final(db, Transition(s, opening, openedAt, true).value.0, d, opening, closing, outcome, openedAt, closedAt)
  {
    hide Valid, Checked, Projection, FindCase, CompleteEvent, Transition, Apply, Moved;
    var k := |db.cases|;
    var t := Transition(s, opening, openedAt, true).value.0;
    var between, _ := TransitionIs(s, d, OPEN, opening, openedAt);
    BranchOnCase(s, d, OPEN, opening, k);
    CompleteEffect(between, d.attemptId, k, opening, openedAt);
    ProjectionTwice(db.attempts[d.attemptId].status, s.cases, t.cases, d.attemptId);
    EventsCommute(db.events, opening.eventId, Processed(db.events[opening.eventId], openedAt, d.attemptId, k),
                  closing.eventId, Processed(db.events[closing.eventId], closedAt, d.attemptId, k));
  }

  lemma EventsCommute(events: Events, a: Id, ea: ProviderEvent, b: Id, eb: ProviderEvent)
    requires a != b
    ensures events[a := ea][b := eb] == events[b := eb][a := ea]
  {
  }

  /**
   Same money, same inbox, same deposit, and the same case up to how a won dispute was once held,
   the rows that held and resolved it, and how often the case was written.
   */
  ghost predicate Agree(s: Database, t: Database, k: nat) {
    && s.attempts == t.attempts && s.events == t.events
    && (forall w: Id :: WalletOf(s, w).available == WalletOf(t, w).available && WalletOf(s, w).reserved == WalletOf(t, w).reserved)
    && (forall w: Id :: LedgerSum(BalanceRows(w), s.ledger) == LedgerSum(BalanceRows(w), t.ledger))
    && |s.cases| == |t.cases| == k + 1 && s.cases[..k] == t.cases[..k]
    && var c := s.cases[k]; var c' := t.cases[k];
       && c.disputeId == c'.disputeId && c.paymentId == c'.paymentId && c.chargeId == c'.chargeId
       && c.depositAttemptId == c'.depositAttemptId && c.walletId == c'.walletId
       && c.depositTransactionId == c'.depositTransactionId && c.amount == c'.amount && c.currency == c'.currency
       && c.status == c'.status && c.providerStatus == c'.providerStatus && c.exposure == c'.exposure
       && c.openedBy == c'.openedBy && c.resolvedBy == c'.resolvedBy
       && (c.status.LOST? ==> c.held == c'.held && c.shortfall == c'.shortfall)
  }

  lemma FinalsAgree(db: Database, s: Database, t: Database, d: LinkedDeposit, opening: Input, closing: Input,
                    outcome: DisputeStatus, openedAt: int, closedAt: int)
    requires d.row < |db.ledger| && d.attemptId in db.attempts
    requires opening.eventId in db.events && closing.eventId in db.events && !outcome.OPEN?
    requires Final(db, s, d, opening, closing, outcome, openedAt, closedAt) && Valid(s)
    requires Final(db, t, d, opening, closing, outcome, openedAt, closedAt) && Valid(t)
    ensures Agree(s, t, |db.cases|)
  {
    hide Base, Valid, MoneyValid, CaseSum, LedgerSum, ReservationSum;
    ProjectionSame(db.attempts[d.attemptId].status, s.cases, t.cases, d.attemptId);
    forall w: Id
      ensures WalletOf(s, w).available == WalletOf(t, w).available && WalletOf(s, w).reserved == WalletOf(t, w).reserved
      ensures LedgerSum(BalanceRows(w), s.ledger) == LedgerSum(BalanceRows(w), t.ledger)
    {
      Parity(s, w);
      Parity(t, w);
    }
  }

  lemma Parity(db: Database, w: Id)
    requires Valid(db)
    ensures WalletOf(db, w).available + WalletOf(db, w).reserved == LedgerSum(BalanceRows(w), db.ledger)
  {
    assert BalancedIn(db, w);
  }

  lemma ProjectionSame(current: Status, cases: seq<PaymentDispute>, cases': seq<PaymentDispute>, id: Id)
    requires |cases| == |cases'|
    requires forall i :: 0 <= i < |cases| ==>
               cases[i].depositAttemptId == cases'[i].depositAttemptId && cases[i].status == cases'[i].status
    ensures Projection(current, cases, id) == Projection(current, cases', id)
  {
  }

  /** One order of arrival: the first event commits exactly when it may, and then so does the second. */
  lemma InOrder(db: Database, d: LinkedDeposit, dx: DisputeStatus, x: Input, dy: DisputeStatus, y: Input, now: int, later: int)
    returns (s: Database)
    requires Valid(db) && Checked(db, d, dx, x) && Checked(db, d, dy, y) && SameDispute(x, y)
    requires x.fingerprint == x.facts && y.fingerprint == y.facts && d.row < |db.ledger|
    requires FindCase(db.cases, x.facts.disputeId).None? && (dx.OPEN? <==> !dy.OPEN?)
    requires Transition(db, x, now, true).Ok?
    ensures s == Transition(db, x, now, true).value.0 && Valid(s)
    ensures d.attemptId in db.attempts && x.eventId in db.events && First(db, s, d, dx, x, now)
    ensures Checked(s, d, dy, y) && d.row < |s.ledger| && FindCase(s.cases, y.facts.disputeId) == Some(|db.cases|)
    ensures Transition(s, y, later, true).Ok? && Valid(Transition(s, y, later, true).value.0)
  {
    hide Valid, Transition, FindCase, Moved, Projection, EventExact, Checked;
    s := FirstEffect(db, d, dx, x, now);
    TransitionKeepsValid(db, x, now, true);
    SecondFindsDeposit(db, s, d, dx, x, dy, y, now);
    LinkedCurrency(db, d, dx, x);
    SecondFindsCase(db, s, d, dx, x, y, now);
    FirstWasApplicable(db, d, dx, x, now);
    SecondIsApplicable(db, s, d, dx, x, dy, y, now);
    SecondCommits(s, d, dy, y, later);
    TransitionKeepsValid(s, y, later, true);
  }

  lemma FirstWasApplicable(db: Database, d: LinkedDeposit, dx: DisputeStatus, x: Input, now: int)
    requires Valid(db) && Checked(db, d, dx, x) && d.row < |db.ledger| && Transition(db, x, now, true).Ok?
    ensures Applicable(db, d, dx, x)
  {
    hide Valid, Applicable, Transition;
    TransitionCommitsExactly(db, x, now, true);
  }

  lemma SecondIsApplicable(db: Database, s: Database, d: LinkedDeposit, dx: DisputeStatus, x: Input, dy: DisputeStatus,
                           y: Input, now: int)
    requires d.row < |db.ledger| && d.attemptId in db.attempts && x.eventId in db.events && First(db, s, d, dx, x, now)
    requires FindCase(db.cases, x.facts.disputeId).None? && Applicable(db, d, dx, x) && SameDispute(x, y)
    requires FindCase(s.cases, y.facts.disputeId) == Some(|db.cases|) && d.row < |s.ledger|
    requires CaseExact(s.cases[|db.cases|], y.facts, s, d) && (dx.OPEN? <==> !dy.OPEN?)
    ensures Applicable(s, d, dy, y)
  {
    hide FindCase, CaseExact, Projection, CaseSum;
  }

  lemma SecondCommits(s: Database, d: LinkedDeposit, dy: DisputeStatus, y: Input, later: int)
    requires Valid(s) && Checked(s, d, dy, y) && y.fingerprint == y.facts && d.row < |s.ledger| && Applicable(s, d, dy, y)
    ensures Transition(s, y, later, true).Ok?
  {
    hide Valid, Applicable, Transition;
    TransitionCommitsExactly(s, y, later, true);
  }

  /** Whether the first of the two events may book the case does not depend on which one it is. */
  lemma SameAdmission(db: Database, d: LinkedDeposit, opening: Input, closing: Input, outcome: DisputeStatus,
                      openedAt: int, closedAt: int)
    requires Pair(db, d, opening, closing, outcome)
    ensures Transition(db, opening, openedAt, true).Ok? <==> Transition(db, closing, closedAt, true).Ok?
  {
    hide Valid, Transition, CaseSum, Usable, FindCase;
    TransitionCommitsExactly(db, opening, openedAt, true);
    TransitionCommitsExactly(db, closing, closedAt, true);
  }

  /**
   Out-of-order confluence. Either order is admitted exactly when the other one is, no second
   event is refused, and both orders end in states that agree.
   */
  lemma OrderDoesNotMatter(db: Database, d: LinkedDeposit, opening: Input, closing: Input, outcome: DisputeStatus,
                           openedAt: int, closedAt: int)
    requires Pair(db, d, opening, closing, outcome)
    ensures Transition(db, opening, openedAt, true).Ok? <==> Transition(db, closing, closedAt, true).Ok?
    ensures Transition(db, opening, openedAt, true).Ok? ==>
              var a := Transition(Transition(db, opening, openedAt, true).value.0, closing, closedAt, true);
              var b := Transition(Transition(db, closing, closedAt, true).value.0, opening, openedAt, true);
              a.Ok? && b.Ok? && Agree(a.value.0, b.value.0, |db.cases|)
  {
    hide Valid, Transition, Checked, FindCase, First, Final, Agree;
    SameAdmission(db, d, opening, closing, outcome, openedAt, closedAt);
    if Transition(db, opening, openedAt, true).Ok? {
      var s := InOrder(db, d, OPEN, opening, outcome, closing, openedAt, closedAt);
      var t := InOrder(db, d, outcome, closing, OPEN, opening, closedAt, openedAt);
      CloseAfterOpen(db, s, d, opening, closing, outcome, openedAt, closedAt);
      OpenAfterClose(db, t, d, opening, closing, outcome, openedAt, closedAt);
      FinalsAgree(db, Transition(s, closing, closedAt, true).value.0, Transition(t, opening, openedAt, true).value.0,
                  d, opening, closing, outcome, openedAt, closedAt);
    }
  }

  /** The event that comes second never changes what the case holds. */
  lemma SecondKeepsHeld(s: Database, d: LinkedDeposit, dy: DisputeStatus, y: Input, k: nat, now: int)
    requires Checked(s, d, dy, y) && d.row < |s.ledger| && FindCase(s.cases, y.facts.disputeId) == Some(k)
    requires Transition(s, y, now, true).Ok?
    ensures var s' := Transition(s, y, now, true).value.0; k < |s'.cases| && s'.cases[k].held == s.cases[k].held
  {
    hide Transition, Checked, FindCase, CompleteEvent, ResolveOpen, CaseExact;
    var between, _ := TransitionIs(s, d, dy, y, now);
    CompleteEffect(between, d.attemptId, k, y, now);
    BranchOnCase(s, d, dy, y, k);
    if !dy.OPEN? && s.cases[k].status.OPEN? {
      ResolveEffect(s, k, dy, y);
    }
  }

  /**
   The exact condition on the hold: both orders record the same one if and only if the dispute was
   lost, or the wallet had nothing that an opening could have held.
   */
  lemma HoldsAgreeExactly(db: Database, d: LinkedDeposit, opening: Input, closing: Input, outcome: DisputeStatus,
                          openedAt: int, closedAt: int)
    requires Pair(db, d, opening, closing, outcome)
    requires Transition(db, opening, openedAt, true).Ok? && Transition(db, closing, closedAt, true).Ok?
    ensures var a := Transition(Transition(db, opening, openedAt, true).value.0, closing, closedAt, true);
            var b := Transition(Transition(db, closing, closedAt, true).value.0, opening, openedAt, true);
            var k := |db.cases|;
            && a.Ok? && b.Ok? && k < |a.value.0.cases| && k < |b.value.0.cases|
            && (a.value.0.cases[k].held == b.value.0.cases[k].held
                <==> outcome.LOST? || WalletOf(db, db.ledger[d.row].walletId).available == 0)
  {
    hide Transition, FindCase, Projection, Moved, NoNewDeposit;
    var s := InOrder(db, d, OPEN, opening, outcome, closing, openedAt, closedAt);
    var t := InOrder(db, d, outcome, closing, OPEN, opening, closedAt, openedAt);
    SecondKeepsHeld(s, d, outcome, closing, |db.cases|, closedAt);
    SecondKeepsHeld(t, d, OPEN, opening, |db.cases|, openedAt);
    CheckedFacts(db, d, OPEN, opening);
    assert BalancedIn(db, db.ledger[d.row].walletId);
  }
}
