/**
 What a dispute event has to be for its transition to commit, and what it then moves: the money,
 the ledger row and the case, all in terms of the columns of the rows.
 */
module DisputeEffects {
  import opened Outcomes
  import opened DepositStatus
  import opened WalletState
  import opened WalletInvariant
  import PD = PaymentDisputes
  import DP = PaymentDisputeProof
  import DT = DisputeTransitionProof
  import Text

  // ---------------------------------------------------------------- what is admitted

  /** The claimed inbox row holds this very event: all of its columns, and its digest. */
  ghost predicate ClaimedEvent(db: Database, input: PD.Input) {
    && input.eventId in db.events
    && var e, f := db.events[input.eventId], input.facts;
    && e.status == CLAIMED && e.attempts == input.claimAttempt && e.lockedAt == Some(input.claimLockedAt)
    && e.provider == "stripe" && e.providerEventId == f.providerEventId && e.eventType == f.eventType
    && e.objectId == f.disputeId && e.paymentId == Some(f.paymentId) && e.chargeId == f.chargeId
    && e.amountMinor == Some(f.amountMinor) && e.currency == Some(f.currency)
    && e.providerStatus == Some(f.providerStatus) && e.livemode == f.livemode
    && e.fingerprint == Some(f) && input.fingerprint == f
  }

  /** The statuses that the provider gives to a dispute that is open, won, or lost. */
  ghost predicate SaysOpen(f: Envelope) {
    && f.eventType.DisputeCreated?
    && f.providerStatus in {"needs_response", "under_review", "warning_needs_response", "warning_under_review"}
  }

  ghost predicate SaysWon(f: Envelope) {
    !f.eventType.DisputeCreated? && f.providerStatus in {"won", "prevented", "warning_closed"}
  }

  ghost predicate SaysLost(f: Envelope) {
    !f.eventType.DisputeCreated? && f.providerStatus == "lost"
  }

  /** Row `i` is the credited deposit of attempt `id` that the event disputes. */
  ghost predicate DisputedDeposit(db: Database, f: Envelope, i: nat, id: Id) {
    && i < |db.ledger| && id in db.attempts
    && var row, a := db.ledger[i], db.attempts[id];
    && row.kind.DEPOSIT? && row.provider == Some("stripe") && row.providerRef == Some(f.paymentId) && row.depositAttempt == Some(id)
    && a.provider == "stripe" && a.providerPaymentId == Some(f.paymentId) && a.ledgerTransactionId == Some(i)
    && a.status in {SUCCEEDED, PARTIALLY_REFUNDED, REFUNDED, DISPUTED, CHARGEBACK}
    && a.walletId == row.walletId && row.amount == a.walletCredit && f.amountMinor <= row.amount
    && Text.Upper(row.currency) == f.currency && Text.Upper(a.currency) == f.currency
  }

  /** What the cases of a deposit dispute together, whatever became of them. */
  ghost function DisputedSoFar(cases: seq<PaymentDispute>, deposit: nat): int {
    if cases == [] then 0
    else
      var last := cases[|cases| - 1];
      DisputedSoFar(cases[..|cases| - 1], deposit) + if last.depositTransactionId == deposit then last.amount else 0
  }

  ghost predicate WalletIn(db: Database, walletId: Id, currency: string) {
    walletId in db.wallets && Text.Upper(db.wallets[walletId].currency) == currency
  }

  /** The recorded case is the same command, and the event does not contradict its outcome. */
  ghost predicate FitsCase(db: Database, f: Envelope, i: nat, id: Id, c: PaymentDispute)
    requires i < |db.ledger|
  {
    && c.paymentId == f.paymentId && c.chargeId == f.chargeId && c.amount == f.amountMinor && Text.Upper(c.currency) == f.currency
    && c.depositAttemptId == id && c.depositTransactionId == i && c.walletId == db.ledger[i].walletId
    && (SaysOpen(f) || (SaysWon(f) && c.status.WON?) || (SaysLost(f) && c.status.LOST?)
        || (c.status.OPEN? && WalletIn(db, c.walletId, f.currency)))
  }

  ghost predicate Unrecorded(db: Database, disputeId: Id) {
    forall k :: 0 <= k < |db.cases| ==> db.cases[k].disputeId != disputeId
  }

  ghost predicate FitsDeposit(db: Database, f: Envelope, i: nat, id: Id) {
    && DisputedDeposit(db, f, i, id)
    && (forall k :: 0 <= k < |db.cases| && db.cases[k].disputeId == f.disputeId ==> FitsCase(db, f, i, id, db.cases[k]))
    && (Unrecorded(db, f.disputeId) ==>
          DisputedSoFar(db.cases, i) + f.amountMinor <= db.ledger[i].amount && WalletIn(db, db.ledger[i].walletId, f.currency))
  }

  lemma {:induction false} SameSum(cases: seq<PaymentDispute>, deposit: nat)
    ensures DisputedSoFar(cases, deposit) == CaseSum(DisputedOf(deposit), cases)
  {
    if cases != [] {
      SameSum(cases[..|cases| - 1], deposit);
    }
  }

  lemma ClaimedIsExact(db: Database, input: PD.Input)
    ensures ClaimedEvent(db, input) <==>
              input.eventId in db.events && PD.EventExact(db.events[input.eventId], input) && input.fingerprint == input.facts
  {
  }

  lemma TargetSaid(f: Envelope)
    ensures SaysOpen(f) <==> PD.TargetStatus(f) == Ok(OPEN)
    ensures SaysWon(f) <==> PD.TargetStatus(f) == Ok(WON)
    ensures SaysLost(f) <==> PD.TargetStatus(f) == Ok(LOST)
    ensures PD.TargetStatus(f).Ok? <==> SaysOpen(f) || SaysWon(f) || SaysLost(f)
  {
    if PD.TargetStatus(f).Ok? {
      match PD.TargetStatus(f).value
      case OPEN =>
      case WON =>
      case LOST =>
    }
  }

  lemma OnePayment(rows: seq<Transaction>, i: nat, j: nat)
    requires RowsDistinct(rows) && i < |rows| && j < |rows|
    requires rows[i].providerRef.Some? && rows[i].providerRef == rows[j].providerRef
    ensures i == j
  {
  }

  /** No two rows carry the same payment, so the row that is found is the only one there is. */
  lemma DepositFound(db: Database, f: Envelope, i: nat, id: Id)
    requires RowsDistinct(db.ledger)
    ensures DisputedDeposit(db, f, i, id) <==> PD.FindLinkedDeposit(db, f) == Ok(PD.LinkedDeposit(i, id))
  {
    hide Text.Upper;
    var found := PD.FindDeposit(db.ledger, f.paymentId);
    if DisputedDeposit(db, f, i, id) {
      assert PD.DepositFor(db.ledger[i], f.paymentId);
      OnePayment(db.ledger, i, found.value);
    }
  }

  lemma DepositWallet(db: Database, f: Envelope, i: nat, id: Id)
    requires Valid(db) && DisputedDeposit(db, f, i, id)
    ensures db.ledger[i].walletId in db.wallets
  {
    hide Text.Upper, CasesValid, MoneyValid, AttemptsLinked;
  }

  lemma CaseWallet(db: Database, k: nat)
    requires Valid(db) && k < |db.cases|
    ensures db.cases[k].walletId in db.wallets
  {
    DT.CaseWalletExists(db, k);
  }

  lemma DisputesDistinct(db: Database, k: nat, l: nat)
    requires Valid(db) && k < |db.cases| && l < |db.cases| && db.cases[k].disputeId == db.cases[l].disputeId
    ensures k == l
  {
  }

  lemma ApplicableFits(db: Database, input: PD.Input, i: nat, id: Id)
    requires Valid(db) && DisputedDeposit(db, input.facts, i, id) && PD.TargetStatus(input.facts).Ok?
    ensures DT.Applicable(db, PD.LinkedDeposit(i, id), PD.TargetStatus(input.facts).value, input)
        <==> FitsDeposit(db, input.facts, i, id)
  {
    hide Valid, Text.Upper, CaseSum, DisputedSoFar, DisputedDeposit, PD.TargetStatus, SaysOpen, SaysWon, SaysLost;
    var f := input.facts;
    TargetSaid(f);
    DepositWallet(db, f, i, id);
    SameSum(db.cases, i);
    var found := PD.FindCase(db.cases, f.disputeId);
    if found.Some? {
      CaseWallet(db, found.value);
      forall k | 0 <= k < |db.cases| && db.cases[k].disputeId == f.disputeId ensures k == found.value {
        DisputesDistinct(db, k, found.value);
      }
    }
  }

  /**
   A dispute event commits exactly when the claimed row holds it, its status is one the provider
   gives to such an event, it is about a credited deposit of at least its amount, and it neither
   overdraws that deposit nor contradicts what is recorded.
   */
  lemma CommitsExactly(db: Database, input: PD.Input, now: int, modeOk: bool)
    requires Valid(db)
    ensures PD.Transition(db, input, now, modeOk).Ok? <==>
              && modeOk && ClaimedEvent(db, input) && (SaysOpen(input.facts) || SaysWon(input.facts) || SaysLost(input.facts))
              && exists i, id :: FitsDeposit(db, input.facts, i, id)
  {
    hide Valid, ClaimedEvent, DisputedDeposit, DT.Applicable, PD.Transition, PD.EventExact, PD.TargetStatus, PD.FindLinkedDeposit,
      SaysOpen, SaysWon, SaysLost, Unrecorded, FitsCase;
    var f := input.facts;
    DT.TransitionCommitsExactly(db, input, now, modeOk);
    ClaimedIsExact(db, input);
    TargetSaid(f);
    ValidParts(db);
    if PD.FindLinkedDeposit(db, f).Ok? && PD.TargetStatus(f).Ok? {
      var d := PD.FindLinkedDeposit(db, f).value;
      PD.LinkedRowExists(db, f);
      DepositFound(db, f, d.row, d.attemptId);
      ApplicableFits(db, input, d.row, d.attemptId);
    }
    forall i: nat, id: Id | FitsDeposit(db, f, i, id) ensures PD.FindLinkedDeposit(db, f) == Ok(PD.LinkedDeposit(i, id)) {
      DepositFound(db, f, i, id);
    }
  }

  // ---------------------------------------------------------------- what is moved

  /** Nobody but the wallet of the case gains or loses, and that one exactly this much. */
  ghost predicate Moves(before: map<Id, Wallet>, after: map<Id, Wallet>, walletId: Id, available: int, reserved: int) {
    && walletId in before && after.Keys == before.Keys
    && (forall id :: id in before && id != walletId ==> after[id] == before[id])
    && var w, w' := before[walletId], after[walletId];
    && w'.available == w.available + available && w'.reserved == w.reserved + reserved
    && w'.currency == w.currency && w'.organizationId == w.organizationId && w'.userId == w.userId
  }

  /** The one row that says so, unless nothing moved. */
  ghost predicate Books(db: Database, db': Database, c: PaymentDispute, currency: string, amount: int, chargeback: bool, phase: Phase) {
    if amount == 0 then db'.ledger == db.ledger
    else
      && |db'.ledger| == |db.ledger| + 1 && db'.ledger[..|db.ledger|] == db.ledger
      && var row := db'.ledger[|db.ledger|];
      && row.walletId == c.walletId && row.amount == amount && row.currency == currency
      && (if chargeback then row.kind.CHARGEBACK_ENTRY? else row.kind.RESERVATION_ENTRY?)
      && row.reference == DisputeReference(c.disputeId, phase)
      && row.provider.None? && row.providerRef.None? && row.depositAttempt.None?
  }

  /** The new case is the command of the event, about this deposit. */
  ghost predicate RecordsCommand(c: PaymentDispute, f: Envelope, db: Database, i: nat, id: Id)
    requires i < |db.ledger|
  {
    && c.disputeId == f.disputeId && c.paymentId == f.paymentId && c.chargeId == f.chargeId
    && c.depositAttemptId == id && c.depositTransactionId == i && c.walletId == db.ledger[i].walletId
    && c.amount == f.amountMinor && c.currency == f.currency && c.providerStatus == f.providerStatus
  }

  /** An opening or a loss takes all that is disputed as far as it is available, a win takes nothing. */
  ghost predicate HoldsAtFirst(db: Database, c: PaymentDispute, f: Envelope, eventId: Id, opens: bool, wins: bool) {
    && c.walletId in db.wallets
    && var available := db.wallets[c.walletId].available;
    && 0 <= c.held <= f.amountMinor && c.held <= available && c.shortfall == f.amountMinor - c.held
    && (if wins then c.held == 0 && c.exposure == 0
        else (c.held == f.amountMinor || c.held == available) && c.exposure == c.shortfall)
    && c.openedBy == (if opens then Some(eventId) else None)
    && c.resolvedBy == (if opens then None else Some(eventId))
    && c.holdTransactionId == (if opens && c.held > 0 then Some(|db.ledger|) else None)
    && c.resolutionTransactionId == (if !opens && c.held > 0 then Some(|db.ledger|) else None)
  }

  /** What the first event of a dispute leaves behind. */
  ghost predicate FirstEffect(db: Database, db': Database, input: PD.Input, i: nat, id: Id, opens: bool, wins: bool)
    requires i < |db.ledger|
  {
    && |db'.cases| == |db.cases| + 1 && db'.cases[..|db.cases|] == db.cases
    && var c, f := db'.cases[|db.cases|], input.facts;
    && RecordsCommand(c, f, db, i, id) && HoldsAtFirst(db, c, f, input.eventId, opens, wins)
    && Moves(db.wallets, db'.wallets, c.walletId, -c.held, if opens then c.held else 0)
    && Books(db, db', c, f.currency, -c.held, !opens, if opens then HoldPhase else LostPhase)
    && (if opens then c.status.OPEN? else if wins then c.status.WON? else c.status.LOST?)
  }

  /**
   The first event of a dispute. Opened or lost, it holds all that is disputed as far as the wallet has
   it available; won, it moves nothing. What it holds leaves the available balance, and stays in the
   wallet as reserved money only while the dispute is open.
   */
  lemma FirstEventMoves(db: Database, input: PD.Input, now: int, modeOk: bool, i: nat, id: Id)
    requires Valid(db) && PD.Transition(db, input, now, modeOk).Ok? && Unrecorded(db, input.facts.disputeId)
    requires DisputedDeposit(db, input.facts, i, id)
    ensures FirstEffect(db, PD.Transition(db, input, now, modeOk).value.0, input, i, id, SaysOpen(input.facts), SaysWon(input.facts))
  {
    TargetSaid(input.facts);
    FoundOnly(db, input.facts, i, id);
    hide Valid, PD.Transition, PD.Apply, PD.BookCase, PD.CompleteEvent, PD.FindLinkedDeposit, PD.TargetStatus, DP.Checked,
      DisputedDeposit, SaysOpen, SaysWon, SaysLost, FirstEffect;
    var d, desired, between, o := DT.TransitionReads(db, input, now, modeOk);
    CheckedDeposit(db, d, desired, input, now);
    assert PD.FindCase(db.cases, input.facts.disputeId).None?;
    FirstBranch(db, d, desired, input);
    FirstBranchMoves(db, between, d, desired, input);
    CompletionMovesNothing(between, d.attemptId, o.caseId, input, now);
    SameFirst(db, between, PD.Transition(db, input, now, modeOk).value.0, input, d, desired);
  }

  lemma FoundOnly(db: Database, f: Envelope, i: nat, id: Id)
    requires Valid(db) && DisputedDeposit(db, f, i, id)
    ensures PD.FindLinkedDeposit(db, f) == Ok(PD.LinkedDeposit(i, id)) && db.ledger[i].walletId in db.wallets
  {
    ValidParts(db);
    DepositFound(db, f, i, id);
    DepositWallet(db, f, i, id);
  }

  lemma FirstBranchMoves(db: Database, between: Database, d: PD.LinkedDeposit, desired: DisputeStatus, input: PD.Input)
    requires d.row < |db.ledger| && db.ledger[d.row].walletId in db.wallets && input.facts.amountMinor > 0
    requires PD.BookCase(db, d, desired, input) == Ok(between)
    ensures FirstEffect(db, between, input, d.row, d.attemptId, desired.OPEN?, desired.WON?)
  {
    DP.BookWrites(db, d, desired, input);
    NewCaseHolds(db, d, desired, input);
    BookedMoves(db, between, d, desired, input);
    hide PD.BookCase, PD.NewCase, RecordsCommand, HoldsAtFirst, Moves, Books, CaseSum;
  }

  lemma SameFirst(db: Database, between: Database, db': Database, input: PD.Input, d: PD.LinkedDeposit, desired: DisputeStatus)
    requires d.row < |db.ledger| && FirstEffect(db, between, input, d.row, d.attemptId, desired.OPEN?, desired.WON?)
    requires db'.wallets == between.wallets && db'.ledger == between.ledger && db'.cases == between.cases
    ensures FirstEffect(db, db', input, d.row, d.attemptId, desired.OPEN?, desired.WON?)
  {
    hide RecordsCommand, HoldsAtFirst;
  }

  lemma CheckedDeposit(db: Database, d: PD.LinkedDeposit, desired: DisputeStatus, input: PD.Input, now: int)
    requires Valid(db) && DP.Checked(db, d, desired, input)
    ensures PD.TargetStatus(input.facts) == Ok(desired) && PD.FindLinkedDeposit(db, input.facts) == Ok(d)
    ensures input.facts.amountMinor > 0
  {
    DP.CheckedFacts(db, d, desired, input);
  }

  lemma FirstBranch(db: Database, d: PD.LinkedDeposit, desired: DisputeStatus, input: PD.Input)
    requires d.row < |db.ledger| && PD.FindCase(db.cases, input.facts.disputeId).None? && PD.Apply(db, d, desired, input).Ok?
    ensures PD.BookCase(db, d, desired, input) == Ok(PD.Apply(db, d, desired, input).value.0)
    ensures PD.Apply(db, d, desired, input).value.1.caseId == |db.cases|
  {
    hide PD.BookCase;
  }

  lemma CompletionMovesNothing(db: Database, attemptId: Id, k: nat, input: PD.Input, now: int)
    requires PD.CompleteEvent(db, attemptId, k, input, now).Ok?
    ensures var db' := PD.CompleteEvent(db, attemptId, k, input, now).value;
            db'.ledger == db.ledger && db'.cases == db.cases && db'.wallets == db.wallets
  {
    hide PD.Projection;
  }

  lemma NewCaseHolds(db: Database, d: PD.LinkedDeposit, desired: DisputeStatus, input: PD.Input)
    requires d.row < |db.ledger| && db.ledger[d.row].walletId in db.wallets && input.facts.amountMinor > 0
    requires WalletOf(db, db.ledger[d.row].walletId).available >= 0
    ensures var c := PD.NewCase(db, d, desired, input);
            && RecordsCommand(c, input.facts, db, d.row, d.attemptId) && c.status == desired
            && HoldsAtFirst(db, c, input.facts, input.eventId, desired.OPEN?, desired.WON?)
  {
  }

  lemma BookedMoves(db: Database, between: Database, d: PD.LinkedDeposit, desired: DisputeStatus, input: PD.Input)
    requires d.row < |db.ledger| && db.ledger[d.row].walletId in db.wallets && input.facts.amountMinor > 0
    requires PD.BookCase(db, d, desired, input) == Ok(between)
    ensures var c := PD.NewCase(db, d, desired, input);
            && Moves(db.wallets, between.wallets, c.walletId, -c.held, if desired.OPEN? then c.held else 0)
            && Books(db, between, c, input.facts.currency, -c.held, !desired.OPEN?, if desired.OPEN? then HoldPhase else LostPhase)
  {
    hide CaseSum, Collides, Text.Upper;
    DP.BookWrites(db, d, desired, input);
  }

  // ---------------------------------------------------------------- later events

  /** A later event leaves every other case alone, and the command and the hold of its own. */
  ghost predicate SameCaseBut(db: Database, db': Database, k: nat) {
    && k < |db.cases| == |db'.cases|
    && (forall j :: 0 <= j < |db.cases| && j != k ==> db'.cases[j] == db.cases[j])
    && DP.SameBooking(db.cases[k], db'.cases[k])
  }

  /** An opening that comes late adds its evidence to the case, and nothing else happens to case or money. */
  ghost predicate OnlyAttaches(db: Database, db': Database, k: nat, eventId: Id)
    requires k < |db.cases| == |db'.cases|
  {
    var c, c' := db.cases[k], db'.cases[k];
    && db'.wallets == db.wallets && db'.ledger == db.ledger
    && c'.openedBy == (if c.openedBy.Some? then c.openedBy else Some(eventId))
    && c'.status == c.status && c'.providerStatus == c.providerStatus && c'.resolvedBy == c.resolvedBy
    && c'.exposure == c.exposure && c'.resolutionTransactionId == c.resolutionTransactionId
  }

  /** The close of an open case: the hold goes back to the customer, or leaves the wallet. */
  ghost predicate Closes(db: Database, db': Database, k: nat, input: PD.Input, wins: bool)
    requires k < |db.cases| == |db'.cases|
  {
    var c, c' := db.cases[k], db'.cases[k];
    && Moves(db.wallets, db'.wallets, c.walletId, if wins then c.held else 0, -c.held)
    && Books(db, db', c, input.facts.currency, if wins then c.held else -c.held, !wins, if wins then WonPhase else LostPhase)
    && (if wins then c'.status.WON? else c'.status.LOST?)
    && c'.exposure == (if wins then 0 else c.shortfall)
    && c'.openedBy == c.openedBy && c'.resolvedBy == Some(input.eventId) && c'.providerStatus == input.facts.providerStatus
    && c'.resolutionTransactionId == (if c.held > 0 then Some(|db.ledger|) else None)
  }

  /**
   An event about a recorded dispute. A late opening only attaches itself; a close of an open case
   releases or debits exactly its hold; a close that repeats the outcome changes no case and no money.
   */
  lemma LaterEventMoves(db: Database, input: PD.Input, now: int, modeOk: bool, k: nat)
    requires Valid(db) && PD.Transition(db, input, now, modeOk).Ok?
    requires k < |db.cases| && db.cases[k].disputeId == input.facts.disputeId
    ensures var db' := PD.Transition(db, input, now, modeOk).value.0; var f := input.facts; var c := db.cases[k];
            && SameCaseBut(db, db', k)
            && (SaysOpen(f) ==> OnlyAttaches(db, db', k, input.eventId))
            && (!SaysOpen(f) && c.status.OPEN? ==> Closes(db, db', k, input, SaysWon(f)))
            && (!SaysOpen(f) && !c.status.OPEN? ==>
                  db'.wallets == db.wallets && db'.ledger == db.ledger && db'.cases == db.cases
                  && (c.status.WON? <==> SaysWon(f)))
  {
    TargetSaid(input.facts);
    FoundCase(db, k);
    hide Valid, PD.Transition, PD.Apply, PD.CompleteEvent, PD.TargetStatus, DP.Checked, SaysOpen, SaysWon, SaysLost, SameCaseBut,
      OnlyAttaches, Closes, PD.FindCase;
    var d, desired, between, o := DT.TransitionReads(db, input, now, modeOk);
    CheckedDeposit(db, d, desired, input, now);
    CompletionMovesNothing(between, d.attemptId, o.caseId, input, now);
    LaterBranch(db, d, desired, input, k);
    SameLater(db, between, PD.Transition(db, input, now, modeOk).value.0, k, input, desired);
  }

  lemma FoundCase(db: Database, k: nat)
    requires Valid(db) && k < |db.cases|
    ensures PD.FindCase(db.cases, db.cases[k].disputeId) == Some(k) && db.cases[k].walletId in db.wallets
    ensures db.cases[k].held >= 0
  {
    hide Base, Projected, EvidenceValid;
    DisputesDistinct(db, k, PD.FindCase(db.cases, db.cases[k].disputeId).value);
    CaseWallet(db, k);
    ValidCase(db, k);
  }

  ghost predicate LaterEffect(db: Database, db': Database, k: nat, input: PD.Input, desired: DisputeStatus) {
    && SameCaseBut(db, db', k)
    && match desired
       case OPEN => OnlyAttaches(db, db', k, input.eventId)
       case _ =>
         if db.cases[k].status.OPEN? then Closes(db, db', k, input, desired.WON?)
         else db'.wallets == db.wallets && db'.ledger == db.ledger && db'.cases == db.cases && db.cases[k].status == desired
  }

  lemma LaterBranch(db: Database, d: PD.LinkedDeposit, desired: DisputeStatus, input: PD.Input, k: nat)
    requires d.row < |db.ledger| && PD.Apply(db, d, desired, input).Ok? && k < |db.cases|
    requires PD.FindCase(db.cases, input.facts.disputeId) == Some(k) && db.cases[k].disputeId == input.facts.disputeId
    requires db.cases[k].walletId in db.wallets && db.cases[k].held >= 0
    ensures LaterEffect(db, PD.Apply(db, d, desired, input).value.0, k, input, desired)
  {
    hide PD.ResolveOpen, PD.FindCase, SameCaseBut, OnlyAttaches, Closes, PD.AttachOpening, Text.Upper;
    var c := db.cases[k];
    if desired.OPEN? {
      AttachAttaches(db, k, input.eventId);
    } else if c.status.OPEN? {
      ResolveCloses(db, k, desired, input);
    } else {
      NothingChanges(db, k);
    }
  }

  lemma AttachAttaches(db: Database, k: nat, eventId: Id)
    requires k < |db.cases|
    ensures var db' := PD.AttachOpening(db, k, eventId); SameCaseBut(db, db', k) && OnlyAttaches(db, db', k, eventId)
  {
  }

  lemma NothingChanges(db: Database, k: nat)
    requires k < |db.cases|
    ensures SameCaseBut(db, db, k)
  {
  }

  lemma ResolveWritesRow(db: Database, k: nat, desired: DisputeStatus, input: PD.Input)
    requires k < |db.cases| && PD.ResolveOpen(db, k, desired, input).Ok? && !desired.OPEN?
    requires db.cases[k].disputeId == input.facts.disputeId && db.cases[k].held >= 0
    ensures var db' := PD.ResolveOpen(db, k, desired, input).value; var c := db.cases[k];
            Books(db, db', c, input.facts.currency, if desired.WON? then c.held else -c.held, !desired.WON?,
                  if desired.WON? then WonPhase else LostPhase)
  {
    hide Collides, PD.MoveMoney, Text.Upper;
  }

  lemma ResolveMovesMoney(db: Database, k: nat, desired: DisputeStatus, input: PD.Input)
    requires k < |db.cases| && PD.ResolveOpen(db, k, desired, input).Ok? && !desired.OPEN? && db.cases[k].held >= 0
    ensures var db' := PD.ResolveOpen(db, k, desired, input).value; var c := db.cases[k];
            Moves(db.wallets, db'.wallets, c.walletId, if desired.WON? then c.held else 0, -c.held)
  {
    hide Collides, PD.DisputeRow, PD.MoveMoney, Moves, Text.Upper;
    MoneyMoves(db, db.cases[k].walletId, if desired.WON? then db.cases[k].held else 0, -db.cases[k].held);
    NothingMoves(db, db.cases[k].walletId);
  }

  lemma MoneyMoves(db: Database, walletId: Id, available: int, reserved: int)
    requires walletId in db.wallets
    ensures Moves(db.wallets, PD.MoveMoney(db, walletId, available, reserved).wallets, walletId, available, reserved)
  {
  }

  lemma NothingMoves(db: Database, walletId: Id)
    requires walletId in db.wallets
    ensures Moves(db.wallets, db.wallets, walletId, 0, 0)
  {
  }

  lemma ResolveCloses(db: Database, k: nat, desired: DisputeStatus, input: PD.Input)
    requires k < |db.cases| && PD.ResolveOpen(db, k, desired, input).Ok? && !desired.OPEN?
    requires db.cases[k].disputeId == input.facts.disputeId && db.cases[k].held >= 0
    ensures var db' := PD.ResolveOpen(db, k, desired, input).value;
            SameCaseBut(db, db', k) && Closes(db, db', k, input, desired.WON?)
  {
    hide Collides, PD.DisputeRow, PD.MoveMoney, Text.Upper, Moves, Books;
    ResolveWritesRow(db, k, desired, input);
    ResolveMovesMoney(db, k, desired, input);
  }

  lemma SameLater(db: Database, between: Database, db': Database, k: nat, input: PD.Input, desired: DisputeStatus)
    requires LaterEffect(db, between, k, input, desired)
    requires db'.wallets == between.wallets && db'.ledger == between.ledger && db'.cases == between.cases
    ensures LaterEffect(db, db', k, input, desired)
  {
  }

  // ---------------------------------------------------------------- the deposit and the inbox

  ghost predicate SomeCase(cases: seq<PaymentDispute>, id: Id, status: DisputeStatus) {
    exists k :: 0 <= k < |cases| && cases[k].depositAttemptId == id && cases[k].status == status
  }

  /** A refund view is kept; otherwise the worst of the cases shows. */
  ghost predicate Shows(before: Status, after: Status, cases: seq<PaymentDispute>, id: Id) {
    if before.PARTIALLY_REFUNDED? || before.REFUNDED? then after == before
    else if SomeCase(cases, id, LOST) then after.CHARGEBACK?
    else if SomeCase(cases, id, OPEN) then after.DISPUTED?
    else after.SUCCEEDED?
  }

  ghost predicate Completes(db: Database, db': Database, input: PD.Input, now: int, id: Id, k: nat)
    requires input.eventId in db.events && id in db.attempts
  {
    && db'.events == db.events[input.eventId := db.events[input.eventId].(status := PROCESSED, processedAt := Some(now),
                                                                          lockedAt := None, depositAttemptId := Some(id),
                                                                          caseId := Some(k))]
    && db'.attempts.Keys == db.attempts.Keys
    && (forall a :: a in db.attempts && a != id ==> db'.attempts[a] == db.attempts[a])
    && db'.attempts[id] == db.attempts[id].(status := db'.attempts[id].status)
    && Shows(db.attempts[id].status, db'.attempts[id].status, db'.cases, id)
  }

  /** Every committed event ends its lease, names its deposit and its case, and shows the deposit as its cases are now. */
  lemma EventCompletes(db: Database, input: PD.Input, now: int, modeOk: bool, i: nat, id: Id)
    requires Valid(db) && PD.Transition(db, input, now, modeOk).Ok? && DisputedDeposit(db, input.facts, i, id)
    ensures input.eventId in db.events
    ensures var (db', o) := PD.Transition(db, input, now, modeOk).value;
            && o.caseId < |db'.cases| && db'.cases[o.caseId].disputeId == input.facts.disputeId
            && Completes(db, db', input, now, id, o.caseId)
            && db'.recoveries == db.recoveries && db'.evidence == db.evidence && db'.orders == db.orders
            && db'.reservations == db.reservations && db'.assignments == db.assignments && db'.orderEvents == db.orderEvents
  {
    FoundOnly(db, input.facts, i, id);
    hide Valid, PD.Transition, PD.Apply, PD.CompleteEvent, PD.FindLinkedDeposit, PD.TargetStatus, DP.Checked, DisputedDeposit, Completes;
    var d, desired, between, o := DT.TransitionReads(db, input, now, modeOk);
    CheckedDeposit(db, d, desired, input, now);
    assert input.eventId in db.events by { DP.CheckedFacts(db, d, desired, input); }
    BranchKeepsOthers(db, d, desired, input);
    CompletionShows(between, d.attemptId, o.caseId, input, now);
    var db' := PD.Transition(db, input, now, modeOk).value.0;
    SameTables(between, db, db', input, now, id, o.caseId);
  }

  lemma CompletionShows(between: Database, id: Id, k: nat, input: PD.Input, now: int)
    requires PD.CompleteEvent(between, id, k, input, now).Ok?
    ensures id in between.attempts && input.eventId in between.events
    ensures var db' := PD.CompleteEvent(between, id, k, input, now).value;
            Completes(between, db', input, now, id, k) && db' == between.(attempts := db'.attempts, events := db'.events)
  {
  }

  lemma SameTables(between: Database, db: Database, db': Database, input: PD.Input, now: int, id: Id, k: nat)
    requires input.eventId in between.events && id in between.attempts && Completes(between, db', input, now, id, k)
    requires db.events == between.events && db.attempts == between.attempts
    ensures Completes(db, db', input, now, id, k)
  {
  }

  ghost predicate OthersKept(db: Database, db': Database) {
    && db'.events == db.events && db'.attempts == db.attempts && db'.recoveries == db.recoveries
    && db'.evidence == db.evidence && db'.orders == db.orders && db'.reservations == db.reservations
    && db'.assignments == db.assignments && db'.orderEvents == db.orderEvents
  }

  lemma ResolveKeepsOthers(db: Database, k: nat, desired: DisputeStatus, input: PD.Input)
    requires k < |db.cases| && PD.ResolveOpen(db, k, desired, input).Ok?
    ensures var db' := PD.ResolveOpen(db, k, desired, input).value;
            OthersKept(db, db') && k < |db'.cases| && db'.cases[k].disputeId == db.cases[k].disputeId
  {
    hide Collides, PD.DisputeRow, PD.MoveMoney, Text.Upper;
  }

  lemma NothingElse(db: Database)
    ensures OthersKept(db, db)
  {
  }

  lemma AttachKeepsOthers(db: Database, k: nat, eventId: Id)
    requires k < |db.cases|
    ensures var db' := PD.AttachOpening(db, k, eventId);
            OthersKept(db, db') && |db'.cases| == |db.cases| && db'.cases[k].disputeId == db.cases[k].disputeId
  {
    var c := db.cases[k];
    CaseReplacedOnly(db, k, c.(openedBy := Some(eventId), version := c.version + 1));
    NothingElse(db);
    hide OthersKept;
  }

  lemma CaseReplacedOnly(db: Database, k: nat, c: PaymentDispute)
    requires k < |db.cases| && c.disputeId == db.cases[k].disputeId
    ensures var db' := db.(cases := db.cases[k := c]);
            OthersKept(db, db') && |db'.cases| == |db.cases| && db'.cases[k].disputeId == db.cases[k].disputeId
  {
  }

  lemma BookKeepsOthers(db: Database, d: PD.LinkedDeposit, desired: DisputeStatus, input: PD.Input)
    requires d.row < |db.ledger| && PD.BookCase(db, d, desired, input).Ok?
    ensures var db' := PD.BookCase(db, d, desired, input).value;
            && OthersKept(db, db') && |db'.cases| == |db.cases| + 1
            && db'.cases[|db.cases|].disputeId == input.facts.disputeId
  {
    DP.BookWrites(db, d, desired, input);
    hide PD.BookCase, CaseSum, WalletOf, PD.HeldFor, PD.DisputeRow;
  }

  lemma BranchKeepsOthers(db: Database, d: PD.LinkedDeposit, desired: DisputeStatus, input: PD.Input)
    requires d.row < |db.ledger| && PD.Apply(db, d, desired, input).Ok?
    ensures var (db', o) := PD.Apply(db, d, desired, input).value;
            OthersKept(db, db') && o.caseId < |db'.cases| && db'.cases[o.caseId].disputeId == input.facts.disputeId
  {
    hide PD.BookCase, PD.ResolveOpen, PD.CaseExact, PD.FindCase, PD.AttachOpening, PD.NewCase, OthersKept;
    NothingElse(db);
    match PD.FindCase(db.cases, input.facts.disputeId)
    case None => BookKeepsOthers(db, d, desired, input);
    case Some(k) =>
      AttachKeepsOthers(db, k, input.eventId);
      if !desired.OPEN? && db.cases[k].status.OPEN? {
        ResolveKeepsOthers(db, k, desired, input);
      }
  }
}
