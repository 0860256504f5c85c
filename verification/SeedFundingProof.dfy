/** Seed funding keeps every invariant of the finance tables and is never refused for lack of parity. */
module SeedFundingProof {
  import opened Outcomes
  import opened WalletState
  import opened WalletInvariant
  import opened SeedFunding
  import PD = PaymentDisputes
  import DP = PaymentDisputeProof
  import DepositCreditProof

  lemma OpenedKeepsValid(db: Database, walletId: Id, organizationId: Id, userId: Id)
    requires Valid(db)
    ensures Valid(Opened(db, walletId, organizationId, userId))
  {
    var db' := Opened(db, walletId, organizationId, userId);
    hide AmountsValid, RowsDistinct, DepositsOwned, AttemptsLinked, DisputeRowsOwned, SessionsDistinct, DisputesBounded,
      EventsValid, EvidenceValid, CasesValid, Projected, LedgerSum, CaseSum, ReservationSum;
    forall w: Id ensures BalancedIn(db', w) {
      assert BalancedIn(db, w);
    }
    MoreWallets(db.attempts, db.wallets, db'.wallets);
  }

  lemma FundedKeepsMoney(db: Database, walletId: Id)
    requires MoneyValid(db) && walletId in db.wallets
    ensures MoneyValid(Funded(db, walletId))
  {
    hide LedgerSum, CaseSum, ReservationSum;
    var db' := Funded(db, walletId);
    forall w: Id ensures BalancedIn(db', w) {
      assert BalancedIn(db, w);
      LedgerSumsAppend(w, db.ledger, NewRow(walletId));
    }
  }

  lemma FundedKeepsRows(db: Database, walletId: Id)
    requires Base(db) && !Collides(db.ledger, NewRow(walletId))
    ensures var ledger := db.ledger + [NewRow(walletId)];
            && RowsDistinct(ledger) && DepositsOwned(ledger, db.attempts) && AttemptsLinked(db.attempts, ledger)
            && CasesValid(db.cases, ledger, db.attempts) && DisputesBounded(db.cases, ledger)
            && DisputeRowsOwned(ledger, db.cases)
  {
    // Nothing but the bound of disputes looks at whether a row is a deposit.
    DP.AppendKeepsRows(db, NewRow(walletId).(kind := REFUND));
    var ledger := db.ledger + [NewRow(walletId)];
    var other := db.ledger + [NewRow(walletId).(kind := REFUND)];
    forall i | 0 <= i < |ledger| ensures ledger[i].(kind := REFUND) == other[i].(kind := REFUND) {}
    forall i, j | 0 <= i < j < |ledger| ensures RowsDiffer(ledger[i], ledger[j]) {
      assert RowsDiffer(other[i], other[j]);
    }
    forall id | id in db.attempts ensures AttemptLinked(id, db.attempts[id], ledger) {
      assert AttemptLinked(id, db.attempts[id], db.ledger);
    }
    forall k | 0 <= k < |db.cases|
      ensures CaseLinked(db.cases[k], ledger, db.attempts) && db.cases[k].depositTransactionId != |db.ledger|
    {
      assert CaseLinked(db.cases[k], db.ledger, db.attempts);
      assert AttemptLinked(db.cases[k].depositAttemptId, db.attempts[db.cases[k].depositAttemptId], db.ledger);
    }
    DepositCreditProof.NothingDisputed(db.cases, |db.ledger|);
  }

  lemma FundedKeepsValid(db: Database, walletId: Id)
    requires Valid(db) && walletId in db.wallets && !Collides(db.ledger, NewRow(walletId))
    ensures Valid(Funded(db, walletId))
  {
    hide MoneyValid, AmountsValid, RowsDistinct, DepositsOwned, AttemptsLinked, DisputeRowsOwned, SessionsDistinct,
      DisputesBounded, EventsValid, EvidenceValid, Projected, CasesValid, CreditedWalletsExist, Collides;
    FundedKeepsMoney(db, walletId);
    FundedKeepsRows(db, walletId);
    MoreWallets(db.attempts, db.wallets, Funded(db, walletId).wallets);
  }

  lemma FundingKeepsValid(db: Database, walletId: Id, organizationId: Id, userId: Id)
    requires Valid(db) && EnsureFunding(db, walletId, organizationId, userId).Ok?
    ensures Valid(EnsureFunding(db, walletId, organizationId, userId).value.0)
  {
    hide Valid, Collides, ExactEvidence, WalletLedgerParity, SeedRow, Funded;
    OpenedKeepsValid(db, walletId, organizationId, userId);
    if EnsureFunding(db, walletId, organizationId, userId).value.1 {
      FundedKeepsValid(Opened(db, walletId, organizationId, userId), walletId);
    }
  }

  /** The one row that seed money may have come from: the exact deposit of this wallet, which nothing refers to. */
  ghost predicate IsSeed(db: Database, i: nat, walletId: Id) {
    && i < |db.ledger|
    && var row := db.ledger[i];
    && row.walletId == walletId && row.amount == 500000 && row.currency == "USD" && row.kind.DEPOSIT?
    && row.reference == TextReference("seed-initial-funding") && row.description.SeedInitialFunding?
    && row.provider.None? && row.providerRef.None? && row.depositAttempt.None?
    && forall k :: 0 <= k < |db.cases| ==>
         db.cases[k].depositTransactionId != i && db.cases[k].holdTransactionId != Some(i)
         && db.cases[k].resolutionTransactionId != Some(i)
  }

  ghost predicate NeverSeeded(db: Database) {
    forall i :: 0 <= i < |db.ledger| ==> db.ledger[i].reference != TextReference("seed-initial-funding")
  }

  /**
   From a valid state funding is admitted exactly for the wallet of this organisation and user, in USD, when
   there is no seed row yet or it is the exact one of this wallet; and money is created only in the first case.
   */
  lemma FundsExactly(db: Database, walletId: Id, organizationId: Id, userId: Id)
    requires Valid(db)
    ensures var r := EnsureFunding(db, walletId, organizationId, userId);
            && (r.Ok? <==>
                  && (walletId in db.wallets ==>
                        && db.wallets[walletId].organizationId == Some(organizationId)
                        && db.wallets[walletId].userId == Some(userId) && db.wallets[walletId].currency == "USD")
                  && (NeverSeeded(db) || exists i :: IsSeed(db, i, walletId)))
            && (r.Ok? ==> (r.value.1 <==> NeverSeeded(db)))
  {
    FundingNeverRefused(db, walletId, organizationId, userId);
    SeedFound(db, walletId);
    hide Valid, WalletLedgerParity, SeedRow, Collides, IsSeed, ExactEvidence, NeverSeeded, Funded, NewRow;
  }

  /** What funding writes: the wallet if there was none, and with new money its one row and increment. */
  ghost predicate Seeds(db: Database, db': Database, walletId: Id, organizationId: Id, userId: Id, created: bool) {
    var w := WalletOf(db, walletId);
    && db'.wallets == db.wallets[walletId := Wallet(w.available + (if created then 500000 else 0), w.reserved, "USD",
                                                    Some(organizationId), Some(userId), w.version + (if created then 1 else 0))]
    && (if created then |db'.ledger| == |db.ledger| + 1 && db'.ledger[..|db.ledger|] == db.ledger && IsSeed(db', |db.ledger|, walletId)
        else db'.ledger == db.ledger)
  }

  lemma FundingSeeds(db: Database, walletId: Id, organizationId: Id, userId: Id)
    requires Valid(db) && EnsureFunding(db, walletId, organizationId, userId).Ok?
    ensures var (db', created) := EnsureFunding(db, walletId, organizationId, userId).value;
            Seeds(db, db', walletId, organizationId, userId, created)
  {
    ReferencesExist(db);
    var ready := Opened(db, walletId, organizationId, userId);
    NewSeed(db, walletId, ready);
    assert EnsureFunding(db, walletId, organizationId, userId).value.1 ==>
             EnsureFunding(db, walletId, organizationId, userId).value.0 == Funded(ready, walletId);
    OpenedSeeds(db, walletId, organizationId, userId);
    hide Valid, WalletLedgerParity, SeedRow, Collides, IsSeed, ExactEvidence, Opened, Funded, Seeds, NewRow;
  }

  lemma OpenedSeeds(db: Database, walletId: Id, organizationId: Id, userId: Id)
    requires var w := Opened(db, walletId, organizationId, userId).wallets[walletId];
             w.organizationId == Some(organizationId) && w.userId == Some(userId) && w.currency == USD
    ensures var ready := Opened(db, walletId, organizationId, userId);
            && Seeds(db, ready, walletId, organizationId, userId, false)
            && (IsSeed(Funded(ready, walletId), |db.ledger|, walletId) ==>
                  Seeds(db, Funded(ready, walletId), walletId, organizationId, userId, true))
  {
    hide IsSeed, NewRow;
  }

  lemma ReferencesExist(db: Database)
    requires Valid(db)
    ensures forall k :: 0 <= k < |db.cases| ==>
              db.cases[k].depositTransactionId < |db.ledger| && db.cases[k].holdTransactionId != Some(|db.ledger|)
              && db.cases[k].resolutionTransactionId != Some(|db.ledger|)
  {
    forall k | 0 <= k < |db.cases|
      ensures db.cases[k].depositTransactionId < |db.ledger| && db.cases[k].holdTransactionId != Some(|db.ledger|)
              && db.cases[k].resolutionTransactionId != Some(|db.ledger|)
    {
      ValidCase(db, k);
      assert AttemptLinked(db.cases[k].depositAttemptId, db.attempts[db.cases[k].depositAttemptId], db.ledger);
    }
  }

  lemma SeedFound(db: Database, walletId: Id)
    requires Valid(db)
    ensures SeedRow(db.ledger).None? <==> NeverSeeded(db)
    ensures SeedRow(db.ledger).Some? ==>
              (ExactEvidence(db, SeedRow(db.ledger).value, walletId) <==> exists i :: IsSeed(db, i, walletId))
    ensures (exists i :: IsSeed(db, i, walletId)) ==> !NeverSeeded(db)
  {
    assert RowsDistinct(db.ledger) by { ValidParts(db); }
    hide Valid;
    if SeedRow(db.ledger).Some? {
      var j := SeedRow(db.ledger).value;
      assert ExactEvidence(db, j, walletId) <==> IsSeed(db, j, walletId);
      forall i: nat | IsSeed(db, i, walletId) ensures i == j {
        OneSeed(db.ledger, i, j);
      }
    }
  }

  lemma OneSeed(rows: seq<Transaction>, i: nat, j: nat)
    requires RowsDistinct(rows) && i < |rows| && j < |rows|
    requires rows[i].reference == rows[j].reference == SEED_REFERENCE
    ensures i == j
  {
  }

  lemma NewSeed(db: Database, walletId: Id, ready: Database)
    requires walletId in ready.wallets && ready == db.(wallets := ready.wallets)
    requires forall k :: 0 <= k < |db.cases| ==>
               db.cases[k].depositTransactionId < |db.ledger| && db.cases[k].holdTransactionId != Some(|db.ledger|)
               && db.cases[k].resolutionTransactionId != Some(|db.ledger|)
    ensures IsSeed(Funded(ready, walletId), |db.ledger|, walletId)
  {
  }

  /** From a valid state funding never finds a wallet out of parity, and never meets a unique index. */
  lemma FundingNeverRefused(db: Database, walletId: Id, organizationId: Id, userId: Id)
    requires Valid(db)
    ensures WalletLedgerParity(db, walletId)
    ensures EnsureFunding(db, walletId, organizationId, userId) != Err(PARITY_BROKEN)
    ensures EnsureFunding(db, walletId, organizationId, userId) != Err(UNIQUE_VIOLATION)
  {
    OpenedKeepsValid(db, walletId, organizationId, userId);
    hide LedgerSum, CaseSum, ReservationSum, ExactEvidence;
    assert BalancedIn(db, walletId);
    assert BalancedIn(Opened(db, walletId, organizationId, userId), walletId);
  }
}
