/** The development seed deposit: once for the whole ledger, and only into a wallet that agrees with its ledger. */
module SeedFunding {
  import opened Outcomes
  import opened WalletState

  const SEED_AMOUNT: int := 500000
  const SEED_REFERENCE: Reference := TextReference("seed-initial-funding")

  datatype Fault = WALLET_IDENTITY | EVIDENCE_CONFLICT | PARITY_BROKEN | UNIQUE_VIOLATION

  /** Available and reserved money together are the sum of the ledger rows that are not reservations. */
  predicate WalletLedgerParity(db: Database, walletId: Id) {
    WalletOf(db, walletId).available + WalletOf(db, walletId).reserved == LedgerSum(BalanceRows(walletId), db.ledger)
  }

  /** The row that carries the seed reference, if there is one. */
  function SeedRow(ledger: seq<Transaction>): (r: Option<nat>)
    ensures r.Some? ==> r.value < |ledger| && ledger[r.value].reference == SEED_REFERENCE
    ensures r.None? <==> !ReferenceTaken(ledger, SEED_REFERENCE)
  {
    if ledger == [] then None
    else
      var n := |ledger| - 1;
      var r := SeedRow(ledger[..n]);
      if r.Some? then r else if ledger[n].reference == SEED_REFERENCE then Some(n) else None
  }

  function NewRow(walletId: Id): Transaction {
    Transaction(walletId, SEED_AMOUNT, USD, DEPOSIT, SEED_REFERENCE, None, None, None, SeedInitialFunding)
  }

  /** The exact synthetic deposit of this wallet, which no attempt and no dispute refers to. */
  predicate ExactEvidence(db: Database, i: nat, walletId: Id)
    requires i < |db.ledger|
  {
    && db.ledger[i] == NewRow(walletId)
    && forall k :: 0 <= k < |db.cases| ==>
         db.cases[k].holdTransactionId != Some(i) && db.cases[k].resolutionTransactionId != Some(i)
         && db.cases[k].depositTransactionId != i
  }

  /** Opens the wallet of the organisation if there is none. */
  function Opened(db: Database, walletId: Id, organizationId: Id, userId: Id): (r: Database)
    ensures walletId in r.wallets && r == db.(wallets := r.wallets)
  {
    if walletId in db.wallets then db
    else db.(wallets := db.wallets[walletId := Wallet(0, 0, USD, Some(organizationId), Some(userId), 0)])
  }

  function Funded(db: Database, walletId: Id): Database
    requires walletId in db.wallets
  {
    var w := db.wallets[walletId];
    db.(ledger := db.ledger + [NewRow(walletId)],
        wallets := db.wallets[walletId := w.(available := w.available + SEED_AMOUNT, version := w.version + 1)])
  }

  /** `walletId` is the wallet of the organisation, or the id that a new one gets. The flag tells whether money was created. */
  function EnsureFunding(db: Database, walletId: Id, organizationId: Id, userId: Id): Result<(Database, bool), Fault> {
    var ready := Opened(db, walletId, organizationId, userId);
    var w := ready.wallets[walletId];
    if w.organizationId != Some(organizationId) || w.userId != Some(userId) || w.currency != USD then Err(WALLET_IDENTITY)
    else
      var existing := SeedRow(db.ledger);
      if existing.Some? && !ExactEvidence(db, existing.value, walletId) then Err(EVIDENCE_CONFLICT)
      else if !WalletLedgerParity(ready, walletId) then Err(PARITY_BROKEN)
      else if existing.Some? then Ok((ready, false))
      else if Collides(db.ledger, NewRow(walletId)) then Err(UNIQUE_VIOLATION)
      else Ok((Funded(ready, walletId), true))
  }

  /** After a successful call the ledger carries the seed reference. */
  lemma SeededRow(db: Database, walletId: Id, organizationId: Id, userId: Id)
    requires EnsureFunding(db, walletId, organizationId, userId).Ok?
    ensures ReferenceTaken(EnsureFunding(db, walletId, organizationId, userId).value.0.ledger, SEED_REFERENCE)
  {
    hide ExactEvidence, WalletLedgerParity, Collides;
    var db' := EnsureFunding(db, walletId, organizationId, userId).value.0;
    if EnsureFunding(db, walletId, organizationId, userId).value.1 {
      assert db'.ledger[|db.ledger|].reference == SEED_REFERENCE;
    }
  }

  /** Funding writes wallets, and at most one ledger row. */
  lemma FundingWrites(db: Database, walletId: Id, organizationId: Id, userId: Id)
    requires EnsureFunding(db, walletId, organizationId, userId).Ok?
    ensures var db' := EnsureFunding(db, walletId, organizationId, userId).value.0;
            && db' == db.(wallets := db'.wallets, ledger := db'.ledger)
            && (db'.ledger == db.ledger || db'.ledger == db.ledger + [NewRow(walletId)])
  {
    hide ExactEvidence, WalletLedgerParity, Collides, SeedRow;
  }
}
