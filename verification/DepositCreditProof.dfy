/** The credit transition keeps every invariant and credits an attempt at most once. */
module DepositCreditProof {
  import opened Outcomes
  import opened DepositStatus
  import opened WalletState
  import opened WalletInvariant
  import opened DepositCredit
  import PD = PaymentDisputes

  /** What a successful run of the finalizer has established before it writes. */
  ghost predicate Admitted(db: Database, f: CreditFacts, id: Id) {
    && id in db.attempts
    && AttemptExact(id, db.attempts[id], f)
    && f.checkoutAmount > 0
    && db.attempts[id].walletId in db.wallets
    && Replays(db.ledger, f) == {}
    && CreditablePreCredit(db.attempts[id].status)
    && db.attempts[id].ledgerTransactionId.None?
  }

  lemma CreditedKeepsMoney(db: Database, f: CreditFacts, id: Id)
    requires Valid(db) && Admitted(db, f, id)
    ensures MoneyValid(Credited(db, id, f))
  {
    var db' := Credited(db, id, f);
    var row := DepositRow(db.attempts[id], id, f);
    forall w: Id ensures BalancedIn(db', w) {
      assert BalancedIn(db, w);
      LedgerSumAppend(BalanceRows(w), db.ledger, row);
      LedgerSumAppend(ChargebackRows(w), db.ledger, row);
      LedgerSumAppend(DisputeHoldRows(w), db.ledger, row);
    }
  }

  lemma CreditedKeepsLedger(db: Database, f: CreditFacts, id: Id)
    requires Valid(db) && Admitted(db, f, id)
    ensures var db' := Credited(db, id, f);
            && RowsDistinct(db'.ledger) && DisputeRowsOwned(db'.ledger, db'.cases)
            && DepositsOwned(db'.ledger, db'.attempts) && AttemptsLinked(db'.attempts, db'.ledger)
  {
    var db' := Credited(db, id, f);
    forall i | 0 <= i < |db.ledger| ensures RowsDiffer(db.ledger[i], db'.ledger[|db.ledger|]) {
      assert i !in Replays(db.ledger, f);
      assert db.ledger[i].providerRef.Some? ==> DepositOwned(db.ledger[i], i, db.attempts);
    }
    forall i | 0 <= i < |db.ledger| && db.ledger[i].providerRef.Some? ensures DepositOwned(db'.ledger[i], i, db'.attempts) {
      assert DepositOwned(db.ledger[i], i, db.attempts);
    }
    forall a | a in db'.attempts ensures AttemptLinked(a, db'.attempts[a], db'.ledger) {
      assert AttemptLinked(a, db.attempts[a], db.ledger);
    }
  }

  /** No case can exist before its deposit does. */
  lemma {:induction false} NothingDisputed(cases: seq<PaymentDispute>, d: nat)
    requires forall k :: 0 <= k < |cases| ==> cases[k].depositTransactionId != d
    ensures CaseSum(DisputedOf(d), cases) == 0
  {
    if cases != [] {
      NothingDisputed(cases[..|cases| - 1], d);
    }
  }

  /** The cases of other attempts look at nothing that the credit of this one changes. */
  lemma CreditedKeepsCaseLink(db: Database, f: CreditFacts, id: Id, c: PaymentDispute)
    requires CaseLinked(c, db.ledger, db.attempts) && AttemptsLinked(db.attempts, db.ledger)
    requires id in db.attempts && db.attempts[id].ledgerTransactionId.None?
    ensures CaseLinked(c, Credited(db, id, f).ledger, Credited(db, id, f).attempts)
    ensures c.depositAttemptId != id && c.depositTransactionId < |db.ledger|
  {
    assert AttemptLinked(c.depositAttemptId, db.attempts[c.depositAttemptId], db.ledger);
  }

  lemma CreditedKeepsCases(db: Database, f: CreditFacts, id: Id)
    requires Valid(db) && Admitted(db, f, id)
    ensures var db' := Credited(db, id, f);
            && CasesValid(db'.cases, db'.ledger, db'.attempts) && DisputesBounded(db'.cases, db'.ledger)
            && Projected(db'.attempts, db'.cases, None)
  {
    hide MoneyValid, AmountsValid, RowsDistinct, DepositsOwned, DisputeRowsOwned, SessionsDistinct, EventsValid, EvidenceValid,
      CreditedWalletsExist, CaseShape, AttemptExact, Replays, CaseLinked, AttemptsLinked, Projected;
    forall k | 0 <= k < |db.cases|
      ensures CaseLinked(db.cases[k], Credited(db, id, f).ledger, Credited(db, id, f).attempts)
      ensures db.cases[k].depositAttemptId != id && db.cases[k].depositTransactionId < |db.ledger|
    {
      CreditedKeepsCaseLink(db, f, id, db.cases[k]);
    }
    NothingDisputed(db.cases, |db.ledger|);
    CreditedKeepsProjection(db, f, id);
  }

  /** An attempt without cases is projected as succeeded, and the others keep their view. */
  lemma CreditedKeepsProjection(db: Database, f: CreditFacts, id: Id)
    requires id in db.attempts && Projected(db.attempts, db.cases, None)
    requires forall k :: 0 <= k < |db.cases| ==> db.cases[k].depositAttemptId != id
    ensures Projected(Credited(db, id, f).attempts, db.cases, None)
  {
  }

  /** Crediting an attempt only adds to what events may point at. */
  lemma CreditedKeepsEvents(db: Database, f: CreditFacts, id: Id)
    requires EventsValid(db.events, db.cases, db.attempts) && id in db.attempts
    ensures EventsValid(db.events, db.cases, Credited(db, id, f).attempts)
  {
    forall e | e in db.events ensures EventLinked(db.events[e], db.cases, Credited(db, id, f).attempts) {
      assert EventLinked(db.events[e], db.cases, db.attempts);
    }
  }

  lemma CreditedKeepsValid(db: Database, f: CreditFacts, id: Id)
    requires Valid(db) && Admitted(db, f, id)
    ensures Valid(Credited(db, id, f))
  {
    CreditedKeepsMoney(db, f, id);
    CreditedKeepsLedger(db, f, id);
    CreditedKeepsCases(db, f, id);
    CreditedKeepsEvents(db, f, id);
  }

  /** An inbox row may be replaced by one that still links correctly and keeps being the evidence it was. */
  lemma EventChangeKeepsValid(db: Database, id: Id, e: ProviderEvent)
    requires Valid(db) && EventLinked(e, db.cases, db.attempts)
    requires id in db.events ==> db.events[id].caseId.Some? ==>
               e.caseId == db.events[id].caseId && e.eventType == db.events[id].eventType
    ensures Valid(db.(events := db.events[id := e]))
  {
    var db' := db.(events := db.events[id := e]);
    forall k | 0 <= k < |db'.cases| ensures CaseEvidence(db'.cases[k], k, db'.events, None) {
      assert CaseEvidence(db.cases[k], k, db.events, None);
    }
    OtherTablesKeepMoney(db, db');
  }

  /** Completing an authority changes only its own inbox or recovery row. */
  lemma CompleteAuthorityKeepsValid(db: Database, authority: Authority, id: Id, now: int)
    requires Valid(db) && id in db.attempts && CreditBacked(db.attempts[id].status)
    requires CompleteAuthority(db, authority, id, now).Ok?
    ensures Valid(CompleteAuthority(db, authority, id, now).value)
  {
    var db' := CompleteAuthority(db, authority, id, now).value;
    if authority.ByRecovery? {
      OtherTablesKeepMoney(db, db');
    } else if authority.lease.Leased? {
      assert EventLinked(db.events[authority.eventId], db.cases, db.attempts);
      EventChangeKeepsValid(db, authority.eventId, db'.events[authority.eventId]);
      assert db' == db.(events := db.events[authority.eventId := db'.events[authority.eventId]]);
    }
  }

  lemma FoundAttempt(db: Database, f: CreditFacts)
    ensures FindExactAttempt(db, f).Ok? ==>
              var id := FindExactAttempt(db, f).value; id in db.attempts && AttemptExact(id, db.attempts[id], f)
    ensures CheckProviderFacts(f).Ok? ==> f.checkoutAmount > 0
  {
    hide AttemptExact, Required, RetrievalFactsAgree;
    if Candidates(db, f) == {f.metadataAttemptId} {
      assert f.metadataAttemptId in Candidates(db, f);
    }
  }

  lemma FoundReplay(db: Database, a: DepositAttempt, f: CreditFacts)
    ensures ExactLedgerReplay(db, a, f) == Ok(None) ==> Replays(db.ledger, f) == {}
    ensures ExactLedgerReplay(db, a, f).Ok? && ExactLedgerReplay(db, a, f).value.Some? ==>
              a.ledgerTransactionId == ExactLedgerReplay(db, a, f).value && CreditBacked(a.status)
  {
  }

  /** Everything a successful call tells about the attempt it names. */
  lemma FinalizeReads(db: Database, authority: Authority, f: CreditFacts, now: int, modeOk: bool)
    returns (o: Outcome, before: Database)
    requires Finalize(db, authority, f, now, modeOk).Ok?
    ensures o == Finalize(db, authority, f, now, modeOk).value.1
    ensures o.depositAttemptId in db.attempts && o.walletId == db.attempts[o.depositAttemptId].walletId
    ensures o.credited ==> Admitted(db, f, o.depositAttemptId) && o.ledgerTransactionId == |db.ledger|
                           && before == Credited(db, o.depositAttemptId, f)
    ensures !o.credited ==> db.attempts[o.depositAttemptId].ledgerTransactionId == Some(o.ledgerTransactionId)
                            && CreditBacked(db.attempts[o.depositAttemptId].status) && before == db
    ensures CompleteAuthority(before, authority, o.depositAttemptId, now)
         == Ok(Finalize(db, authority, f, now, modeOk).value.0)
  {
    hide CheckProviderFacts, CheckAuthority, FindExactAttempt, AttemptExact, ExactLedgerReplay, Replays, Credited, CompleteAuthority,
      CreditBacked, CreditablePreCredit;
    FoundAttempt(db, f);
    FoundReplay(db, db.attempts[FindExactAttempt(db, f).value], f);
    o := Finalize(db, authority, f, now, modeOk).value.1;
    before := if o.credited then Credited(db, o.depositAttemptId, f) else db;
  }

  lemma FinalizeKeepsValid(db: Database, authority: Authority, f: CreditFacts, now: int, modeOk: bool)
    requires Valid(db)
    requires Finalize(db, authority, f, now, modeOk).Ok?
    ensures Valid(Finalize(db, authority, f, now, modeOk).value.0)
  {
    var o, before := FinalizeReads(db, authority, f, now, modeOk);
    hide Finalize;
    if o.credited {
      CreditedKeepsValid(db, f, o.depositAttemptId);
    }
    CompleteAuthorityKeepsValid(before, authority, o.depositAttemptId, now);
  }
}
