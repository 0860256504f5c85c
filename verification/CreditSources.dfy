/** Two evidence sources of one deposit: the signed webhook and the authenticated retrieval. */
module CreditSources {
  import opened Outcomes
  import opened WalletState
  import opened DC = DepositCredit
  import opened DepositCreditProof

  /** One call of the finalizer commits exactly this. */
  ghost predicate Commits(db: Database, a: Authority, f: CreditFacts, now: int, db': Database, o: Outcome) {
    Finalize(db, a, f, now, true) == Ok((db', o))
  }

  /** The writes of a crediting call, up to and including the completion of its authority. */
  ghost predicate CreditedUnder(db: Database, a: Authority, f: CreditFacts, now: int, id: Id, db': Database) {
    id in db.attempts && CompleteAuthority(Credited(db, id, f), a, id, now) == Ok(db')
  }

  /** The conditions under which a call for `id` commits without crediting again. */
  lemma ReplayCommits(db: Database, a: Authority, f: CreditFacts, now: int, id: Id, row: nat, db': Database)
    requires CheckProviderFacts(f).Ok? && CheckAuthority(db, a, f).Ok? && FindExactAttempt(db, f) == Ok(id)
    requires a.ByRecovery? ==> a.recoveryId in db.recoveries && db.recoveries[a.recoveryId].depositAttemptId == id
    requires id in db.attempts && db.attempts[id].walletId in db.wallets
    requires db.wallets[db.attempts[id].walletId].currency == USD
    requires ExactLedgerReplay(db, db.attempts[id], f) == Ok(Some(row)) && CompleteAuthority(db, a, id, now) == Ok(db')
    ensures Commits(db, a, f, now, db', Outcome(id, db.attempts[id].walletId, row, false))
  {
    hide CheckProviderFacts, CheckAuthority, FindExactAttempt, ExactLedgerReplay, CompleteAuthority;
  }

  /** What a crediting call has established, and the row it commits. */
  lemma CreditReads(db: Database, a: Authority, f: CreditFacts, now: int, db': Database, o: Outcome)
    requires Commits(db, a, f, now, db', o) && o.credited
    ensures CheckProviderFacts(f).Ok? && CheckAuthority(db, a, f).Ok? && FindExactAttempt(db, f) == Ok(o.depositAttemptId)
    ensures a.ByRecovery? ==> a.recoveryId in db.recoveries
                              && db.recoveries[a.recoveryId].depositAttemptId == o.depositAttemptId
    ensures Admitted(db, f, o.depositAttemptId) && db.wallets[db.attempts[o.depositAttemptId].walletId].currency == USD
    ensures o == Outcome(o.depositAttemptId, db.attempts[o.depositAttemptId].walletId, |db.ledger|, true)
    ensures CreditedUnder(db, a, f, now, o.depositAttemptId, db')
  {
    hide CompleteAuthority, AttemptExact, RetrievalFactsAgree, Required;
  }

  /** The other source still holds its authority after the first has credited the deposit. */
  lemma AuthorityUntouched(db: Database, s: Database, a: Authority, f: CreditFacts, n: int, b: Authority,
                           g: CreditFacts, m: int, id: Id)
    requires a.WebhookEvent? != b.WebhookEvent? && id in db.attempts
    requires CompleteAuthority(Credited(db, id, f), a, id, n) == Ok(s)
    requires CheckAuthority(db, b, g).Ok? && CompleteAuthority(Credited(db, id, g), b, id, m).Ok?
    ensures CheckAuthority(s, b, g).Ok? && CompleteAuthority(s, b, id, m).Ok?
    ensures s.attempts == Credited(db, id, f).attempts && s.ledger == Credited(db, id, f).ledger
    ensures s.wallets == Credited(db, id, f).wallets
    ensures b.ByRecovery? ==> s.recoveries == db.recoveries
  {
  }

  lemma CreditedAttemptExact(db: Database, s: Database, id: Id, f: CreditFacts, g: CreditFacts)
    requires Admitted(db, f, id) && Admitted(db, g, id) && f.paymentId == g.paymentId
    requires FindExactAttempt(db, g) == Ok(id)
    requires f.chargeId.None? || (g.source.SIGNED_WEBHOOK? && g.chargeId.None?)
    requires s.attempts == Credited(db, id, f).attempts
    ensures FindExactAttempt(s, g) == Ok(id)
  {
    assert Candidates(s, g) == Candidates(db, g);
  }

  lemma CreditedRowReplays(db: Database, s: Database, id: Id, f: CreditFacts, g: CreditFacts)
    requires Admitted(db, f, id) && Admitted(db, g, id) && f.paymentId == g.paymentId
    requires s.ledger == Credited(db, id, f).ledger && s.attempts == Credited(db, id, f).attempts
    ensures ExactLedgerReplay(s, s.attempts[id], g) == Ok(Some(|db.ledger|))
  {
    forall i: nat ensures i in Replays(s.ledger, g) <==> i == |db.ledger| {
      if i < |db.ledger| {
        assert i !in Replays(db.ledger, g);
      }
    }
    assert Replays(s.ledger, g) == {|db.ledger|};
  }

  /** The source that comes second commits a replay of the first one's row. */
  lemma SecondSourceReplays(db: Database, a: Authority, f: CreditFacts, n: int, s: Database, o: Outcome,
                            b: Authority, g: CreditFacts, m: int, t: Database, p: Outcome) returns (s': Database)
    requires Commits(db, a, f, n, s, o) && Commits(db, b, g, m, t, p) && o.credited && p.credited
    requires o.depositAttemptId == p.depositAttemptId && f.paymentId == g.paymentId
    requires a.WebhookEvent? != b.WebhookEvent?
    requires f.chargeId.None? || (g.source.SIGNED_WEBHOOK? && g.chargeId.None?)
    ensures Commits(s, b, g, m, s', o.(credited := false))
    ensures CreditedUnder(db, a, f, n, o.depositAttemptId, s)
    ensures CompleteAuthority(s, b, o.depositAttemptId, m) == Ok(s')
  {
    hide Commits, CheckProviderFacts, AttemptExact, Replays, Candidates, FindExactAttempt, ExactLedgerReplay;
    var id := o.depositAttemptId;
    CreditReads(db, a, f, n, s, o);
    CreditReads(db, b, g, m, t, p);
    AuthorityUntouched(db, s, a, f, n, b, g, m, id);
    CreditedAttemptExact(db, s, id, f, g);
    CreditedRowReplays(db, s, id, f, g);
    hide CheckAuthority, CompleteAuthority;
    s' := CompleteAuthority(s, b, id, m).value;
    ReplayCommits(s, b, g, m, id, |db.ledger|, s');
  }

  /**
   The webhook and the retrieval may both hold valid evidence of one uncredited deposit. In
   either order the first credits, the second replays the same row, and the final states are
   the same but for the charge id, which only the retrieval knows.
   */
  lemma EvidenceSourcesCommute(db: Database, a: Authority, f: CreditFacts, n: int, w: Database, o: Outcome,
                               b: Authority, g: CreditFacts, m: int, r: Database, p: Outcome)
    returns (wr: Database, rw: Database)
    requires a.WebhookEvent? && b.ByRecovery? && f.source.SIGNED_WEBHOOK? && f.chargeId.None?
    requires Commits(db, a, f, n, w, o) && Commits(db, b, g, m, r, p) && o.credited && p.credited
    requires o.depositAttemptId == p.depositAttemptId && f.paymentId == g.paymentId
    ensures Commits(w, b, g, m, wr, o.(credited := false)) && Commits(r, a, f, n, rw, o.(credited := false))
    ensures o.depositAttemptId in rw.attempts
    ensures wr == rw.(attempts := rw.attempts[
                        o.depositAttemptId := rw.attempts[o.depositAttemptId].(providerChargeId := None)])
  {
    wr := SecondSourceReplays(db, a, f, n, w, o, b, g, m, r, p);
    rw := SecondSourceReplays(db, b, g, m, r, p, a, f, n, w, o);
    CreditReads(db, a, f, n, w, o);
    CreditReads(db, b, g, m, r, p);
    hide Commits, CheckProviderFacts, CheckAuthority, AttemptExact, Replays, Candidates, FindExactAttempt;
    BothOrdersMeet(db, a, f, n, w, wr, b, g, m, r, rw, o.depositAttemptId);
  }

  lemma BothOrdersMeet(db: Database, a: Authority, f: CreditFacts, n: int, w: Database, wr: Database,
                       b: Authority, g: CreditFacts, m: int, r: Database, rw: Database, id: Id)
    requires a.WebhookEvent? && b.ByRecovery? && id in db.attempts && f.chargeId.None?
    requires f.paymentId == g.paymentId && f.sessionId == g.sessionId && f.checkoutAmount == g.checkoutAmount
    requires CreditedUnder(db, a, f, n, id, w) && CompleteAuthority(w, b, id, m) == Ok(wr)
    requires CreditedUnder(db, b, g, m, id, r) && CompleteAuthority(r, a, id, n) == Ok(rw)
    ensures id in rw.attempts
    ensures wr == rw.(attempts := rw.attempts[id := rw.attempts[id].(providerChargeId := None)])
  {
    hide CompleteAuthority;
    WebhookWritesEvents(Credited(db, id, f), Credited(db, id, f), a, id, n, w, w);
    RetrievalWritesRecoveries(Credited(db, id, g), Credited(db, id, g), b, id, m, r, r);
    WebhookWritesEvents(Credited(db, id, f), r, a, id, n, w, rw);
    RetrievalWritesRecoveries(w, Credited(db, id, g), b, id, m, wr, r);
  }

  /** Completing a webhook reads and writes the inbox alone. */
  lemma WebhookWritesEvents(s: Database, t: Database, a: Authority, id: Id, n: int, s': Database, t': Database)
    requires a.WebhookEvent? && s.events == t.events
    requires CompleteAuthority(s, a, id, n) == Ok(s') && CompleteAuthority(t, a, id, n) == Ok(t')
    ensures s' == s.(events := s'.events) && t' == t.(events := s'.events)
  {
  }

  /** Completing a retrieval reads and writes the recovery queue alone. */
  lemma RetrievalWritesRecoveries(s: Database, t: Database, b: Authority, id: Id, n: int, s': Database, t': Database)
    requires b.ByRecovery? && s.recoveries == t.recoveries
    requires CompleteAuthority(s, b, id, n) == Ok(s') && CompleteAuthority(t, b, id, n) == Ok(t')
    ensures s' == s.(recoveries := s'.recoveries) && t' == t.(recoveries := s'.recoveries)
  {
  }
}
