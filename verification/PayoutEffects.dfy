/**
 When a payout is completed, when an earlier completion is recognised, and what a completion writes,
 all in terms of the evidence and the columns of the rows.
 */
module PayoutEffects {
  import opened Outcomes
  import opened PayoutState
  import opened PayoutInvariant
  import opened PF = PayoutFinalization
  import PayoutProof
  import Decimals
  import Text

  const FIVE_MINUTES: int := 300000

  // ---------------------------------------------------------------- the evidence

  /** Only the current claimant of a webhook may speak for it. */
  ghost predicate LeaseHeld(db: Payouts, evidence: Evidence) {
    match evidence
    case Webhook(id, attempt, lockedAt) =>
      && id in db.webhooks && attempt > 0 && lockedAt.Some?
      && db.webhooks[id].status.PROCESSING? && db.webhooks[id].attempts == attempt && db.webhooks[id].lockedAt == lockedAt
    case _ => true
  }

  /** What names the payment: the provider's id, or the reference of the bank in capitals and single spaces. */
  ghost function NamedBy(input: Input): string {
    match input.evidence
    case ManualBank(_, _, _, _) => Text.Upper(Text.CollapseSpaces(Text.Trim(input.providerReference)))
    case _ => Text.Trim(input.providerReference)
  }

  /** The execution belongs to the withdrawal and to the provider, whose mode fits. */
  ghost predicate OnRoute(e: Execution, w: Withdrawal, input: Input, modeOk: bool) {
    && e.withdrawal == input.withdrawal && e.provider.name == input.providerName
    && (if e.provider.name == "stripe_connect" then modeOk else e.livemode.None?)
    && match input.evidence
       case ManualBank(reference, _, _, _) => w.publicReference == Some(reference) && reference != ""
       case _ => true
  }

  ghost function Payable(e: Execution): int {
    match e.destinationAmount
    case Some(amount) => amount
    case None => e.amount
  }

  /** An amount in cents, as a provider may write it. */
  ghost predicate SaysCents(v: MinorAmount, n: int) {
    match v
    case NoAmount => false
    case BigInteger(m) => m == n > 0
    case JsNumber(x) => x == n as real && 0 < n <= 9007199254740991
    case DigitText(s) => s != "" && Decimals.AllDigits(s) && s[0] != '0' && Decimals.Value(s) == n
  }

  ghost predicate NonEmpty(o: Option<string>) {
    o.Some? && o.value != ""
  }

  /** The provider's object that the execution was sent as: a bank payout if it has one, and for Stripe nothing else. */
  ghost predicate NamesObject(e: Execution, input: Input) {
    && (if e.provider.name == "stripe_connect" || e.providerPayoutId.Some? then e.providerPayoutId == Some(NamedBy(input))
        else e.providerExecutionId == Some(NamedBy(input)))
    && NamedBy(input) != ""
    && (e.provider.name == "stripe_connect" ==> "po_" <= NamedBy(input) && e.providerTransferId != Some(NamedBy(input)))
  }

  /** A signed event that says COMPLETED about this object, on the account and in the mode of the execution. */
  ghost predicate WebhookSays(e: Execution, v: WebhookEvent, input: Input) {
    && v.provider == e.provider.name && v.providerStatus == Some("COMPLETED") && v.providerExecutionId == Some(NamedBy(input))
    && (if e.provider.name == "stripe_connect" then
          v.eventType == "payout.paid" && NonEmpty(e.destinationAccount) && v.account == e.destinationAccount
          && v.livemode == e.livemode
        else
          e.provider.name == "wise" && v.eventType == "transfers#state-change" && v.account.None? && v.livemode.None?
          && e.livemode.None?)
  }

  /** The evidence names the object, the exact amount in whole cents and its currency; or a current checker vouches for it. */
  ghost predicate Vouches(db: Payouts, e: Execution, input: Input, now: int, at: int, cents: Option<int>) {
    match input.evidence
    case ManualBank(_, time, actor, _) => time == Some(at) && at <= now + FIVE_MINUTES && actor in db.staff && cents.None?
    case Automated(_, time, amount, currency) =>
      && time == Some(at) && at <= now + FIVE_MINUTES && NamesObject(e, input)
      && cents.Some? && WholeCents(e, cents.value) && SaysCents(amount, cents.value)
      && currency.Some? && Text.Upper(Text.Trim(currency.value)) == e.destinationCurrency
    case Webhook(id, _, _) =>
      && id in db.webhooks && db.webhooks[id].receivedAt == at && NamesObject(e, input)
      && WebhookSays(e, db.webhooks[id], input)
      && cents.Some? && WholeCents(e, cents.value)
      && db.webhooks[id].amountMinor == cents && db.webhooks[id].currency == Some(e.destinationCurrency)
  }

  ghost predicate WholeCents(e: Execution, cents: int) {
    && cents > 0 && cents * Decimals.CENT == Payable(e)
    && Text.Upper(Text.Trim(e.destinationCurrency)) == "USD"
  }

  /** The evidence is genuine, and about this execution. */
  ghost predicate Genuine(db: Payouts, input: Input, now: int, modeOk: bool, at: int, cents: Option<int>) {
    && input.withdrawal < |db.withdrawals| && input.execution < |db.executions|
    && var e, w := db.executions[input.execution], db.withdrawals[input.withdrawal];
    OnRoute(e, w, input, modeOk) && Vouches(db, e, input, now, at, cents)
  }

  // ---------------------------------------------------------------- the rows

  /** Neither row is settled or cancelled, and the stage is one from which this source may complete. */
  ghost predicate MayComplete(e: Execution, w: Withdrawal, input: Input) {
    && (e.status.PROCESSING? || e.status.FAILED?) && (w.status.PROCESSING? || w.status.FAILED?)
    && (match input.evidence
        case ManualBank(_, _, _, _) => e.stage.PROVIDER_SENT?
        case _ =>
          e.stage.PROVIDER_COMPLETION_RECOVERY_REQUIRED?
          || (if e.provider.name == "stripe_connect" then
                e.stage.BANK_PAID? || e.stage.BANK_PAYOUT_CREATED? || e.stage.BANK_PAYOUT_PENDING?
                || e.stage.BANK_PAYOUT_RECOVERY_REQUIRED?
              else e.stage.PROVIDER_SENT? || e.stage.PROVIDER_OUTCOME_UNKNOWN?))
  }

  ghost function Unreleased(allocations: seq<Allocation>): int {
    if allocations == [] then 0
    else
      var last := allocations[|allocations| - 1];
      Unreleased(allocations[..|allocations| - 1]) + if last.releasedAt.None? then last.amount else 0
  }

  /** The execution pays the withdrawal, in USD, and what is reserved for it is exactly that much. */
  ghost predicate PaysWithdrawal(e: Execution, w: Withdrawal) {
    && w.currency == "USD" && e.sourceCurrency == "USD" && e.destinationCurrency == "USD"
    && e.amount == w.amount && Payable(e) == (match w.netAmount case Some(net) => net case None => w.amount)
    && (exists a :: a in w.allocations && a.releasedAt.None?)
    && (forall a :: a in w.allocations && a.releasedAt.None? ==> a.amount > 0 && a.currency == "USD")
    && Unreleased(w.allocations) == w.amount
  }

  /** A manual confirmation is complete, timely, and given by none of those who asked, approved or sent. */
  ghost predicate FourEyesOn(e: Execution, w: Withdrawal, input: Input, at: int, now: int) {
    match input.evidence
    case ManualBank(_, _, actor, reason) =>
      && e.provider.name == "manual" && actor != "" && |NamedBy(input)| >= 6 && w.approvedAt.Some?
      && NonEmpty(e.providerExecutionId)
      && e.createdAt - FIVE_MINUTES <= at <= now + FIVE_MINUTES
      && 10 <= |Text.Trim(reason)| <= 2000
      && NonEmpty(w.requestedBy) && NonEmpty(w.approvedBy) && NonEmpty(e.initiatedBy)
      && w.requestedBy != Some(actor) && w.approvedBy != Some(actor) && e.initiatedBy != Some(actor)
    case _ => e.provider.name != "manual"
  }

  /** No other execution of the withdrawal is active or completed, and no other one of the provider has this evidence. */
  ghost predicate Alone(db: Payouts, input: Input)
    requires input.execution < |db.executions|
  {
    forall j :: 0 <= j < |db.executions| && j != input.execution ==>
      var o, e := db.executions[j], db.executions[input.execution];
      && (o.withdrawal == input.withdrawal ==> !(o.status.PENDING? || o.status.PROCESSING? || o.status.COMPLETED?))
      && (o.provider.id == e.provider.id ==>
            && !(o.completion.Some? && o.completion.value.evidenceRef == Some(NamedBy(input)))
            && !(input.evidence.ManualBank? && o.bankTraceReference == Some(NamedBy(input))))
  }

  ghost predicate Completable(db: Payouts, input: Input, now: int, at: int)
    requires input.withdrawal < |db.withdrawals| && input.execution < |db.executions|
  {
    var e, w := db.executions[input.execution], db.withdrawals[input.withdrawal];
    MayComplete(e, w, input) && PaysWithdrawal(e, w) && FourEyesOn(e, w, input, at, now) && Alone(db, input)
  }

  // ---------------------------------------------------------------- the checks say the same

  lemma LeaseChecked(db: Payouts, evidence: Evidence)
    ensures OwnsLease(db, evidence) <==> LeaseHeld(db, evidence)
  {
  }

  lemma RouteChecked(e: Execution, w: Withdrawal, input: Input, modeOk: bool)
    ensures CheckRoute(e, w, input, modeOk).Ok? <==> OnRoute(e, w, input, modeOk)
  {
  }

  lemma NameRead(input: Input)
    ensures EvidenceReference(input) == NamedBy(input)
  {
  }

  lemma CentsRead(v: MinorAmount, n: int)
    ensures NormalizedMinorAmount(v) == Some(n) <==> SaysCents(v, n)
  {
    hide Decimals.Value, Decimals.AllDigits;
    match v
    case JsNumber(x) =>
      if x == n as real {
        assert x.Floor == n;
      }
    case _ =>
  }

  lemma CentsExpected(e: Execution, n: int)
    ensures DecimalMinorAmount(DestinationOf(e), e.destinationCurrency) == Some(n) <==> WholeCents(e, n)
  {
    hide Text.Trim, Text.Upper;
    assert DestinationOf(e) == Payable(e);
    if n * Decimals.CENT == Payable(e) {
      assert Payable(e) / Decimals.CENT == n && Payable(e) % Decimals.CENT == 0;
    }
  }

  lemma ObjectChecked(e: Execution, input: Input)
    requires e.provider.name == input.providerName
    ensures NamesObject(e, input) <==>
              && Present(ProviderReferenceOf(e)) && ProviderReferenceOf(e) == Some(EvidenceReference(input))
              && (input.providerName == STRIPE_CONNECT ==>
                    Present(e.providerPayoutId) && "po_" <= EvidenceReference(input)
                    && e.providerTransferId != Some(EvidenceReference(input)))
  {
    hide Text.Trim, Text.Upper, Text.CollapseSpaces;
  }

  lemma WebhookChecked(e: Execution, v: WebhookEvent, input: Input)
    requires e.provider.name == input.providerName && v.status.PROCESSING?
    ensures WebhookMatches(e, v, input) <==> WebhookSays(e, v, input)
  {
    hide Text.Trim, Text.Upper, Text.CollapseSpaces;
  }

  /** What the transaction reads in the evidence, and what it makes of it, is that the evidence vouches. */
  lemma EvidenceChecked(db: Payouts, e: Execution, input: Input, now: int, at: int, cents: Option<int>)
    requires e.provider.name == input.providerName && LeaseHeld(db, input.evidence)
    ensures Vouches(db, e, input, now, at, cents) <==>
              && ReadEvidence(db, e, input).Ok?
              && var facts := ReadEvidence(db, e, input).value;
              facts.amountMinor == cents && CheckTime(facts, input, now) == Ok(at) && CheckAuthority(db, e, facts, input).Ok?
  {
    hide Text.Trim, Text.Upper, Text.CollapseSpaces, NamesObject, WebhookSays, WebhookMatches, SaysCents, NormalizedMinorAmount,
      WholeCents, DecimalMinorAmount, ProviderReferenceOf, Present;
    ObjectChecked(e, input);
    var n := cents.GetOr(0);
    CentsExpected(e, n);
    match input.evidence
    case ManualBank(_, _, _, _) =>
    case Automated(_, _, amount, currency) =>
      if WholeCents(e, n) {
        CentsRead(amount, n);
        CurrencyRead(e, n, currency);
      }
    case Webhook(id, _, _) =>
      WebhookChecked(e, db.webhooks[id], input);
      if WholeCents(e, n) {
        StoredCents(e, db.webhooks[id].amountMinor, n);
      }
  }

  lemma CurrencyRead(e: Execution, n: int, currency: Option<string>)
    requires WholeCents(e, n)
    ensures Some(e.destinationCurrency) == (var c := NormalizedCurrency(currency.GetOr("")); if c == "" then None else Some(c))
        <==> currency.Some? && Text.Upper(Text.Trim(currency.value)) == e.destinationCurrency
  {
  }

  lemma StoredCents(e: Execution, stored: Option<int>, n: int)
    requires WholeCents(e, n)
    ensures NormalizedMinorAmount(if stored.Some? then BigInteger(stored.value) else NoAmount) == Some(n) <==> stored == Some(n)
  {
  }

  lemma {:induction false} UnreleasedTotal(allocations: seq<Allocation>)
    ensures Total(Active(allocations)) == Unreleased(allocations)
  {
    if allocations != [] {
      var front, last := allocations[..|allocations| - 1], allocations[|allocations| - 1];
      UnreleasedTotal(front);
      TotalAppend(Active(front), last);
    }
  }

  lemma ActiveSays(allocations: seq<Allocation>)
    ensures Active(allocations) != [] <==> exists a :: a in allocations && a.releasedAt.None?
    ensures AllSound(Active(allocations), "USD") <==>
              forall a :: a in allocations && a.releasedAt.None? ==> a.amount > 0 && a.currency == "USD"
  {
    var active := Active(allocations);
    hide Active;
    assert active != [] ==> active[0] in active;
    assert forall a :: a in active <==> a in allocations && a.releasedAt.None?;
    assert forall a :: a in active ==> exists i :: 0 <= i < |active| && active[i] == a;
  }

  lemma StateChecked(e: Execution, w: Withdrawal, input: Input)
    requires e.provider.name == input.providerName
    ensures CheckState(e, w, input).Ok? <==> MayComplete(e, w, input)
  {
  }

  lemma AmountsChecked(e: Execution, w: Withdrawal)
    ensures AmountsAgree(e, w) && Covered(w) <==> PaysWithdrawal(e, w)
  {
    UnreleasedTotal(w.allocations);
    ActiveSays(w.allocations);
  }

  lemma PartiesChecked(e: Execution, w: Withdrawal, input: Input, at: int, now: int)
    requires e.provider.name == input.providerName
    ensures CheckParties(e, w, input, at, now).Ok? <==> FourEyesOn(e, w, input, at, now)
  {
    hide Text.Trim, Text.Upper, Text.CollapseSpaces;
  }

  lemma AloneChecked(db: Payouts, input: Input)
    requires input.execution < |db.executions|
    ensures Alone(db, input) <==>
              && !Competing(db.executions, input.execution, input.withdrawal)
              && !Reused(db.executions, input.execution, db.executions[input.execution].provider.id, EvidenceReference(input),
                         input.evidence.ManualBank?)
  {
    NameRead(input);
    hide NamedBy, EvidenceReference;
    var k, p := input.execution, db.executions[input.execution].provider.id;
    var reference, manual := NamedBy(input), input.evidence.ManualBank?;
    if Competing(db.executions, k, input.withdrawal) {
      var j :| 0 <= j < |db.executions| && j != k && db.executions[j].withdrawal == input.withdrawal
               && MovesMoney(db.executions[j].status);
    }
    if Reused(db.executions, k, p, reference, manual) {
      var j :| 0 <= j < |db.executions| && j != k && UsedBy(db.executions[j], p, reference, manual);
    }
  }

  lemma CompletableChecked(db: Payouts, input: Input, at: int, now: int)
    requires input.execution < |db.executions| && input.withdrawal < |db.withdrawals|
    requires db.executions[input.execution].provider.name == input.providerName
    ensures var e, w := db.executions[input.execution], db.withdrawals[input.withdrawal];
            CheckCompletable(db, e, w, input, at, now).Ok? <==> Completable(db, input, now, at)
  {
    hide CheckState, MayComplete, AmountsAgree, Covered, PaysWithdrawal, CheckParties, FourEyesOn, Competing, Reused, Alone;
    var e, w := db.executions[input.execution], db.withdrawals[input.withdrawal];
    StateChecked(e, w, input);
    AmountsChecked(e, w);
    PartiesChecked(e, w, input, at, now);
    AloneChecked(db, input);
  }

  lemma AdmittedSays(db: Payouts, input: Input, now: int, modeOk: bool, at: int, cents: Option<int>)
    requires LeaseHeld(db, input.evidence)
    ensures PayoutProof.Admitted(db, input, now, modeOk, at, cents) <==>
              Genuine(db, input, now, modeOk, at, cents) && Completable(db, input, now, at)
  {
    hide LeaseHeld, CheckRoute, ReadEvidence, CheckTime, CheckAuthority, CheckCompletable, Vouches, Completable;
    if input.withdrawal < |db.withdrawals| && input.execution < |db.executions| {
      var e, w := db.executions[input.execution], db.withdrawals[input.withdrawal];
      RouteChecked(e, w, input, modeOk);
      if e.provider.name == input.providerName {
        EvidenceChecked(db, e, input, now, at, cents);
        CompletableChecked(db, input, at, now);
        OpenToComplete(db, input, now, at);
      }
    }
  }

  lemma OpenToComplete(db: Payouts, input: Input, now: int, at: int)
    requires input.execution < |db.executions| && input.withdrawal < |db.withdrawals|
    ensures Completable(db, input, now, at) ==> !db.executions[input.execution].status.COMPLETED?
  {
  }

  // ---------------------------------------------------------------- exactly when

  ghost predicate Applies(db: Payouts, input: Input, now: int, modeOk: bool, at: int, cents: Option<int>) {
    LeaseHeld(db, input.evidence) && Genuine(db, input, now, modeOk, at, cents) && Completable(db, input, now, at)
  }

  /**
   A call completes its payout exactly when its claim is held, its evidence is genuine and about this
   execution and exact amount, both rows may still complete, the reservation covers the payout, four
   eyes have seen a manual one, nobody else is paid or uses the evidence, and the publisher has a balance.
   */
  lemma CompletesExactly(base: map<Id, int>, db: Payouts, input: Input, now: int, modeOk: bool)
    requires Valid(base, db)
    ensures Finalize(db, input, now, modeOk).Ok? && Finalize(db, input, now, modeOk).value.1 == Done(Completed, true)
        <==> (exists at, cents :: Applies(db, input, now, modeOk, at, cents))
             && db.withdrawals[input.withdrawal].publisher in db.balances
  {
    hide Valid, OwnsLease, LeaseHeld, Decide, PayoutProof.Admitted, Genuine, Completable, Terminal, Finish;
    LeaseChecked(db, input.evidence);
    if LeaseHeld(db, input.evidence) {
      var d := Decide(db, input, now, modeOk);
      if d.Ok? && d.value.Complete? {
        var at, cents := d.value.at, d.value.amountMinor;
        PayoutProof.DecisionAdmits(db, input, now, modeOk, at, cents);
        AdmittedSays(db, input, now, modeOk, at, cents);
        PayoutProof.FinishCommits(base, db, input, now, modeOk, at, cents);
        PayoutProof.AdmittedRows(db, input, now, modeOk, at, cents);
        FinishReplies(db, input, at, cents, now);
        assert Applies(db, input, now, modeOk, at, cents);
      }
      forall at: int, cents: Option<int> | Applies(db, input, now, modeOk, at, cents)
        ensures d == Ok(Decision.Complete(at, cents))
      {
        AdmittedSays(db, input, now, modeOk, at, cents);
        PayoutProof.DecisionAdmits(db, input, now, modeOk, at, cents);
      }
    }
  }

  lemma FinishReplies(db: Payouts, input: Input, at: int, cents: Option<int>, now: int)
    requires OwnsLease(db, input.evidence) && input.withdrawal < |db.withdrawals| && input.execution < |db.executions|
    ensures Finish(db, input, at, cents, now).Ok? ==> Finish(db, input, at, cents, now).value.1 == Done(Completed, true)
  {
    hide Terminal, Violates, CompletedExecution;
  }

  /** The completion names the evidence: the same reference, and for a manual one the same checker, time and reason. */
  ghost predicate SameEvidence(c: Completion, input: Input, at: int) {
    && c.evidenceRef == Some(NamedBy(input))
    && match input.evidence
       case ManualBank(_, _, actor, reason) =>
         && c.source.MANUAL_BANK_CONFIRMATION? && c.actor == Some(actor) && c.evidenceAt == Some(at)
         && c.reason.Some? && Text.Trim(c.reason.value) == Text.Trim(reason)
       case _ => true
  }

  /** The completion came from this very source, and for a webhook from this very event. */
  ghost predicate SameSource(c: Completion, evidence: Evidence) {
    match evidence
    case Automated(response, _, _, _) => if response then c.source.PROVIDER_RESPONSE? else c.source.PROVIDER_STATUS_POLL?
    case Webhook(id, _, _) => c.source.PROVIDER_WEBHOOK? && c.webhookEvent == Some(id)
    case ManualBank(_, _, _, _) => c.source.MANUAL_BANK_CONFIRMATION?
  }

  ghost predicate Knows(db: Payouts, input: Input, now: int, modeOk: bool, at: int, cents: Option<int>) {
    && LeaseHeld(db, input.evidence) && Genuine(db, input, now, modeOk, at, cents)
    && var e := db.executions[input.execution];
    e.status.COMPLETED? && e.completion.Some? && SameEvidence(e.completion.value, input, at)
  }

  lemma RecognitionRead(e: Execution, w: Withdrawal, input: Input, at: int)
    requires e.completion.Some? && e.completion.value.evidenceRef.Some? && w.status.COMPLETED?
    ensures Recognise(e, w, input, at).Ok? <==> SameEvidence(e.completion.value, input, at)
    ensures Recognise(e, w, input, at).Ok? ==> (Recognise(e, w, input, at).value <==> SameSource(e.completion.value, input.evidence))
  {
    NameRead(input);
    hide Text.Trim, NamedBy, EvidenceReference, ProviderReferenceOf;
  }

  lemma CompletedRows(base: map<Id, int>, db: Payouts, i: nat)
    requires Valid(base, db) && i < |db.executions| && db.executions[i].status.COMPLETED?
    ensures db.executions[i].withdrawal < |db.withdrawals| && db.withdrawals[db.executions[i].withdrawal].status.COMPLETED?
    ensures db.executions[i].completion.Some? && db.executions[i].completion.value.evidenceRef.Some?
  {
    assert Backed(db.executions[i], db.withdrawals[db.executions[i].withdrawal]);
  }

  /**
   An earlier completion is recognised exactly when genuine evidence about it names what completed it. It
   is a replay if it comes from the same source and event, and a corroboration otherwise.
   */
  lemma RecognisesExactly(base: map<Id, int>, db: Payouts, input: Input, now: int, modeOk: bool, same: bool)
    requires Valid(base, db)
    ensures Finalize(db, input, now, modeOk).Ok?
            && Finalize(db, input, now, modeOk).value.1 == Done(if same then Replayed else Corroborated, false)
        <==> exists at, cents :: Knows(db, input, now, modeOk, at, cents)
                                 && (SameSource(db.executions[input.execution].completion.value, input.evidence) <==> same)
  {
    hide Valid, OwnsLease, LeaseHeld, SameEvidence, SameSource, OnRoute, Vouches, Decide, Finalize;
    LeaseChecked(db, input.evidence);
    if LeaseHeld(db, input.evidence) {
      Replies(db, input, now, modeOk);
      if Decide(db, input, now, modeOk) == Ok(Recognised(same)) {
        var at, cents := RecognisedKnows(base, db, input, now, modeOk, same);
      }
      forall at: int, cents: Option<int> | Knows(db, input, now, modeOk, at, cents)
        ensures Decide(db, input, now, modeOk)
             == Ok(Recognised(SameSource(db.executions[input.execution].completion.value, input.evidence)))
      {
        KnownIsRecognised(base, db, input, now, modeOk, at, cents);
      }
    } else {
      NoClaimNoDecision(db, input, now, modeOk);
    }
  }

  lemma NoClaimNoDecision(db: Payouts, input: Input, now: int, modeOk: bool)
    requires !OwnsLease(db, input.evidence)
    ensures Finalize(db, input, now, modeOk) == Ok((db, Conflict(WEBHOOK_LEASE_LOST)))
  {
  }

  lemma Replies(db: Payouts, input: Input, now: int, modeOk: bool)
    requires OwnsLease(db, input.evidence)
    ensures var d := Decide(db, input, now, modeOk); var r := Finalize(db, input, now, modeOk);
            && (r.Ok? && r.value.1 == Done(Replayed, false) <==> d == Ok(Recognised(true)))
            && (r.Ok? && r.value.1 == Done(Corroborated, false) <==> d == Ok(Recognised(false)))
  {
    hide Decide, Terminal, Violates, CompletedExecution;
  }

  lemma RecognitionPasses(db: Payouts, input: Input, now: int, modeOk: bool, same: bool) returns (facts: Facts, at: int)
    requires Decide(db, input, now, modeOk) == Ok(Recognised(same))
    ensures input.withdrawal < |db.withdrawals| && input.execution < |db.executions|
    ensures var e, w := db.executions[input.execution], db.withdrawals[input.withdrawal];
            && CheckRoute(e, w, input, modeOk).Ok? && ReadEvidence(db, e, input) == Ok(facts)
            && CheckTime(facts, input, now) == Ok(at) && CheckAuthority(db, e, facts, input).Ok?
            && e.status.COMPLETED? && Recognise(e, w, input, at) == Ok(same)
  {
    hide CheckRoute, ReadEvidence, CheckTime, CheckAuthority, CheckCompletable, Recognise;
    var e, w := db.executions[input.execution], db.withdrawals[input.withdrawal];
    facts := ReadEvidence(db, e, input).value;
    at := CheckTime(facts, input, now).value;
  }

  lemma RecognisedKnows(base: map<Id, int>, db: Payouts, input: Input, now: int, modeOk: bool, same: bool)
    returns (at: int, cents: Option<int>)
    requires Valid(base, db) && LeaseHeld(db, input.evidence) && Decide(db, input, now, modeOk) == Ok(Recognised(same))
    ensures Knows(db, input, now, modeOk, at, cents)
    ensures SameSource(db.executions[input.execution].completion.value, input.evidence) <==> same
  {
    hide Valid, LeaseHeld, Decide, CheckRoute, ReadEvidence, CheckTime, CheckAuthority, Recognise, Vouches, SameEvidence, SameSource;
    var facts: Facts;
    facts, at := RecognitionPasses(db, input, now, modeOk, same);
    cents := facts.amountMinor;
    var e, w := db.executions[input.execution], db.withdrawals[input.withdrawal];
    RouteChecked(e, w, input, modeOk);
    EvidenceChecked(db, e, input, now, at, cents);
    CompletedRows(base, db, input.execution);
    RecognitionRead(e, w, input, at);
  }

  lemma KnownIsRecognised(base: map<Id, int>, db: Payouts, input: Input, now: int, modeOk: bool, at: int, cents: Option<int>)
    requires Valid(base, db) && Knows(db, input, now, modeOk, at, cents)
    ensures Decide(db, input, now, modeOk)
         == Ok(Recognised(SameSource(db.executions[input.execution].completion.value, input.evidence)))
  {
    hide Valid, LeaseHeld, CheckRoute, ReadEvidence, CheckTime, CheckAuthority, CheckCompletable, Recognise, Vouches,
      SameEvidence, SameSource;
    var e, w := db.executions[input.execution], db.withdrawals[input.withdrawal];
    RouteChecked(e, w, input, modeOk);
    EvidenceChecked(db, e, input, now, at, cents);
    CompletedRows(base, db, input.execution);
    RecognitionRead(e, w, input, at);
  }

  // ---------------------------------------------------------------- what is written

  /** What the completed execution says from now on. */
  ghost predicate RowCompleted(e: Execution, e': Execution, input: Input, at: int, cents: Option<int>, now: int) {
    && e'.status.COMPLETED? && e'.completion.Some? && e'.version == e.version + 1
    && var c := e'.completion.value;
    && SameSource(c, input.evidence) && SameEvidence(c, input, at)
    && c.evidenceAt == Some(at) && c.completedAt >= at && c.completedAt >= now && (c.completedAt == at || c.completedAt == now)
    && e'.fee == (match input.fee case Some(fee) => fee case None => e.fee)
    && (match input.evidence
        case ManualBank(_, _, actor, _) =>
          && c.actor == Some(actor) && c.webhookEvent.None? && c.amountMinor.None?
          && e'.stage.MANUAL_CONFIRMED? && e'.bankTraceReference == Some(NamedBy(input)) == e'.acceptedReference
        case _ =>
          && c.actor.None? && c.reason.None? && c.amountMinor == cents && (c.webhookEvent.Some? <==> input.evidence.Webhook?)
          && (if e.provider.name == "stripe_connect" then e'.stage.BANK_PAID? else e'.stage == e.stage)
          && e'.bankTraceReference == e.bankTraceReference && e'.acceptedReference == e.acceptedReference)
    && e' == e.(status := e'.status, stage := e'.stage, bankTraceReference := e'.bankTraceReference,
                acceptedReference := e'.acceptedReference, fee := e'.fee, completion := e'.completion, version := e'.version)
  }

  /** One execution, its withdrawal, the balance of the publisher and the inbox row of the event: nothing else changes. */
  ghost predicate Writes(db: Payouts, db': Payouts, input: Input, at: int, cents: Option<int>, now: int) {
    && input.withdrawal < |db.withdrawals| && input.execution < |db.executions| == |db'.executions|
    && RowCompleted(db.executions[input.execution], db'.executions[input.execution], input, at, cents, now)
    && db'.executions == db.executions[input.execution := db'.executions[input.execution]]
    && var w := db.withdrawals[input.withdrawal];
    && db'.withdrawals == db.withdrawals[input.withdrawal := w.(status := WithdrawalStatus.COMPLETED, version := w.version + 1)]
    && w.publisher in db.balances
    && var b := db.balances[w.publisher];
    && db'.balances == db.balances[w.publisher := Balance(b.lifetimePaid + w.amount, b.version + 1)]
    && db'.staff == db.staff
    && match input.evidence
       case Webhook(id, _, _) =>
         && id in db.webhooks && db'.webhooks.Keys == db.webhooks.Keys
         && (forall k :: k in db.webhooks && k != id ==> db'.webhooks[k] == db.webhooks[k])
         && db'.webhooks[id].status.PROCESSED? && db'.webhooks[id].lockedAt.None? && db'.webhooks[id].lastError.None?
       case _ => db'.webhooks == db.webhooks
  }

  lemma ExecutionCompletes(e: Execution, input: Input, at: int, cents: Option<int>, now: int)
    requires e.provider.name == input.providerName
    ensures RowCompleted(e, CompletedExecution(e, input, at, cents, now), input, at, cents, now)
  {
    NameRead(input);
    hide NamedBy, EvidenceReference, Text.Trim;
    if input.evidence.ManualBank? {
      Text.TrimIdempotent(input.evidence.reason);
    }
  }

  /** A call that completes its payout writes exactly these rows. */
  lemma CompletionWrites(base: map<Id, int>, db: Payouts, input: Input, now: int, modeOk: bool) returns (at: int, cents: Option<int>)
    requires Valid(base, db)
    requires Finalize(db, input, now, modeOk).Ok? && Finalize(db, input, now, modeOk).value.1 == Done(Completed, true)
    ensures Applies(db, input, now, modeOk, at, cents)
    ensures Writes(db, Finalize(db, input, now, modeOk).value.0, input, at, cents, now)
  {
    LeaseChecked(db, input.evidence);
    hide Valid, LeaseHeld, Decide, PayoutProof.Admitted, Genuine, Completable, CompletedExecution, RowCompleted, Violates;
    var d := Decide(db, input, now, modeOk);
    at, cents := d.value.at, d.value.amountMinor;
    PayoutProof.DecisionAdmits(db, input, now, modeOk, at, cents);
    PayoutProof.AdmittedRows(db, input, now, modeOk, at, cents);
    AdmittedSays(db, input, now, modeOk, at, cents);
    GenuineProvider(db, input, now, modeOk, at, cents);
    ExecutionCompletes(db.executions[input.execution], input, at, cents, now);
  }

  lemma GenuineProvider(db: Payouts, input: Input, now: int, modeOk: bool, at: int, cents: Option<int>)
    requires Genuine(db, input, now, modeOk, at, cents)
    ensures input.execution < |db.executions| && db.executions[input.execution].provider.name == input.providerName
  {
  }

  /** The end that the inbox row of a webhook comes to when no money moves. */
  ghost predicate Ended(db: Payouts, db': Payouts, evidence: Evidence, status: WebhookStatus, now: int, note: Option<Note>) {
    match evidence
    case Webhook(id, _, _) =>
      && id in db.webhooks
      && db' == db.(webhooks := db.webhooks[id := db.webhooks[id].(status := status, lockedAt := None, processedAt := Some(now),
                                                                   lastError := note)])
    case _ => db' == db
  }

  /** A replay, a corroboration and a refusal write the end of the event and nothing else; without its claim not even that. */
  lemma OtherRepliesWrite(db: Payouts, input: Input, now: int, modeOk: bool)
    requires Finalize(db, input, now, modeOk).Ok? && Finalize(db, input, now, modeOk).value.1 != Done(Completed, true)
    ensures var (db', reply) := Finalize(db, input, now, modeOk).value;
            if !LeaseHeld(db, input.evidence) then db' == db && reply == Conflict(WEBHOOK_LEASE_LOST)
            else match reply
              case Conflict(code) => Ended(db, db', input.evidence, WebhookStatus.QUARANTINED, now, Some(ConflictNote(code)))
              case Done(kind, _) =>
                if kind.Replayed? then Ended(db, db', input.evidence, WebhookStatus.PROCESSED, now, None)
                else Ended(db, db', input.evidence, WebhookStatus.IGNORED, now, Some(CorroboratesExistingCompletion))
  {
    LeaseChecked(db, input.evidence);
    hide LeaseHeld, Decide, Violates, CompletedExecution;
  }
}
