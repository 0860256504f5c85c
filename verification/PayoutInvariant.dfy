/** What every reachable state of the payout tables keeps. */
module PayoutInvariant {
  import opened Outcomes
  import opened PayoutState
  import PF = PayoutFinalization
  import Decimals
  import Text

  /** `base` is what a publisher had been paid before; `lifetimePaid` adds its completed withdrawals to it. */
  ghost predicate Conserved(base: map<Id, int>, withdrawals: seq<Withdrawal>, balances: map<Id, Balance>) {
    forall p :: p in balances ==> balances[p].lifetimePaid == BaseOf(base, p) + PaidSum(p, withdrawals)
  }

  function BaseOf(base: map<Id, int>, publisher: Id): int {
    if publisher in base then base[publisher] else 0
  }

  /** The balance of a publisher exists before any of its withdrawals completes. */
  ghost predicate PaidHaveBalance(withdrawals: seq<Withdrawal>, balances: map<Id, Balance>) {
    forall k :: 0 <= k < |withdrawals| && withdrawals[k].status.COMPLETED? ==> withdrawals[k].publisher in balances
  }

  ghost predicate RowsDistinct(executions: seq<Execution>) {
    forall j, k :: 0 <= j < k < |executions| ==> !Conflicting(executions[j], executions[k])
  }

  ghost predicate CompletedBy(e: Execution, k: nat) {
    e.withdrawal == k && e.status.COMPLETED?
  }

  /** A withdrawal is completed exactly when one of its executions is. */
  ghost predicate CompletedTogether(withdrawals: seq<Withdrawal>, executions: seq<Execution>) {
    && (forall i :: 0 <= i < |executions| ==> executions[i].withdrawal < |withdrawals|)
    && (forall i :: 0 <= i < |executions| && executions[i].status.COMPLETED? ==>
          withdrawals[executions[i].withdrawal].status.COMPLETED?)
    && (forall k :: 0 <= k < |withdrawals| && withdrawals[k].status.COMPLETED? ==>
          exists i :: 0 <= i < |executions| && CompletedBy(executions[i], k))
  }

  /** The evidence that completed an execution fits the source it came from. */
  ghost predicate EvidenceFits(e: Execution, c: Completion) {
    && c.evidenceRef.Some? && c.evidenceAt.Some? && c.evidenceAt.value <= c.completedAt
    && match c.source
       case MANUAL_BANK_CONFIRMATION =>
         && e.provider.name == MANUAL && c.webhookEvent.None? && c.amountMinor.None? && c.actor.Some? && c.actor.value != ""
         && e.bankTraceReference == c.evidenceRef && e.acceptedReference == c.evidenceRef
         && |c.evidenceRef.value| >= 6 && c.reason.Some? && 10 <= |c.reason.value| <= 2000
       case LEGACY_UNVERIFIED => false
       case _ =>
         && e.provider.name != MANUAL && c.actor.None? && (c.webhookEvent.Some? <==> c.source.PROVIDER_WEBHOOK?)
         && PF.ProviderReferenceOf(e) == c.evidenceRef
         && (e.provider.name == STRIPE_CONNECT ==> "po_" <= c.evidenceRef.value && e.providerTransferId != c.evidenceRef)
         && c.amountMinor.Some? && c.amountMinor.value > 0 && c.amountMinor.value * Decimals.CENT == PF.DestinationOf(e)
  }

  /** A completed execution paid out exactly what its withdrawal had reserved, on fitting evidence and under four eyes. */
  ghost predicate Backed(e: Execution, w: Withdrawal) {
    && e.completion.Some?
    && PF.AmountsAgree(e, w) && PF.Covered(w)
    && EvidenceFits(e, e.completion.value)
    && (e.completion.value.source.MANUAL_BANK_CONFIRMATION? ==> PF.FourEyes(e, w, e.completion.value.actor.value))
  }

  ghost predicate CompletionsBacked(withdrawals: seq<Withdrawal>, executions: seq<Execution>) {
    forall i :: 0 <= i < |executions| && executions[i].withdrawal < |withdrawals| ==>
      if executions[i].status.COMPLETED? then Backed(executions[i], withdrawals[executions[i].withdrawal])
      else executions[i].completion.None?
  }

  /** The webhook that completed an execution has come to its end. */
  ghost predicate WebhookEnded(e: Execution, webhooks: map<Id, WebhookEvent>) {
    e.completion.Some? && e.completion.value.webhookEvent.Some? ==>
      && e.completion.value.webhookEvent.value in webhooks
      && (webhooks[e.completion.value.webhookEvent.value].status.PROCESSED?
          || webhooks[e.completion.value.webhookEvent.value].status.QUARANTINED?)
  }

  ghost predicate WebhooksEnded(executions: seq<Execution>, webhooks: map<Id, WebhookEvent>) {
    forall i :: 0 <= i < |executions| ==> WebhookEnded(executions[i], webhooks)
  }

  ghost predicate Valid(base: map<Id, int>, db: Payouts) {
    && Conserved(base, db.withdrawals, db.balances)
    && PaidHaveBalance(db.withdrawals, db.balances)
    && RowsDistinct(db.executions)
    && CompletedTogether(db.withdrawals, db.executions)
    && CompletionsBacked(db.withdrawals, db.executions)
    && WebhooksEnded(db.executions, db.webhooks)
  }
}
