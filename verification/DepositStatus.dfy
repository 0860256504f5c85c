/** The deposit lifecycle and the two status sets that tie crediting to disputes. */
module DepositStatus {

  datatype Status =
    | CREATED
    | PENDING_CUSTOMER_ACTION
    | PROCESSING
    | SUCCEEDED
    | FAILED
    | EXPIRED
    | PARTIALLY_REFUNDED
    | REFUNDED
    | DISPUTED
    | CHARGEBACK

  predicate CreditBacked(status: Status) {
    status in {SUCCEEDED, PARTIALLY_REFUNDED, REFUNDED, DISPUTED, CHARGEBACK}
  }

  predicate CreditablePreCredit(status: Status) {
    status in {CREATED, PENDING_CUSTOMER_ACTION, PROCESSING, FAILED, EXPIRED}
  }

  predicate RefundProjected(status: Status) {
    status in {PARTIALLY_REFUNDED, REFUNDED}
  }

  /** Every status is either still creditable or already backed by a credit, never both. */
  lemma StatusesPartition(status: Status)
    ensures CreditBacked(status) <==> !CreditablePreCredit(status)
    ensures RefundProjected(status) ==> CreditBacked(status)
  {
    match status
    case CREATED =>
    case PENDING_CUSTOMER_ACTION =>
    case PROCESSING =>
    case SUCCEEDED =>
    case FAILED =>
    case EXPIRED =>
    case PARTIALLY_REFUNDED =>
    case REFUNDED =>
    case DISPUTED =>
    case CHARGEBACK =>
  }
}
