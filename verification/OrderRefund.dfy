/** The refund of a paid order that nobody accepted, and the order payments that precede it. */
module OrderRefunds {
  import opened Outcomes
  import opened WalletState

  datatype Fault = NOT_REFUNDABLE | NOT_CAPTURED | ORDER_NOT_USD | WALLET_MISSING | WALLET_NOT_USD | ORDER_CHANGED | UNIQUE_VIOLATION

  datatype RefundInput = RefundInput(reference: string, reason: string, responsibility: Responsibility, actor: Option<Id>)

  /** Work that has not been handed in is cancelled with its order. */
  function Cancelled(assignments: map<Id, Assignment>, orderId: Id): map<Id, Assignment> {
    map id | id in assignments ::
      var a := assignments[id];
      if a.orderId == orderId && a.status in {ASSIGNED, IN_PROGRESS} then a.(status := CANCELLED, version := a.version + 1) else a
  }

  function Closed(o: Order, input: RefundInput): Order {
    o.(status := ORDER_REFUNDED, paymentStatus := PAYMENT_REFUNDED, refundResponsibility := Some(input.responsibility),
       version := o.version + 1)
  }

  function RefundRow(orderId: Id, o: Order, walletId: Id, input: RefundInput): Transaction {
    Transaction(walletId, o.amount, USD, REFUND, TextReference(input.reference), None, None, None, RefundOf(orderId))
  }

  /** `o` is the order as the caller read it, `walletId` the wallet its organisation owns. */
  function Refund(db: Database, orderId: Id, o: Order, walletId: Id, input: RefundInput): Result<Database, Fault> {
    if !(o.status.PAID? || o.status.SUBMITTED?) then Err(NOT_REFUNDABLE)
    else if !o.paymentStatus.PAYMENT_PAID? then Err(NOT_CAPTURED)
    else if o.currency != USD then Err(ORDER_NOT_USD)
    else if walletId !in db.wallets || db.wallets[walletId].organizationId != Some(o.organizationId) then Err(WALLET_MISSING)
    else if db.wallets[walletId].currency != USD then Err(WALLET_NOT_USD)
    else if orderId !in db.orders || db.orders[orderId].version != o.version || db.orders[orderId].status != o.status
            || !db.orders[orderId].paymentStatus.PAYMENT_PAID? then Err(ORDER_CHANGED)
    else
      var row := RefundRow(orderId, o, walletId, input);
      if Collides(db.ledger, row) then Err(UNIQUE_VIOLATION)
      else
        var w := db.wallets[walletId];
        Ok(db.(wallets := db.wallets[walletId := w.(available := w.available + o.amount, version := w.version + 1)],
               orders := db.orders[orderId := Closed(db.orders[orderId], input)],
               assignments := Cancelled(db.assignments, orderId),
               ledger := db.ledger + [row],
               orderEvents := db.orderEvents
                              + [RefundIssued(orderId, input.actor, input.reason, input.responsibility, |db.ledger|)]))
  }

  /** A refund goes through exactly for a paid USD order that nobody accepted, as it stands, into its organisation's wallet. */
  lemma RefundsExactly(db: Database, orderId: Id, o: Order, walletId: Id, input: RefundInput)
    ensures Refund(db, orderId, o, walletId, input).Ok? <==>
              && (o.status.PAID? || o.status.SUBMITTED?) && o.paymentStatus.PAYMENT_PAID? && o.currency == "USD"
              && walletId in db.wallets && db.wallets[walletId].organizationId == Some(o.organizationId)
              && db.wallets[walletId].currency == "USD"
              && orderId in db.orders && db.orders[orderId].version == o.version && db.orders[orderId].status == o.status
              && db.orders[orderId].paymentStatus.PAYMENT_PAID?
              && forall i :: 0 <= i < |db.ledger| ==> db.ledger[i].reference != TextReference(input.reference)
  {
  }

  /** It pays the wallet what the order cost, and closes the order under its responsibility. */
  lemma RefundPays(db: Database, orderId: Id, o: Order, walletId: Id, input: RefundInput)
    requires Refund(db, orderId, o, walletId, input).Ok?
    ensures walletId in db.wallets && orderId in db.orders
    ensures var db' := Refund(db, orderId, o, walletId, input).value; var w := db.wallets[walletId];
            && db'.wallets == db.wallets[walletId := w.(available := w.available + o.amount, version := w.version + 1)]
            && db'.orders == db.orders[orderId := db.orders[orderId].(status := ORDER_REFUNDED, paymentStatus := PAYMENT_REFUNDED,
                                                                      refundResponsibility := Some(input.responsibility),
                                                                      version := db.orders[orderId].version + 1)]
            && |db'.ledger| == |db.ledger| + 1 && db'.ledger[..|db.ledger|] == db.ledger
            && db'.ledger[|db.ledger|].reference == TextReference(input.reference) && db'.ledger[|db.ledger|].currency == "USD"
            && db'.attempts == db.attempts && db'.cases == db.cases && db'.events == db.events
            && db'.reservations == db.reservations
  {
    hide Collides, Cancelled;
  }

  /** A refund cancels exactly the open work on its order, and its event names the row that paid the money back. */
  lemma RefundClosesOrder(db: Database, orderId: Id, o: Order, walletId: Id, input: RefundInput, id: Id)
    requires Refund(db, orderId, o, walletId, input).Ok? && id in db.assignments
    ensures var db' := Refund(db, orderId, o, walletId, input).value;
            && db'.assignments.Keys == db.assignments.Keys
            && (db'.assignments[id] != db.assignments[id]
                <==> db.assignments[id].orderId == orderId && db.assignments[id].status in {ASSIGNED, IN_PROGRESS})
            && (db'.assignments[id].orderId == orderId ==> db'.assignments[id].status !in {ASSIGNED, IN_PROGRESS})
            && var event := db'.orderEvents[|db.orderEvents|];
               && db'.orderEvents == db.orderEvents + [event] && event.orderId == orderId && event.refundTransactionId < |db'.ledger|
               && var row := db'.ledger[event.refundTransactionId];
                  row.kind.REFUND? && row.walletId == walletId && row.amount == o.amount && row.description == RefundOf(orderId)
  {
    hide Collides;
    var db' := Refund(db, orderId, o, walletId, input).value;
    assert db'.assignments == Cancelled(db.assignments, orderId);
    assert db'.orderEvents[|db.orderEvents|].refundTransactionId == |db.ledger|;
  }

  /** Spending is blocked while a dispute of the wallet has uncovered exposure. */
  predicate SpendBlocked(db: Database, walletId: Id) {
    exists k :: 0 <= k < |db.cases| && db.cases[k].walletId == walletId && !db.cases[k].status.WON? && db.cases[k].exposure > 0
  }

  /** Moves available money to reserved for one order. */
  function Reserve(db: Database, walletId: Id, orderId: Id, amount: int): Database {
    if amount <= 0 || walletId !in db.wallets || db.wallets[walletId].currency != USD || SpendBlocked(db, walletId)
       || db.wallets[walletId].available < amount then db
    else
      var w := db.wallets[walletId];
      var row := Transaction(walletId, -amount, USD, RESERVATION_ENTRY, NoReference, None, None, None, ReservationOf(orderId));
      db.(wallets := db.wallets[walletId := w.(available := w.available - amount, reserved := w.reserved + amount,
                                               version := w.version + 1)],
          ledger := db.ledger + [row],
          reservations := db.reservations + [OrderReservation(orderId, walletId, amount, false)])
  }

  /** Pays one order from what it reserved. */
  function PayFromReserved(db: Database, k: nat): Database {
    if k >= |db.reservations| || db.reservations[k].paid then db
    else
      var r := db.reservations[k];
      if r.walletId !in db.wallets || db.wallets[r.walletId].currency != USD || SpendBlocked(db, r.walletId)
         || db.wallets[r.walletId].reserved < r.amount then db
      else
        var w := db.wallets[r.walletId];
        var row := Transaction(r.walletId, -r.amount, USD, PURCHASE, NoReference, None, None, None, PaymentOf(r.orderId));
        db.(wallets := db.wallets[r.walletId := w.(reserved := w.reserved - r.amount, version := w.version + 1)],
            ledger := db.ledger + [row],
            reservations := db.reservations[k := r.(paid := true)])
  }
}
