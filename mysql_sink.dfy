/** The MySQL replica writer: the batch overwrites existing rows (`ON DUPLICATE KEY UPDATE col = VALUES(col)`),
    the single-record insert keeps them (`ON DUPLICATE KEY UPDATE order_id = order_id`). */
module MySqlSink {
  import opened Optional
  import opened Records
  import opened Tables
  import opened SqlCommand

  const OrdersConflict :=
    " ON DUPLICATE KEY UPDATE customer_id = VALUES(customer_id), order_date = VALUES(order_date), total_amount = VALUES(total_amount), state = VALUES(state);"
  const PaymentsConflict :=
    " ON DUPLICATE KEY UPDATE order_id = VALUES(order_id), payment_date = VALUES(payment_date), payment_amount = VALUES(payment_amount), payment_method = VALUES(payment_method), state = VALUES(state);"

  /** The tables after a committed batch. */
  function BatchEffect(s: Store, records: seq<OrderPaymentRecord>): Store {
    Store(Upsert(s.orders, OrderEntries(records)), Upsert(s.payments, PaymentEntries(PaymentRecords(records))))
  }

  /** The tables after a single-record insert whose statements both succeed. */
  function SingleEffect(s: Store, record: OrderPaymentRecord): Store {
    Store(InsertIfAbsent(s.orders, [OrderEntry(record)]),
          if HasPayment(record) then InsertIfAbsent(s.payments, [PaymentEntry(record)]) else s.payments)
  }

  /** Committing the same batch twice leaves the tables as committing it once. */
  lemma BatchIdempotent(s: Store, records: seq<OrderPaymentRecord>)
    ensures BatchEffect(BatchEffect(s, records), records) == BatchEffect(s, records)
  {
    UpsertIdempotent(s.orders, OrderEntries(records));
    UpsertIdempotent(s.payments, PaymentEntries(PaymentRecords(records)));
  }

  /** An order row ends up with the values of the batch's last record for that `order_id`, whether the row
      existed before or not. */
  lemma BatchLastRecordWins(s: Store, records: seq<OrderPaymentRecord>, i: nat)
    requires i < |records|
    requires forall j :: i < j < |records| ==> records[j].orderId != records[i].orderId
    ensures records[i].orderId in BatchEffect(s, records).orders
    ensures BatchEffect(s, records).orders[records[i].orderId] == OrderEntry(records[i]).1
  {
    UpsertLastWins(s.orders, OrderEntries(records), i);
  }

  /** A payment row ends up with the values of the last record that carries that `payment_id`. */
  lemma BatchLastPaymentWins(s: Store, records: seq<OrderPaymentRecord>, j: nat)
    requires j < |PaymentRecords(records)|
    requires forall j' :: j < j' < |PaymentRecords(records)| ==>
               PaymentRecords(records)[j'].paymentId != PaymentRecords(records)[j].paymentId
    ensures PaymentRecords(records)[j].paymentId.value in BatchEffect(s, records).payments
    ensures BatchEffect(s, records).payments[PaymentRecords(records)[j].paymentId.value] == PaymentEntry(PaymentRecords(records)[j]).1
  {
    UpsertLastWins(s.payments, PaymentEntries(PaymentRecords(records)), j);
  }

  /** Rows whose key the batch does not carry are left as they were. */
  lemma BatchLeavesOtherRows(s: Store, records: seq<OrderPaymentRecord>, k: Int64)
    requires k in s.orders && forall i :: 0 <= i < |records| ==> records[i].orderId != k
    ensures k in BatchEffect(s, records).orders && BatchEffect(s, records).orders[k] == s.orders[k]
  {
    var rows := OrderEntries(records);
    assert k !in RowKeys(rows) by {
      forall i | 0 <= i < |rows| ensures rows[i].0 != k { assert rows[i].0 == records[i].orderId; }
    }
    UpsertUntouched(s.orders, rows, k);
  }

  /** For an order already in the table, the single-record insert keeps the stored row while the batch
      replaces it with the incoming one. */
  lemma SingleKeepsWhereBatchOverwrites(s: Store, record: OrderPaymentRecord)
    requires record.orderId in s.orders
    ensures record.orderId in SingleEffect(s, record).orders && record.orderId in BatchEffect(s, [record]).orders
    ensures SingleEffect(s, record).orders[record.orderId] == s.orders[record.orderId]
    ensures BatchEffect(s, [record]).orders[record.orderId] == OrderEntry(record).1
  {
    InsertIfAbsentKeepsExisting(s.orders, [OrderEntry(record)], record.orderId);
    UpsertLastWins(s.orders, OrderEntries([record]), 0);
  }

  class MySqlService {
    var orders: map<Int64, OrderRow>
    var payments: map<Int64, PaymentRow>

    function State(): Store
      reads this
    {
      Store(orders, payments)
    }

    constructor (initial: Store)
      ensures State() == initial
    {
      orders, payments := initial.orders, initial.payments;
    }

    /** `InsertOrderPaymentAsync`: the order statement, then the payment statement if the record carries a
        payment, each committed on its own; an existing row is kept. `orderThrows` says the connection or the
        order statement throws, `paymentThrows` that the payment statement throws. */
    method InsertOrderPayment(record: OrderPaymentRecord, orderThrows: bool, paymentThrows: bool)
      returns (outcome: Outcome)
      modifies this
      ensures orderThrows ==> outcome == Threw && State() == old(State())
      ensures !orderThrows && (!HasPayment(record) || !paymentThrows) ==>
                outcome == Completed && State() == SingleEffect(old(State()), record)
      ensures !orderThrows && HasPayment(record) && paymentThrows ==>
                outcome == Threw && orders == SingleEffect(old(State()), record).orders && payments == old(payments)
    {
      if orderThrows {
        return Threw;
      }
      orders := InsertIfAbsent(orders, [OrderEntry(record)]);
      if HasPayment(record) {
        if paymentThrows {
          return Threw;
        }
        payments := InsertIfAbsent(payments, [PaymentEntry(record)]);
      }
      outcome := Completed;
    }

    /** `InsertOrderPaymentsAsync`: an empty batch returns at once; otherwise one transaction runs the
        `orders` upsert and, when some record carries a payment, the `payments` upsert over those records,
        then commits. `failure` says where an exception is thrown: the transaction is rolled back, the
        exception rethrown, and no later statement runs. `sent` is the statements executed, including one
        that throws. */
    method InsertOrderPayments(records: seq<OrderPaymentRecord>, failure: FailurePoint)
      returns (outcome: Outcome, sent: seq<Command>)
      modifies this
      ensures records == [] ==> outcome == Completed && sent == [] && State() == old(State())
      ensures records != [] ==> (outcome == Threw <==> BatchThrows(failure, PaymentRecords(records) != []))
      ensures outcome == Threw ==> State() == old(State())
      ensures records != [] && outcome == Completed ==> State() == BatchEffect(old(State()), records)
      ensures records != [] && failure == OpenFails ==> sent == []
      ensures records != [] && failure == OrdersFail ==> |sent| == 1
      ensures records != [] && failure != OpenFails && failure != OrdersFail ==>
                |sent| == (if PaymentRecords(records) == [] then 1 else 2)
      ensures |sent| >= 1 ==> IsInsert(sent[0], OrdersHead, OrderColumns, OrderValueRows(records), OrdersConflict)
      ensures |sent| == 2 ==>
                IsInsert(sent[1], PaymentsHead, PaymentColumns, PaymentValueRows(PaymentRecords(records)), PaymentsConflict)
    {
      if |records| == 0 {
        return Completed, [];
      }
      var paymentRecords := PaymentRecords(records);
      var commands := BatchStatements(records, OrdersConflict, PaymentsConflict);
      // `OpenAsync` or `BeginTransactionAsync` throws before any statement runs; a statement that throws is the
      // last one sent.
      sent := if failure == OpenFails then [] else if failure == OrdersFail then commands[..1] else commands;
      if BatchThrows(failure, |paymentRecords| > 0) {
        // `RollbackAsync`, then the rethrow: nothing of the transaction remains.
        outcome := Threw;
      } else {
        orders, payments := Upsert(orders, OrderEntries(records)), Upsert(payments, PaymentEntries(paymentRecords));
        outcome := Completed;
      }
    }
  }
}
