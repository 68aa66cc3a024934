/** The PostgreSQL replica writer: `orders` and `payments` are insert-if-absent (`ON CONFLICT ... DO NOTHING`). */
module PostgresSink {
  import opened Optional
  import opened Records
  import opened Tables
  import opened SqlCommand

  const OrdersConflict := " ON CONFLICT (order_id) DO NOTHING;"
  const PaymentsConflict := " ON CONFLICT (payment_id) DO NOTHING;"

  /** The tables after a committed batch. */
  function BatchEffect(s: Store, records: seq<OrderPaymentRecord>): Store {
    Store(InsertIfAbsent(s.orders, OrderEntries(records)), InsertIfAbsent(s.payments, PaymentEntries(PaymentRecords(records))))
  }

  /** The tables after a single-record insert whose statements both succeed. */
  function SingleEffect(s: Store, record: OrderPaymentRecord): Store {
    Store(InsertIfAbsent(s.orders, [OrderEntry(record)]),
          if HasPayment(record) then InsertIfAbsent(s.payments, [PaymentEntry(record)]) else s.payments)
  }

  /** Committing the same batch twice leaves the tables as committing it once. */
  lemma BatchIdempotent(s: Store, records: seq<OrderPaymentRecord>)
    ensures BatchEffect(BatchEffect(s, records), records) == BatchEffect(s, records)
  {
    InsertIfAbsentIdempotent(s.orders, OrderEntries(records));
    InsertIfAbsentIdempotent(s.payments, PaymentEntries(PaymentRecords(records)));
  }

  /** A batch never changes a row that is already there; afterwards every record's order is present and
      so is every payment the batch carries. */
  lemma BatchKeepsExistingRows(s: Store, records: seq<OrderPaymentRecord>)
    ensures forall k :: k in s.orders ==> k in BatchEffect(s, records).orders && BatchEffect(s, records).orders[k] == s.orders[k]
    ensures forall k :: k in s.payments ==> k in BatchEffect(s, records).payments && BatchEffect(s, records).payments[k] == s.payments[k]
    ensures forall i :: 0 <= i < |records| ==> records[i].orderId in BatchEffect(s, records).orders
    ensures forall i :: 0 <= i < |records| && HasPayment(records[i]) ==> records[i].paymentId.value in BatchEffect(s, records).payments
  {
    var orderRows, paymentRows := OrderEntries(records), PaymentEntries(PaymentRecords(records));
    forall k | k in s.orders ensures k in BatchEffect(s, records).orders && BatchEffect(s, records).orders[k] == s.orders[k] {
      InsertIfAbsentKeepsExisting(s.orders, orderRows, k);
    }
    forall k | k in s.payments ensures k in BatchEffect(s, records).payments && BatchEffect(s, records).payments[k] == s.payments[k] {
      InsertIfAbsentKeepsExisting(s.payments, paymentRows, k);
    }
    InsertIfAbsentKeys(s.orders, orderRows);
    InsertIfAbsentKeys(s.payments, paymentRows);
    forall i | 0 <= i < |records| ensures records[i].orderId in RowKeys(orderRows) {
      assert orderRows[i].0 == records[i].orderId;
    }
    forall i | 0 <= i < |records| && HasPayment(records[i]) ensures records[i].paymentId.value in RowKeys(paymentRows) {
      var j := PaymentIndex(records, i);
      assert paymentRows[j].0 == records[i].paymentId.value;
    }
  }

  /** A record with a payment has a position in the filtered payment list. */
  lemma PaymentIndex(records: seq<OrderPaymentRecord>, i: nat) returns (j: nat)
    requires i < |records| && HasPayment(records[i])
    ensures j < |PaymentRecords(records)| && PaymentRecords(records)[j] == records[i]
  {
    var ps := PaymentRecords(records);
    assert records[i] in ps;
    j :| 0 <= j < |ps| && ps[j] == records[i];
  }

  /** A record whose order row is new is stored as the first record of the batch with that `order_id`;
      the PostgreSQL replica is not last-write-wins. */
  lemma BatchFirstRecordWins(s: Store, records: seq<OrderPaymentRecord>, i: nat)
    requires i < |records| && records[i].orderId !in s.orders
    requires forall j :: 0 <= j < i ==> records[j].orderId != records[i].orderId
    ensures records[i].orderId in BatchEffect(s, records).orders
    ensures BatchEffect(s, records).orders[records[i].orderId] == OrderEntry(records[i]).1
  {
    InsertIfAbsentFirstWins(s.orders, OrderEntries(records), i);
  }

  class PostgresSqlService {
    var orders: map<Int64, OrderRow>
    var payments: map<Int64, PaymentRow>

    function State(): Store
      reads this
    {
      Store(orders, payments)
    }

    constructor (initial: Store)
      ensures State() == initial
    {
      orders, payments := initial.orders, initial.payments;
    }

    /** `InsertOrderPaymentAsync`: the order statement, then the payment statement if the record carries a
        payment, each committed on its own. `orderThrows` says the connection or the order statement throws,
        `paymentThrows` that the payment statement throws; the exception then leaves the call. */
    method InsertOrderPayment(record: OrderPaymentRecord, orderThrows: bool, paymentThrows: bool)
      returns (outcome: Outcome)
      modifies this
      ensures orderThrows ==> outcome == Threw && State() == old(State())
      ensures !orderThrows && (!HasPayment(record) || !paymentThrows) ==>
                outcome == Completed && State() == SingleEffect(old(State()), record)
      ensures !orderThrows && HasPayment(record) && paymentThrows ==>
                outcome == Threw && orders == SingleEffect(old(State()), record).orders && payments == old(payments)
    {
      if orderThrows {
        return Threw;
      }
      orders := InsertIfAbsent(orders, [OrderEntry(record)]);
      if HasPayment(record) {
        if paymentThrows {
          return Threw;
        }
        payments := InsertIfAbsent(payments, [PaymentEntry(record)]);
      }
      outcome := Completed;
    }

    /** `InsertOrderPaymentsAsync`: an empty batch returns at once; otherwise one transaction runs the
        `orders` statement and, when some record carries a payment, the `payments` statement over those records,
        then commits. `failure` says where an exception is thrown: the transaction is rolled back, the
        exception rethrown, and no later statement runs. `sent` is the statements executed, including one
        that throws. */
    method InsertOrderPayments(records: seq<OrderPaymentRecord>, failure: FailurePoint)
      returns (outcome: Outcome, sent: seq<Command>)
      modifies this
      ensures records == [] ==> outcome == Completed && sent == [] && State() == old(State())
      ensures records != [] ==> (outcome == Threw <==> BatchThrows(failure, PaymentRecords(records) != []))
      ensures outcome == Threw ==> State() == old(State())
      ensures records != [] && outcome == Completed ==> State() == BatchEffect(old(State()), records)
      ensures records != [] && failure == OpenFails ==> sent == []
      ensures records != [] && failure == OrdersFail ==> |sent| == 1
      ensures records != [] && failure != OpenFails && failure != OrdersFail ==>
                |sent| == (if PaymentRecords(records) == [] then 1 else 2)
      ensures |sent| >= 1 ==> IsInsert(sent[0], OrdersHead, OrderColumns, OrderValueRows(records), OrdersConflict)
      ensures |sent| == 2 ==>
                IsInsert(sent[1], PaymentsHead, PaymentColumns, PaymentValueRows(PaymentRecords(records)), PaymentsConflict)
    {
      if |records| == 0 {
        return Completed, [];
      }
      var paymentRecords := PaymentRecords(records);
      var commands := BatchStatements(records, OrdersConflict, PaymentsConflict);
      // `OpenAsync` or `BeginTransactionAsync` throws before any statement runs; a statement that throws is the
      // last one sent.
      sent := if failure == OpenFails then [] else if failure == OrdersFail then commands[..1] else commands;
      if BatchThrows(failure, |paymentRecords| > 0) {
        // `RollbackAsync`, then the rethrow: nothing of the transaction remains.
        outcome := Threw;
      } else {
        orders, payments := InsertIfAbsent(orders, OrderEntries(records)), InsertIfAbsent(payments, PaymentEntries(paymentRecords));
        outcome := Completed;
      }
    }
  }
}
