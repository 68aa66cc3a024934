/** The order/payment record that travels from the source store through the topic into both replicas,
    and the two table rows it is split into. */
module Records {
  import opened Optional
  import opened Sequences

  /** C# `long`. */
  type Int64 = x: int | -0x8000_0000_0000_0000 <= x < 0x8000_0000_0000_0000

  /** C# `int`. */
  type Int32 = x: int | -0x8000_0000 <= x < 0x8000_0000

  /** .NET `DateTime` and `decimal`: the pipeline only copies and compares them. */
  type DateTime(==)
  type Decimal(==)

  /** `OrderPaymentRecord`: the order facet, then the optional payment facet (`null` is `None`). */
  datatype OrderPaymentRecord = OrderPaymentRecord(
    orderId: Int64,
    customerId: Int32,
    orderDate: DateTime,
    totalAmount: Decimal,
    orderState: string,
    paymentId: Option<Int64>,
    paymentDate: Option<DateTime>,
    paymentAmount: Option<Decimal>,
    paymentMethod: Option<string>,
    paymentState: Option<string>)

  /** A row of table `orders` apart from its key `order_id`. */
  datatype OrderRow = OrderRow(customerId: Int32, orderDate: DateTime, totalAmount: Decimal, state: string)

  /** A row of table `payments` apart from its key `payment_id`; a NULL column is `None`. */
  datatype PaymentRow = PaymentRow(
    orderId: Int64,
    paymentDate: Option<DateTime>,
    paymentAmount: Option<Decimal>,
    paymentMethod: Option<string>,
    state: Option<string>)

  /** `r.PaymentId.HasValue` */
  predicate HasPayment(r: OrderPaymentRecord) {
    r.paymentId.Some?
  }

  /** The `orders` row a record is written as, keyed by `order_id`. */
  function OrderEntry(r: OrderPaymentRecord): (Int64, OrderRow) {
    (r.orderId, OrderRow(r.customerId, r.orderDate, r.totalAmount, r.orderState))
  }

  /** The `payments` row a record with a payment is written as, keyed by `payment_id`. */
  function PaymentEntry(r: OrderPaymentRecord): (Int64, PaymentRow)
    requires HasPayment(r)
  {
    (r.paymentId.value, PaymentRow(r.orderId, r.paymentDate, r.paymentAmount, r.paymentMethod, r.paymentState))
  }

  /** The `orders` rows of a batch, in batch order. */
  function OrderEntries(records: seq<OrderPaymentRecord>): seq<(Int64, OrderRow)> {
    seq(|records|, i requires 0 <= i < |records| => OrderEntry(records[i]))
  }

  /** `records.Where(r => r.PaymentId.HasValue).ToList()` */
  function PaymentRecords(records: seq<OrderPaymentRecord>): seq<OrderPaymentRecord> {
    Filter(HasPayment, records)
  }

  /** The `payments` rows of a list of records that all carry a payment, in list order. */
  function PaymentEntries(paymentRecords: seq<OrderPaymentRecord>): seq<(Int64, PaymentRow)>
    requires forall i :: 0 <= i < |paymentRecords| ==> HasPayment(paymentRecords[i])
  {
    seq(|paymentRecords|, i requires 0 <= i < |paymentRecords| && HasPayment(paymentRecords[i]) => PaymentEntry(paymentRecords[i]))
  }

  /** The two tables of one replica: `orders` keyed by `order_id`, `payments` keyed by `payment_id`. */
  datatype Store = Store(orders: map<Int64, OrderRow>, payments: map<Int64, PaymentRow>)
}
