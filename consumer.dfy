/** The consuming side of the pipeline: one message at a time into an in-memory batch (committing the offset
    after the record is buffered), and a flush that hands the batch to PostgreSQL and then to MySQL. */
module OrderPaymentConsumer {
  import opened Optional
  import opened Records
  import PostgresSink
  import MySqlSink
  import opened SqlCommand

  /** `_batchSize`: a flush does not wait for the interval once the batch holds this many records. */
  const BatchSize := 2000

  /** .NET `Char.IsWhiteSpace`: the Unicode space separators plus U+0009..U+000D, U+0085, U+2028 and U+2029. */
  predicate IsWhiteSpace(c: char) {
    var n := c as int;
    (0x09 <= n <= 0x0D) || n == 0x20 || n == 0x85 || n == 0xA0 || n == 0x1680 || (0x2000 <= n <= 0x200A)
    || n == 0x2028 || n == 0x2029 || n == 0x202F || n == 0x205F || n == 0x3000
  }

  /** Scans `s` from the front and stops at the first character that is not white space. */
  function AllWhiteSpace(s: string): (r: bool)
    ensures r <==> forall i :: 0 <= i < |s| ==> IsWhiteSpace(s[i])
  {
    if s == [] then true
    else if !IsWhiteSpace(s[0]) then false
    else
      var r := AllWhiteSpace(s[1..]);
      assert forall i :: 1 <= i < |s| ==> s[i] == s[1..][i - 1];
      r
  }

  /** `string.IsNullOrWhiteSpace`, with `null` as `None`. */
  function IsNullOrWhiteSpace(value: Option<string>): (r: bool)
    ensures r <==> value.None? || forall i :: 0 <= i < |value.value| ==> IsWhiteSpace(value.value[i])
  {
    match value
    case None => true
    case Some(s) => AllWhiteSpace(s)
  }

  /** What `JsonSerializer.Deserialize<OrderPaymentRecord>` does with one message text. */
  datatype Deserialized = Parsed(record: OrderPaymentRecord) | NullRecord | Malformed

  /** One call of `consumer.Consume`: it throws, or it returns the message at an offset, whose value may be null. */
  datatype Delivery = ConsumeThrew | Delivered(offset: nat, value: Option<string>)

  datatype ConsumeOutcome = ConsumeFailed | Blank | NoRecord | DeserializeFailed | Added(offsetCommitted: bool)

  datatype FlushOutcome = Waiting | NothingToFlush | Written | PostgresFailed | MySqlFailed

  /** The record a delivery puts into the batch, if any. */
  function Accepted(delivery: Delivery, deserialize: string -> Deserialized): (r: Option<OrderPaymentRecord>)
    ensures r.Some? <==> delivery.Delivered? && !IsNullOrWhiteSpace(delivery.value)
                         && deserialize(delivery.value.value).Parsed?
    ensures r.Some? ==> r.value == deserialize(delivery.value.value).record
  {
    if delivery.ConsumeThrew? || IsNullOrWhiteSpace(delivery.value) then None
    else match deserialize(delivery.value.value)
      case Parsed(record) => Some(record)
      case _ => None
  }

  function OptionToSeq<T>(o: Option<T>): seq<T> {
    if o.Some? then [o.value] else []
  }

  /** The records a run of deliveries adds to the batch, in delivery order. */
  function AcceptedRecords(deliveries: seq<Delivery>, deserialize: string -> Deserialized): seq<OrderPaymentRecord>
  {
    if deliveries == [] then []
    else
      var n := |deliveries| - 1;
      AcceptedRecords(deliveries[..n], deserialize) + OptionToSeq(Accepted(deliveries[n], deserialize))
  }

  /** The offsets a run of deliveries commits: those whose record was buffered and whose `Commit` did not throw. */
  function CommittedOffsets(deliveries: seq<Delivery>, deserialize: string -> Deserialized, commitThrows: seq<bool>): set<nat>
    requires |commitThrows| == |deliveries|
  {
    if deliveries == [] then {}
    else
      var n := |deliveries| - 1;
      CommittedOffsets(deliveries[..n], deserialize, commitThrows[..n])
        + (if Accepted(deliveries[n], deserialize).Some? && !commitThrows[n] then {deliveries[n].offset} else {})
  }

  /** One more delivery extends what a run buffers and commits by that delivery's own contribution. */
  lemma ConsumedPrefix(deliveries: seq<Delivery>, deserialize: string -> Deserialized, commitThrows: seq<bool>, k: nat)
    requires |commitThrows| == |deliveries| && k < |deliveries|
    ensures AcceptedRecords(deliveries[..k + 1], deserialize)
            == AcceptedRecords(deliveries[..k], deserialize) + OptionToSeq(Accepted(deliveries[k], deserialize))
    ensures CommittedOffsets(deliveries[..k + 1], deserialize, commitThrows[..k + 1])
            == CommittedOffsets(deliveries[..k], deserialize, commitThrows[..k])
               + (if Accepted(deliveries[k], deserialize).Some? && !commitThrows[k] then {deliveries[k].offset} else {})
  {
    assert deliveries[..k + 1][..k] == deliveries[..k];
    assert commitThrows[..k + 1][..k] == commitThrows[..k];
  }

  /** Every buffered record was parsed from some delivery, and there are at most as many as deliveries. */
  lemma {:induction false} AcceptedRecordsFromDeliveries(deliveries: seq<Delivery>, deserialize: string -> Deserialized)
    ensures |AcceptedRecords(deliveries, deserialize)| <= |deliveries|
    ensures forall j :: 0 <= j < |AcceptedRecords(deliveries, deserialize)| ==>
              exists i :: 0 <= i < |deliveries| && Accepted(deliveries[i], deserialize) == Some(AcceptedRecords(deliveries, deserialize)[j])
  {
    if deliveries != [] {
      var n := |deliveries| - 1;
      var init := AcceptedRecords(deliveries[..n], deserialize);
      AcceptedRecordsFromDeliveries(deliveries[..n], deserialize);
      var all := AcceptedRecords(deliveries, deserialize);
      forall j | 0 <= j < |all|
        ensures exists i :: 0 <= i < |deliveries| && Accepted(deliveries[i], deserialize) == Some(all[j])
      {
        if j < |init| {
          var i :| 0 <= i < n && Accepted(deliveries[..n][i], deserialize) == Some(init[j]);
          assert deliveries[..n][i] == deliveries[i];
        } else {
          assert Accepted(deliveries[n], deserialize) == Some(all[j]);
        }
      }
    }
  }

  /** Deliveries that are all null or blank, or that all fail to consume, buffer nothing. */
  lemma {:induction false} BlankDeliveriesBufferNothing(deliveries: seq<Delivery>, deserialize: string -> Deserialized)
    requires forall i :: 0 <= i < |deliveries| ==> deliveries[i].ConsumeThrew? || IsNullOrWhiteSpace(deliveries[i].value)
    ensures AcceptedRecords(deliveries, deserialize) == []
  {
    if deliveries != [] {
      BlankDeliveriesBufferNothing(deliveries[..|deliveries| - 1], deserialize);
    }
  }

  /** At-least-once: an offset is committed only for a delivery whose record went into the batch. */
  lemma {:induction false} CommittedOffsetsWereBuffered(deliveries: seq<Delivery>, deserialize: string -> Deserialized, commitThrows: seq<bool>)
    requires |commitThrows| == |deliveries|
    ensures forall p :: p in CommittedOffsets(deliveries, deserialize, commitThrows) ==>
              exists i :: 0 <= i < |deliveries| && deliveries[i].Delivered? && deliveries[i].offset == p
                          && Accepted(deliveries[i], deserialize).Some? && !commitThrows[i]
  {
    if deliveries != [] {
      var n := |deliveries| - 1;
      CommittedOffsetsWereBuffered(deliveries[..n], deserialize, commitThrows[..n]);
      forall p | p in CommittedOffsets(deliveries, deserialize, commitThrows)
        ensures exists i :: 0 <= i < |deliveries| && deliveries[i].Delivered? && deliveries[i].offset == p
                            && Accepted(deliveries[i], deserialize).Some? && !commitThrows[i]
      {
        if p in CommittedOffsets(deliveries[..n], deserialize, commitThrows[..n]) {
          var i :| 0 <= i < n && deliveries[..n][i].Delivered? && deliveries[..n][i].offset == p
                   && Accepted(deliveries[..n][i], deserialize).Some? && !commitThrows[..n][i];
          assert deliveries[..n][i] == deliveries[i] && commitThrows[..n][i] == commitThrows[i];
        } else {
          assert deliveries[n].Delivered? && deliveries[n].offset == p;
        }
      }
    }
  }

  /** The condition that ends the wait of one flush round: a full batch, or the 30-second interval elapsed. */
  predicate ReadyToFlush(count: nat, intervalElapsed: bool) {
    count >= BatchSize || intervalElapsed
  }

  /** No buffered record is lost or duplicated: every record ever buffered was either handed to the writers or
      is still in the bag, in order. */
  predicate Conserved(accepted: seq<OrderPaymentRecord>, drained: seq<OrderPaymentRecord>, bag: seq<OrderPaymentRecord>) {
    accepted == drained + bag
  }

  /** The drain of the batch as written: `ToList` takes a snapshot, then `Clear` empties the bag, including the
      records the consuming loop added between the two calls (`late`). The result is what goes to the writers
      and what stays in the bag. */
  function SnapshotThenClear(bag: seq<OrderPaymentRecord>, late: seq<OrderPaymentRecord>): (seq<OrderPaymentRecord>, seq<OrderPaymentRecord>) {
    (bag, [])
  }

  /** The drain as intended: only the records in the snapshot leave the bag (for instance by swapping in a
      fresh bag, or taking items one by one); the records added inside the window stay for the next round. */
  function SnapshotOnly(bag: seq<OrderPaymentRecord>, late: seq<OrderPaymentRecord>): (r: (seq<OrderPaymentRecord>, seq<OrderPaymentRecord>))
    ensures r.0 == bag && r.1 == late
    ensures r.0 + r.1 == bag + late
  {
    (bag, late)
  }

  /** A record added inside the window is neither written nor kept by the drain as written, so the bag no
      longer accounts for every buffered record; its offset was already committed, so it is never delivered
      again. The intended drain accounts for all of them. */
  lemma SnapshotThenClearLosesLateRecords(drained: seq<OrderPaymentRecord>, bag: seq<OrderPaymentRecord>, late: seq<OrderPaymentRecord>)
    requires late != []
    ensures !Conserved(drained + bag + late, drained + SnapshotThenClear(bag, late).0, SnapshotThenClear(bag, late).1)
    ensures Conserved(drained + bag + late, drained + SnapshotOnly(bag, late).0, SnapshotOnly(bag, late).1)
  {
    var (taken, kept) := SnapshotThenClear(bag, late);
    assert |drained + taken + kept| < |drained + bag + late|;
  }

  /** `KafkaOrderPaymentConsumerService`. `batch` is the bag of buffered records, `committed` the offsets
      committed to the broker. The ghost state records every record ever buffered (`accepted`), the offset of
      each of them (`acceptedOffsets`, in step), and every record handed to the writers (`drained`). */
  class KafkaOrderPaymentConsumerService {
    const postgres: PostgresSink.PostgresSqlService
    const mySql: MySqlSink.MySqlService
    var batch: seq<OrderPaymentRecord>
    var committed: set<nat>
    ghost var accepted: seq<OrderPaymentRecord>
    ghost var acceptedOffsets: seq<nat>
    ghost var drained: seq<OrderPaymentRecord>

    /** No buffered record is lost or duplicated, and an offset is committed only after its record was buffered. */
    ghost predicate Valid()
      reads this
    {
      Conserved(accepted, drained, batch)
      && |acceptedOffsets| == |accepted|
      && forall p :: p in committed ==> p in acceptedOffsets
    }

    constructor (postgres: PostgresSink.PostgresSqlService, mySql: MySqlSink.MySqlService)
      ensures Valid() && this.postgres == postgres && this.mySql == mySql
      ensures batch == [] && committed == {}
    {
      this.postgres, this.mySql := postgres, mySql;
      batch, committed := [], {};
      accepted, acceptedOffsets, drained := [], [], [];
    }

    /** One turn of the inner consuming loop. `commitThrows` says `consumer.Commit` throws after the record was
        added; every exception is logged and the loop goes on. */
    method ConsumeStep(delivery: Delivery, deserialize: string -> Deserialized, commitThrows: bool)
      returns (outcome: ConsumeOutcome)
      requires Valid()
      modifies this
      ensures Valid() && drained == old(drained)
      ensures batch == old(batch) + OptionToSeq(Accepted(delivery, deserialize))
      ensures acceptedOffsets
              == old(acceptedOffsets) + (if Accepted(delivery, deserialize).Some? then [delivery.offset] else [])
      ensures committed == old(committed)
                + (if Accepted(delivery, deserialize).Some? && !commitThrows then {delivery.offset} else {})
      ensures outcome == (if delivery.ConsumeThrew? then ConsumeFailed
                          else if IsNullOrWhiteSpace(delivery.value) then Blank
                          else match deserialize(delivery.value.value)
                            case NullRecord => NoRecord
                            case Malformed => DeserializeFailed
                            case Parsed(_) => Added(!commitThrows))
    {
      if delivery.ConsumeThrew? {
        return ConsumeFailed;
      }
      if IsNullOrWhiteSpace(delivery.value) {
        return Blank;
      }
      match deserialize(delivery.value.value)
      case Malformed =>
        outcome := DeserializeFailed;
      case NullRecord =>
        outcome := NoRecord;
      case Parsed(record) =>
        batch := batch + [record];
        accepted := accepted + [record];
        acceptedOffsets := acceptedOffsets + [delivery.offset];
        if !commitThrows {
          committed := committed + {delivery.offset};
        }
        outcome := Added(!commitThrows);
    }

    /** The inner consuming loop over a run of deliveries. */
    method ConsumeMessages(deliveries: seq<Delivery>, deserialize: string -> Deserialized, commitThrows: seq<bool>)
      requires Valid() && |commitThrows| == |deliveries|
      modifies this
      ensures Valid() && drained == old(drained)
      ensures batch == old(batch) + AcceptedRecords(deliveries, deserialize)
      ensures committed == old(committed) + CommittedOffsets(deliveries, deserialize, commitThrows)
    {
      for k := 0 to |deliveries|
        invariant Valid() && drained == old(drained)
        invariant batch == old(batch) + AcceptedRecords(deliveries[..k], deserialize)
        invariant committed == old(committed) + CommittedOffsets(deliveries[..k], deserialize, commitThrows[..k])
      {
        var _ := ConsumeStep(deliveries[k], deserialize, commitThrows[k]);
        ConsumedPrefix(deliveries, deserialize, commitThrows, k);
      }
      assert deliveries[..|deliveries|] == deliveries;
      assert commitThrows[..|commitThrows|] == commitThrows;
    }

    /** One round of `ProcessBatchAsync` once its wait is over or still going: `intervalElapsed` says the
        30-second delay has completed. A non-empty batch is drained and written to PostgreSQL, then, only if
        that did not throw, to MySQL; an exception is logged and the drained records are not retried.
        `lateDeliveries` are the deliveries the consuming loop handles between the snapshot and its removal
        (with their `deserialize` and `commitThrows`); they are buffered and committed as usual. The drain is
        the intended `SnapshotOnly`, which keeps their records (`SnapshotThenClear`, the drain as written,
        loses them). `postgresFailure` and `mySqlFailure` say where each writer throws. */
    method FlushStep(intervalElapsed: bool,
                     lateDeliveries: seq<Delivery>, deserialize: string -> Deserialized, commitThrows: seq<bool>,
                     postgresFailure: FailurePoint, mySqlFailure: FailurePoint)
      returns (outcome: FlushOutcome)
      requires Valid() && |commitThrows| == |lateDeliveries|
      modifies this, postgres, mySql
      ensures Valid()
      ensures !ReadyToFlush(|old(batch)|, intervalElapsed) ==>
                outcome == Waiting && batch == old(batch) && accepted == old(accepted) && committed == old(committed)
                && drained == old(drained) && acceptedOffsets == old(acceptedOffsets)
                && postgres.State() == old(postgres.State()) && mySql.State() == old(mySql.State())
      ensures ReadyToFlush(|old(batch)|, intervalElapsed) && old(batch) == [] ==>
                outcome == NothingToFlush && batch == [] && accepted == old(accepted) && committed == old(committed)
                && drained == old(drained) && acceptedOffsets == old(acceptedOffsets)
                && postgres.State() == old(postgres.State()) && mySql.State() == old(mySql.State())
      ensures ReadyToFlush(|old(batch)|, intervalElapsed) && old(batch) != [] ==>
                batch == AcceptedRecords(lateDeliveries, deserialize)
                && accepted == old(accepted) + batch && drained == old(drained) + old(batch)
                && committed == old(committed) + CommittedOffsets(lateDeliveries, deserialize, commitThrows)
      ensures ReadyToFlush(|old(batch)|, intervalElapsed) && old(batch) != []
              && BatchThrows(postgresFailure, PaymentRecords(old(batch)) != []) ==>
                outcome == PostgresFailed
                && postgres.State() == old(postgres.State()) && mySql.State() == old(mySql.State())
      ensures ReadyToFlush(|old(batch)|, intervalElapsed) && old(batch) != []
              && !BatchThrows(postgresFailure, PaymentRecords(old(batch)) != []) ==>
                postgres.State() == PostgresSink.BatchEffect(old(postgres.State()), old(batch))
      ensures ReadyToFlush(|old(batch)|, intervalElapsed) && old(batch) != []
              && !BatchThrows(postgresFailure, PaymentRecords(old(batch)) != [])
              && BatchThrows(mySqlFailure, PaymentRecords(old(batch)) != []) ==>
                outcome == MySqlFailed && mySql.State() == old(mySql.State())
      ensures ReadyToFlush(|old(batch)|, intervalElapsed) && old(batch) != []
              && !BatchThrows(postgresFailure, PaymentRecords(old(batch)) != [])
              && !BatchThrows(mySqlFailure, PaymentRecords(old(batch)) != []) ==>
                outcome == Written && mySql.State() == MySqlSink.BatchEffect(old(mySql.State()), old(batch))
    {
      if !ReadyToFlush(|batch|, intervalElapsed) {
        return Waiting;
      }
      if |batch| == 0 {
        return NothingToFlush;
      }
      var recordsToProcess := Drain(lateDeliveries, deserialize, commitThrows);
      outcome := WriteSnapshot(recordsToProcess, postgresFailure, mySqlFailure);
    }

    /** The drain under the semaphore: the snapshot (`ToList`), the deliveries the consuming loop handles
        meanwhile, then the removal of the snapshot alone. */
    method Drain(lateDeliveries: seq<Delivery>, deserialize: string -> Deserialized, commitThrows: seq<bool>)
      returns (recordsToProcess: seq<OrderPaymentRecord>)
      requires Valid() && |commitThrows| == |lateDeliveries|
      modifies this
      ensures Valid()
      ensures recordsToProcess == old(batch)
      ensures batch == AcceptedRecords(lateDeliveries, deserialize)
      ensures accepted == old(accepted) + batch && drained == old(drained) + old(batch)
      ensures committed == old(committed) + CommittedOffsets(lateDeliveries, deserialize, commitThrows)
    {
      recordsToProcess := batch;
      ConsumeMessages(lateDeliveries, deserialize, commitThrows);
      var late := batch[|recordsToProcess|..];
      assert batch == recordsToProcess + late;
      var handedOver, kept := SnapshotOnly(recordsToProcess, late).0, SnapshotOnly(recordsToProcess, late).1;
      batch := kept;
      drained := drained + handedOver;
    }

    /** The writes of one drained batch: PostgreSQL first, then MySQL only if PostgreSQL did not throw. */
    method WriteSnapshot(recordsToProcess: seq<OrderPaymentRecord>,
                         postgresFailure: FailurePoint, mySqlFailure: FailurePoint)
      returns (outcome: FlushOutcome)
      requires recordsToProcess != []
      modifies postgres, mySql
      ensures BatchThrows(postgresFailure, PaymentRecords(recordsToProcess) != []) ==>
                outcome == PostgresFailed
                && postgres.State() == old(postgres.State()) && mySql.State() == old(mySql.State())
      ensures !BatchThrows(postgresFailure, PaymentRecords(recordsToProcess) != []) ==>
                postgres.State() == PostgresSink.BatchEffect(old(postgres.State()), recordsToProcess)
      ensures !BatchThrows(postgresFailure, PaymentRecords(recordsToProcess) != [])
              && BatchThrows(mySqlFailure, PaymentRecords(recordsToProcess) != []) ==>
                outcome == MySqlFailed && mySql.State() == old(mySql.State())
      ensures !BatchThrows(postgresFailure, PaymentRecords(recordsToProcess) != [])
              && !BatchThrows(mySqlFailure, PaymentRecords(recordsToProcess) != []) ==>
                outcome == Written && mySql.State() == MySqlSink.BatchEffect(old(mySql.State()), recordsToProcess)
    {
      var postgresOutcome, _ := postgres.InsertOrderPayments(recordsToProcess, postgresFailure);
      if postgresOutcome == Threw {
        return PostgresFailed;
      }
      var mySqlOutcome, _ := mySql.InsertOrderPayments(recordsToProcess, mySqlFailure);
      if mySqlOutcome == Threw {
        return MySqlFailed;
      }
      outcome := Written;
    }
  }
}
