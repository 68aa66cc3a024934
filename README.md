# Order/payment replication pipeline: a Dafny model

The system copies order/payment records from a source PostgreSQL database through a Kafka topic into two
replica databases, one PostgreSQL and one MySQL. It then compares record lists to measure how far the replicas
have drifted. This project models the four pieces of that pipeline that carry logic and proves their
properties:

- **Export** (`export.dfy`): `OrderPaymentService.ProcessAndSendDataAsync` pages through the joined
  order/payment rows (`LIMIT 500 OFFSET offset`) and publishes each row keyed by its order id. It stops after
  an empty page, or once 50000 records have been sent. The C# `int` offset wraps around, and the model
  writes that wrap-around out.
- **Consumer** (`consumer.dfy`): `KafkaOrderPaymentConsumerService` is a class with the pending batch and
  the committed offsets. It has two steps:
  - The consume step skips null or white-space payloads and payloads that do not deserialise. Otherwise it
    adds the record and then commits the offset.
  - The flush step fires at 2000 records or when the 30-second interval has elapsed. It drains the batch and
    writes it to PostgreSQL. It writes to MySQL only when the PostgreSQL write did not throw.
  - Deliveries that the consume step handles inside the drain window are buffered and committed as usual.
    The class drains with the corrected drain, so their records stay in the bag. The drain as written is
    modelled beside it, and a lemma shows that it loses those records (see Findings).
- **Replica writers** (`postgres_sink.dfy`, `mysql_sink.dfy`, with `tables.dfy` and `sql_command.dfy`): each
  `InsertOrderPaymentsAsync` and `InsertOrderPaymentAsync` is a method on a class whose `orders` and
  `payments` map fields are the two tables. A batch runs in one transaction: a failure rolls back both
  tables. Each writer resolves a key conflict in its own way:
  - PostgreSQL `ON CONFLICT DO NOTHING` is insert-if-absent, so the first row for a key wins.
  - The MySQL batch `ON DUPLICATE KEY UPDATE col = VALUES(col)` overwrites, so the last row wins.
  - The MySQL single-record `order_id = order_id` keeps the existing row.

  The multi-row VALUES text is built as in the source, and parameters are bound by indexed loops. The model
  proves that the placeholders the text mentions are exactly the parameters bound, in order. It also proves
  that each placeholder of tuple `i` receives record `i`'s value.
- **Reconciliation** (`reconciliation.dfy`): `CalculateDifferencePercentage` compares a reference list with
  a candidate list. It counts the reference records that have an equal candidate (same order id, payment id,
  order state and payment state, with null equal to null). It lists the reference records whose order id no
  candidate has. It fails when the candidate list repeats an order id, which is what `ToDictionary` does.

Supporting modules:
- `optional.dfy` holds `Option`, `Result` and `Outcome`.
- `sequences.dfy` models LINQ `Where` as `Filter`, together with a subsequence predicate.
- `records.dfy` holds the record and the table rows it is split into.
- `text.dfy` covers decimal rendering of integers (`{i}` suffixes and `OrderId.ToString()`) and `String.Join`.

## Behaviour of the code that the model keeps

- The replicas are not both last-write-wins. The PostgreSQL writer is insert-if-absent (`ON CONFLICT DO NOTHING`, PosgreSqlService.cs:100 and :120). A re-emitted record with a new state therefore does not change the PostgreSQL replica (`PostgresSink.BatchKeepsExistingRows`). Only the MySQL batch writer overwrites (MySqlService.cs:69-73, :93-98).
- The two replica writes are not independent. The MySQL write runs after the PostgreSQL write in the same `try` block (KafkaOrderPaymentConsumerService.cs:117-120). It is skipped when the PostgreSQL write throws, and the drained records are not put back (`FlushStep`).
- The flush loop exits on cancellation with no final flush (KafkaOrderPaymentConsumerService.cs:92-139).
- The flush threshold is `_batchSize`, 2000 records.
- Offsets are committed as soon as a record is added (KafkaOrderPaymentConsumerService.cs:64-65), before any write. A flush that throws therefore loses records whose offsets are committed. So does the drain race under Findings.

## Model

| member | source | states |
|---|---|---|
| Sequences.Filter | KafkaConsumerDemo/Services/PosgreSqlService.cs:114 | LINQ `Where(...).ToList()`: the result is no longer than the input; every kept element is from the input and satisfies the predicate; every input element that satisfies it is kept (how often: `FilterMultiset`) |
| Sequences.FilterIsSubsequence | KafkaProducerDemo/Services/OrderPaymentService.cs:179 | a `Where` result keeps the surviving elements in their original order (it is a subsequence of the input) |
| Sequences.FilterMultiset | KafkaConsumerDemo/Services/PosgreSqlService.cs:114 | `Where` keeps every occurrence: an element that satisfies the predicate occurs in the result exactly as often as in the input, any other element not at all |
| Sequences.FilterNone | KafkaConsumerDemo/Services/PosgreSqlService.cs:114-115 | `Where` returns an empty list exactly when no element satisfies the predicate |
| Records.PaymentRecords | KafkaConsumerDemo/Services/PosgreSqlService.cs:114 | definition of `records.Where(r => r.PaymentId.HasValue).ToList()` (also MySqlService.cs:87): the records that carry a payment, in batch order; stated through `Filter` |
| Text.Join | KafkaConsumerDemo/Services/PosgreSqlService.cs:99 | definition of `string.Join`: the parts separated by the separator, none before the first or after the last |
| Text.NatToStringRoundTrip | KafkaConsumerDemo/Services/PosgreSqlService.cs:99 | reading the decimal suffix `{i}` back gives `i` |
| Text.NatToStringInjective | KafkaConsumerDemo/Services/PosgreSqlService.cs:105-109 | two positions with the same decimal text are the same position |
| Text.LongToStringRoundTrip | KafkaProducerDemo/Services/OrderPaymentService.cs:44 | `long.ToString()` with a leading `-` for negatives parses back to the same number |
| SqlCommand.TupleText | KafkaConsumerDemo/Services/PosgreSqlService.cs:99 | definition of the interpolated tuple `(@orderId{i}, ...)`; its placeholders are stated by `ValuesPlaceholders` |
| SqlCommand.ValuesText | KafkaConsumerDemo/Services/PosgreSqlService.cs:99 | definition of the joined VALUES list of `n` tuples; its placeholders are stated by `ValuesPlaceholders` |
| SqlCommand.ParamNameInjective | KafkaConsumerDemo/Services/PosgreSqlService.cs:105-109 | `$"{column}{i}"` determines both the column and the position, so no two bound parameters share a name |
| SqlCommand.ValuesPlaceholders | KafkaConsumerDemo/Services/PosgreSqlService.cs:99 | the joined VALUES list of `n` tuples mentions exactly `@orderId0 … @orderState0, …, @orderState{n-1}`, tuple by tuple, and ends outside a placeholder |
| SqlCommand.PlaceholdersAppend | KafkaConsumerDemo/Services/PosgreSqlService.cs:97-100 | text that ends outside a placeholder scans independently of the clause appended after it |
| SqlCommand.FreshName | KafkaConsumerDemo/Services/PosgreSqlService.cs:103-110 | a name with suffix `n` or more is not among the names already bound for tuples `0 … n-1` |
| SqlCommand.BuildOrderParameters | KafkaConsumerDemo/Services/PosgreSqlService.cs:103-110 | the loop binds exactly the names of the VALUES list, and each placeholder of tuple `i` gets the matching column of `records[i]` |
| SqlCommand.BuildPaymentParameters | KafkaConsumerDemo/Services/PosgreSqlService.cs:123-131 | the same for the payment tuples, with positions in the filtered list; an absent field is bound as NULL |
| SqlCommand.InsertPlaceholdersBound | KafkaConsumerDemo/Services/PosgreSqlService.cs:97-111 | in a built command every placeholder of the VALUES list has a parameter and every parameter a placeholder, in the same order |
| SqlCommand.OrdersCommand | KafkaConsumerDemo/Services/PosgreSqlService.cs:97-110 | the orders statement is head + one placeholder tuple per record + conflict clause, with the parameters bound as above |
| SqlCommand.PaymentsCommand | KafkaConsumerDemo/Services/PosgreSqlService.cs:117-131 | the payments statement over the records that carry a payment, with positions in that list |
| SqlCommand.BatchStatements | KafkaConsumerDemo/Services/PosgreSqlService.cs:97-133 | a non-empty batch runs the orders statement over all records, then the payments statement over the records with a payment, and only when there is one |
| Tables.InsertIfAbsent | KafkaConsumerDemo/Services/PosgreSqlService.cs:100 | definition of `ON CONFLICT DO NOTHING` (and of `key = key` in MySqlService.cs:24, :40), applied row by row; stated by the `InsertIfAbsent…` lemmas below |
| Tables.Upsert | KafkaConsumerDemo/Services/MySqlService.cs:69-73 | definition of `ON DUPLICATE KEY UPDATE col = VALUES(col)`, applied row by row; stated by the `Upsert…` lemmas below |
| Tables.InsertIfAbsentKeys | KafkaConsumerDemo/Services/PosgreSqlService.cs:97-100 | after `DO NOTHING` the table holds its old keys plus every key of the statement |
| Tables.InsertIfAbsentKeepsExisting | KafkaConsumerDemo/Services/PosgreSqlService.cs:100 | a key already present keeps its old row |
| Tables.InsertIfAbsentFirstWins | KafkaConsumerDemo/Services/PosgreSqlService.cs:97-100 | a new key gets the row of its first occurrence; later duplicates in the statement do not replace it |
| Tables.InsertIfAbsentIdempotent | KafkaConsumerDemo/Services/PosgreSqlService.cs:97-100 | applying the same statement twice equals applying it once |
| Tables.UpsertKeys | KafkaConsumerDemo/Services/MySqlService.cs:66-73 | after the upsert the table holds its old keys plus every key of the statement |
| Tables.UpsertUntouched | KafkaConsumerDemo/Services/MySqlService.cs:66-73 | a key the statement does not mention keeps its row |
| Tables.UpsertLastWins | KafkaConsumerDemo/Services/MySqlService.cs:69-73 | a key ends with the row of its last occurrence, whether or not it existed |
| Tables.UpsertIdempotent | KafkaConsumerDemo/Services/MySqlService.cs:66-73 | applying the same upsert twice equals applying it once |
| Tables.RulesAgreeOnFreshKeys | KafkaConsumerDemo/Services/MySqlService.cs:66-73 | on new, distinct keys insert-if-absent and upsert write the same table |
| PostgresSink.BatchEffect | KafkaConsumerDemo/Services/PosgreSqlService.cs:97-133 | definition: the tables after a committed batch, with insert-if-absent of all order rows and of the payment rows of records that carry a payment |
| PostgresSink.SingleEffect | KafkaConsumerDemo/Services/PosgreSqlService.cs:47-83 | definition: the tables after a single insert whose statements both succeed |
| PostgresSink.BatchIdempotent | KafkaConsumerDemo/Services/PosgreSqlService.cs:97-120 | committing the same batch twice leaves both tables as committing it once |
| PostgresSink.BatchKeepsExistingRows | KafkaConsumerDemo/Services/PosgreSqlService.cs:97-120 | existing order and payment rows are never changed; every order id, and every payment id present, ends up in the tables |
| PostgresSink.BatchFirstRecordWins | KafkaConsumerDemo/Services/PosgreSqlService.cs:97-100 | a new order id gets the values of its first record in the batch |
| PostgresSink.PostgresSqlService.InsertOrderPayments | KafkaConsumerDemo/Services/PosgreSqlService.cs:84-142 | an empty batch changes nothing. Otherwise the call throws exactly when it reaches its failure point: opening, the orders statement, the payments statement (only run when some record has a payment) or the commit. A throw leaves both tables as before; success leaves them as `BatchEffect`. The statements sent stop at the one that throws: none if opening fails, only the orders statement if it fails, otherwise one or two |
| PostgresSink.PostgresSqlService.InsertOrderPayment | KafkaConsumerDemo/Services/PosgreSqlService.cs:47-83 | order row insert-if-absent, then payment row only if present; a failing payment insert leaves the order row written |
| MySqlSink.BatchEffect | KafkaConsumerDemo/Services/MySqlService.cs:66-111 | definition: the tables after a committed batch, with the upsert of all order rows and of the payment rows of records that carry a payment |
| MySqlSink.SingleEffect | KafkaConsumerDemo/Services/MySqlService.cs:15-51 | definition: the tables after a single insert whose statements both succeed, keeping existing rows |
| MySqlSink.BatchIdempotent | KafkaConsumerDemo/Services/MySqlService.cs:66-98 | committing the same batch twice leaves both tables as committing it once |
| MySqlSink.BatchLastRecordWins | KafkaConsumerDemo/Services/MySqlService.cs:66-73 | an order row ends with the values of the batch's last record for that order id |
| MySqlSink.BatchLastPaymentWins | KafkaConsumerDemo/Services/MySqlService.cs:90-98 | a payment row ends with the values of the last record carrying that payment id |
| MySqlSink.BatchLeavesOtherRows | KafkaConsumerDemo/Services/MySqlService.cs:66-73 | order rows whose id the batch does not carry are unchanged |
| MySqlSink.SingleKeepsWhereBatchOverwrites | KafkaConsumerDemo/Services/MySqlService.cs:21-24 | for an existing order the single-record insert keeps the stored row while the batch replaces it |
| MySqlSink.MySqlService.InsertOrderPayments | KafkaConsumerDemo/Services/MySqlService.cs:53-120 | as for PostgreSQL, but with the overwriting upsert. An empty batch is a no-op. A throw at any failure point rolls back both tables, and the statements sent stop at the one that throws. Success is `BatchEffect` |
| MySqlSink.MySqlService.InsertOrderPayment | KafkaConsumerDemo/Services/MySqlService.cs:15-51 | keep-existing inserts of the order row and then, if present, the payment row, each committed on its own |
| OrderPaymentConsumer.IsNullOrWhiteSpace | KafkaConsumerDemo/Services/KafkaOrderPaymentConsumerService.cs:58 | true exactly for null or for a string of .NET white-space characters only |
| OrderPaymentConsumer.AcceptedRecordsFromDeliveries | KafkaConsumerDemo/Services/KafkaOrderPaymentConsumerService.cs:58-64 | every buffered record was parsed from some delivery, and there are no more records than deliveries |
| OrderPaymentConsumer.BlankDeliveriesBufferNothing | KafkaConsumerDemo/Services/KafkaOrderPaymentConsumerService.cs:56-58 | null or white-space payloads, and failed `Consume` calls, buffer nothing |
| OrderPaymentConsumer.CommittedOffsetsWereBuffered | KafkaConsumerDemo/Services/KafkaOrderPaymentConsumerService.cs:64-65 | an offset is committed only for a delivery whose record was added and whose commit did not throw |
| OrderPaymentConsumer.KafkaOrderPaymentConsumerService.ConsumeStep | KafkaConsumerDemo/Services/KafkaOrderPaymentConsumerService.cs:53-73 | blank, null or malformed payloads change nothing; a record is appended, its offset recorded beside it, and then the offset committed unless the commit throws; the invariant (every committed offset is the offset of a buffered record, nothing buffered is lost) is kept |
| OrderPaymentConsumer.KafkaOrderPaymentConsumerService.ConsumeMessages | KafkaConsumerDemo/Services/KafkaOrderPaymentConsumerService.cs:51-74 | a run of deliveries appends exactly `AcceptedRecords` and commits exactly `CommittedOffsets` |
| OrderPaymentConsumer.KafkaOrderPaymentConsumerService.FlushStep | KafkaConsumerDemo/Services/KafkaOrderPaymentConsumerService.cs:96-129 | waits below 2000 records before the interval; an empty batch writes nothing. Both leave the whole state unchanged. Otherwise the snapshot is handed over. The deliveries consumed inside the drain window are buffered and their offsets committed, and with the corrected drain the bag keeps exactly their records. Conservation and the commit invariant are kept. PostgreSQL gets the snapshot, and MySQL gets it only if PostgreSQL did not throw |
| OrderPaymentConsumer.ReadyToFlush | KafkaConsumerDemo/Services/KafkaOrderPaymentConsumerService.cs:97-101 | definition: the wait ends once the bag holds `_batchSize` (2000) records or the interval has elapsed |
| OrderPaymentConsumer.KafkaOrderPaymentConsumerService.Drain | KafkaConsumerDemo/Services/KafkaOrderPaymentConsumerService.cs:104-110 | `ToList`, the consume steps that run before `Clear`, then the corrected removal: exactly the snapshot is handed over and joins `drained`. The bag holds exactly the records of the window's deliveries, whose offsets are committed, and conservation and the commit invariant hold |
| OrderPaymentConsumer.KafkaOrderPaymentConsumerService.WriteSnapshot | KafkaConsumerDemo/Services/KafkaOrderPaymentConsumerService.cs:112-120 | PostgreSQL is written first; a PostgreSQL throw is `PostgresFailed` with neither store changed. Otherwise PostgreSQL holds its `BatchEffect`, and MySQL either throws (`MySqlFailed`, MySQL unchanged) or holds its `BatchEffect` (`Written`) |
| OrderPaymentConsumer.SnapshotOnly | KafkaConsumerDemo/Services/KafkaOrderPaymentConsumerService.cs:109-110 | the intended drain hands over exactly the snapshot and keeps exactly the records added after it, so nothing is lost or handed over twice |
| OrderPaymentConsumer.SnapshotThenClear | KafkaConsumerDemo/Services/KafkaOrderPaymentConsumerService.cs:109-110 | definition of the drain as written: the snapshot is handed over and the bag is left empty, whatever was added after the snapshot |
| OrderPaymentConsumer.SnapshotThenClearLosesLateRecords | KafkaConsumerDemo/Services/KafkaOrderPaymentConsumerService.cs:109-110 | with a record added between `ToList` and `Clear`, the drain as written breaks conservation (every buffered record is handed over or still buffered); the intended drain keeps it |
| Reconciliation.SameRecord | KafkaProducerDemo/Services/OrderPaymentService.cs:174-177 | definition: equal order id, payment id, order state and payment state, where C# `==` on the nullable fields holds for null against null |
| Reconciliation.HasSame | KafkaProducerDemo/Services/OrderPaymentService.cs:173-177 | definition of `list2.Any(...)`: some candidate record is `SameRecord` as the reference record |
| Reconciliation.SameCount | KafkaProducerDemo/Services/OrderPaymentService.cs:173-177 | `list1.Count(r1 => list2.Any(...))`: at most the reference size; its meaning is stated by `SameCountIsMatchedFilter` and `SameCountFull` |
| Reconciliation.Percent | KafkaProducerDemo/Services/OrderPaymentService.cs:182 | definition of `(double)sameCount / totalCount * 100` over the reals; its range and its 100 % case are stated by `PercentBounds` |
| Reconciliation.Missing | KafkaProducerDemo/Services/OrderPaymentService.cs:179 | definition of the `Where` predicate: the record's order id is not a key of the lookup; the filtered list is stated by `NotFoundExact` |
| Reconciliation.SameCountFull | KafkaProducerDemo/Services/OrderPaymentService.cs:173-177 | `sameCount == list1.Count` exactly when every reference record has an equal candidate |
| Reconciliation.SameCountIsMatchedFilter | KafkaProducerDemo/Services/OrderPaymentService.cs:173-177 | `sameCount` is the number of reference records that have an equal candidate |
| Reconciliation.ToDictionary | KafkaProducerDemo/Services/OrderPaymentService.cs:178 | succeeds exactly when the candidates' order ids are distinct, keyed by exactly those ids; otherwise fails naming an id that occurs twice |
| Reconciliation.CalculateDifferencePercentage | KafkaProducerDemo/Services/OrderPaymentService.cs:170-183 | fails exactly when the candidate list repeats an order id |
| Reconciliation.PercentBounds | KafkaProducerDemo/Services/OrderPaymentService.cs:182 | `sameCount / totalCount * 100` lies in [0, 100] and is 100 exactly when the counts are equal |
| Reconciliation.EmptyReference | KafkaProducerDemo/Services/OrderPaymentService.cs:178-181 | an empty reference list yields (0, empty) when the candidates have distinct ids |
| Reconciliation.DuplicateCandidatesFail | KafkaProducerDemo/Services/OrderPaymentService.cs:178 | a repeated candidate order id makes the call fail, even with an empty reference list |
| Reconciliation.PercentInRange | KafkaProducerDemo/Services/OrderPaymentService.cs:173-182 | the percentage is `sameCount / totalCount * 100` and lies in [0, 100] |
| Reconciliation.PercentFullIffAllMatch | KafkaProducerDemo/Services/OrderPaymentService.cs:173-182 | the percentage is 100 exactly when every reference record has an equal candidate |
| Reconciliation.NotFoundExact | KafkaProducerDemo/Services/OrderPaymentService.cs:179-181 | the missing list is exactly the reference records, in order, whose order id no candidate has, each occurring as often as in the reference |
| Reconciliation.MissingAndMatchedDisjoint | KafkaProducerDemo/Services/OrderPaymentService.cs:173-179 | a missing record is never counted as matching: `|missing| + sameCount <= |reference|` |
| Reconciliation.SelfComparison | KafkaProducerDemo/Services/OrderPaymentService.cs:173-182 | a non-empty duplicate-free list compared with itself gives 100 and nothing missing |
| Reconciliation.CompareByKeySet | KafkaProducerDemo/Services/OrderPaymentService.cs:173-182 | on every input, duplicate candidate ids included: (0, empty) for an empty reference list; otherwise the percentage is `Percent` of the matching count over the reference size, in [0, 100] and 100 exactly when every reference record has an equal candidate; the missing list keeps reference order, holds a reference record exactly when no candidate has its order id, and holds it as often as the reference does; missing plus matching is at most the reference size |
| Reconciliation.CompareByKeySetAgrees | KafkaProducerDemo/Services/OrderPaymentService.cs:178-182 | wherever the original returns, the key-set comparison returns the same result |
| Reconciliation.OrderWithTwoPaymentsFails | KafkaProducerDemo/Services/OrderPaymentService.cs:178 | two candidate rows for one order with two payments make the original fail with that order id, while the key-set comparison returns the reference records whose order id is not that one |
| Export.Wrap32 | KafkaProducerDemo/Services/OrderPaymentService.cs:50 | C# unchecked `int` addition: the result is a 32-bit value, and a value already in range is unchanged |
| Export.Wrap32Congruent | KafkaProducerDemo/Services/OrderPaymentService.cs:50 | the wrapped offset differs from the exact sum by a multiple of 2^32 |
| Export.Wrap32Shift | KafkaProducerDemo/Services/OrderPaymentService.cs:50 | adding a page to a wrapped offset is the same as wrapping the exact sum |
| Export.OffsetsAt | KafkaProducerDemo/Services/OrderPaymentService.cs:35-50 | the `k`-th page query uses `offsetStart + 500 * k`, wrapped to 32 bits |
| Export.ToMessage | KafkaProducerDemo/Services/OrderPaymentService.cs:44 | definition of one `SendToKafkaAsync` call's message: the key is `OrderId.ToString()` and the value is the record; stated by `MessageKeyIdentifiesOrder` |
| Export.MessageKeyIdentifiesOrder | KafkaProducerDemo/Services/OrderPaymentService.cs:43-44 | a message's key parses back to the record's order id, and its value is the record |
| Export.FetchedGrows | KafkaProducerDemo/Services/OrderPaymentService.cs:40-49 | the records fetched never shrink as pages are added |
| Export.EveryQueryBelowCap | KafkaProducerDemo/Services/OrderPaymentService.cs:38 | every page query ran while fewer than 50000 records had been fetched |
| Export.ProcessAndSendData | KafkaProducerDemo/Services/OrderPaymentService.cs:32-52 | the page queries use offsets `start + 500k` in order; every page but the last was non-empty; the loop stops on a failed query, an empty page, or 50000 records; the publish log is exactly the fetched pages in order; `totalRecords` equals their size and stays below 50500 |

## Left out

- Kafka client calls (`Consume`, `Commit`, `Subscribe`, `Close`, `ProduceAsync`) and the reconnect loop in `ExecuteAsync` are not modelled. A delivery is an input value and a commit adds its offset to a set.
- Publishing: `SendToKafkaAsync` is not part of this model. A send that throws, which would make `Task.WhenAll` and then the export loop throw, is not modelled.
- Export.ProcessAndSendData: the messages of a page are logged in page order, although `Task.Run` gives no order among them. The message value is the record itself; JSON serialisation is not modelled.
- Export.ProcessAndSendData: the page query is the `fetch` parameter. `PagesBounded` states the `LIMIT 500` guarantee. The reader loop, the connection and the SQL text of `GetOrderPaymentDataAsync` are not modelled; a throwing query is `None`.
- JSON deserialisation is the `deserialize` parameter, which yields a record, null, or a thrown exception.
- The percentage is a C# `double`; the model uses an exact real. Rounding and the UI's `toFixed(3)` are not modelled.
- Concurrency and timing: `ConcurrentBag`, `SemaphoreSlim`, `Task.Delay` polling and cancellation are not modelled. The steps are atomic methods. At most one flush runs at a time and the semaphore is always released, so the semaphore adds no state. "Interval elapsed" is a boolean input.
- PostgresSink.BatchFirstRecordWins: the model hands the batch over in insertion order. `ConcurrentBag` does not promise an order. Filled by one thread, as the consuming loop does, its `ToList` returns the newest record first. Under that order PostgreSQL keeps the last consumed duplicate of a key and MySQL the first. "First" and "last" in these lemmas refer to the handed-over list, not to consumption order.
- MySqlSink.BatchLastRecordWins: same as BatchFirstRecordWins. "Last" is last in the handed-over list, which is not consumption order.
- A `null` list argument cannot be expressed (`seq` is never null). Only the empty list is modelled for that guard.
- Database behaviour is reduced to two maps per replica. The model does not cover foreign keys, other unique keys, NOT NULL constraints or column types. A batch's failure is one of the points where it can throw: opening, each statement, the commit. A single insert's failure is one boolean per statement. The cause of an exception is not modelled.
- SqlCommand.OrdersCommand: the statement head and conflict clause are constants, with the verbatim string's line breaks and indentation folded into single spaces. Only the VALUES list is scanned for placeholders.
- SqlCommand.PaymentsCommand: same as OrdersCommand.
- The single-record inserts are modelled by their effect on the tables. Their fixed SQL text and unindexed parameters are not.
- Text.LongToString: renders the sign as `-`, as the invariant culture does. `OrderId.ToString()` uses the current culture, whose negative sign may differ. Order ids are positive in practice.
- OrderPaymentConsumer.KafkaOrderPaymentConsumerService.FlushStep: drains with the corrected `SnapshotOnly`, so the records of the deliveries consumed inside the window stay in the bag. The code as written (lines 109-110) also clears them. By then line 65 has committed their offsets, as `FlushStep` states through `committed`, so under the code those records are never written. `SnapshotThenClearLosesLateRecords` states that loss.
- OrderPaymentConsumer.KafkaOrderPaymentConsumerService.Drain: same as FlushStep. The window's deliveries are consumed as one run between `ToList` and `Clear`, not interleaved with other points of the flush.
- Constructors, configuration, dependency injection, logging, `OFFSET_START` parsing (`offsetStart` is a parameter) and both `Program.cs` files are not modelled.
- `GetListOrderPayment*` and the MySQL fetch helper only run the page query with fixed arguments, so they are not modelled.
- KafkaConsumerService.cs, MongoDbService.cs, the producer's PosgreSqlService.cs, KafkaProducerService.cs, the controller and the React pages are not part of this model.

## Findings

| source | as written | input that shows it | evidently intended | confidence | as-written member | corrected member |
|---|---|---|---|---|---|---|
| KafkaProducerDemo/Services/OrderPaymentService.cs:178 | `list2.ToDictionary(record => record.OrderId)` builds a dictionary only to ask `ContainsKey` | a candidate list from the LEFT JOIN query holding one order with two payments: two rows share an `OrderId`, `ToDictionary` throws, and no comparison is returned | a set of the candidates' order ids, so that every candidate list can be compared | not executed | Reconciliation.OrderWithTwoPaymentsFails | Reconciliation.CompareByKeySet |
| KafkaConsumerDemo/Services/KafkaOrderPaymentConsumerService.cs:109-110 | `_batchRecords.ToList()` then `_batchRecords.Clear()` while the consuming loop keeps adding | a record added between the two calls: it is not in the snapshot, `Clear` removes it, and its offset was already committed at line 65, so it is never written or redelivered | remove from the bag only the records in the snapshot, which is the drain `FlushStep` uses | not executed | OrderPaymentConsumer.SnapshotThenClearLosesLateRecords | OrderPaymentConsumer.SnapshotOnly |
