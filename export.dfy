/** The producing side: `ProcessAndSendDataAsync` pages through the joined order/payment rows of the source
    database and publishes every row as one message keyed by its order id. */
module Export {
  import opened Optional
  import opened Text
  import opened Records

  /** `batchSize`: the LIMIT of every page query. */
  const PageSize := 500
  /** `_comparedBatchSize`: the loop fetches no further page once this many records were published. */
  const Cap := 50000

  const TwoTo31 := 0x8000_0000
  const TwoTo32 := 0x1_0000_0000

  /** C# unchecked `int` arithmetic: `x` brought into the 32-bit range by adding or removing multiples of 2^32. */
  function Wrap32(x: int): (r: Int32)
    ensures -TwoTo31 <= x < TwoTo31 ==> r == x
    decreases if x < 0 then -2 * x else 2 * x + 1
  {
    if x < -TwoTo31 then Wrap32(x + TwoTo32)
    else if x >= TwoTo31 then Wrap32(x - TwoTo32)
    else x
  }

  /** The difference of two numbers that are each a multiple of 2^32 away from a third is a multiple of 2^32. */
  lemma CongruentTrans(a: int, b: int, c: int)
    requires (a - b) % TwoTo32 == 0 && (c - b) % TwoTo32 == 0
    ensures (a - c) % TwoTo32 == 0
  {
    var p, q := (a - b) / TwoTo32, (c - b) / TwoTo32;
    assert a - b == TwoTo32 * p && c - b == TwoTo32 * q;
    assert a - c == TwoTo32 * (p - q);
  }

  /** The wrapped value differs from `x` by a multiple of 2^32. */
  lemma {:induction false} Wrap32Congruent(x: int)
    ensures (Wrap32(x) - x) % TwoTo32 == 0
    decreases if x < 0 then -2 * x else 2 * x + 1
  {
    if x < -TwoTo31 {
      Wrap32Congruent(x + TwoTo32);
      CongruentTrans(Wrap32(x), x + TwoTo32, x);
    } else if x >= TwoTo31 {
      Wrap32Congruent(x - TwoTo32);
      CongruentTrans(Wrap32(x), x - TwoTo32, x);
    }
  }

  /** There is only one 32-bit value a multiple of 2^32 away from `x`. */
  lemma Wrap32Unique(x: int, r: Int32)
    requires (r - x) % TwoTo32 == 0
    ensures Wrap32(x) == r
  {
    Wrap32Congruent(x);
    CongruentTrans(Wrap32(x), x, r);
    var q := (Wrap32(x) - r) / TwoTo32;
    assert Wrap32(x) - r == TwoTo32 * q;
  }

  /** Adding to a wrapped value and wrapping again is the same as wrapping once. */
  lemma Wrap32Shift(x: int, d: int)
    ensures Wrap32(Wrap32(x) + d) == Wrap32(x + d)
  {
    Wrap32Congruent(x);
    Wrap32Congruent(x + d);
    CongruentTrans(Wrap32(x + d) - d, x, Wrap32(x));
    Wrap32Unique(Wrap32(x) + d, Wrap32(x + d));
  }

  /** One message of the topic: the key is `OrderId.ToString()`, the value the record itself (its JSON text is
      not part of this model). */
  datatype Message = Message(key: string, record: OrderPaymentRecord)

  function ToMessage(r: OrderPaymentRecord): Message {
    Message(LongToString(r.orderId), r)
  }

  function Messages(records: seq<OrderPaymentRecord>): (r: seq<Message>)
    ensures |r| == |records| && forall i :: 0 <= i < |r| ==> r[i] == ToMessage(records[i])
  {
    seq(|records|, i requires 0 <= i < |records| => ToMessage(records[i]))
  }

  lemma MessagesAppend(a: seq<OrderPaymentRecord>, b: seq<OrderPaymentRecord>)
    ensures Messages(a + b) == Messages(a) + Messages(b)
  {
    assert forall i :: 0 <= i < |a + b| ==> Messages(a + b)[i] == (Messages(a) + Messages(b))[i];
  }

  /** A consumer that reads a message key back as a number recovers the record's order id. */
  lemma MessageKeyIdentifiesOrder(r: OrderPaymentRecord)
    ensures ParseLong(ToMessage(r).key) == Some(r.orderId as int)
    ensures ToMessage(r).record == r
  {
    LongToStringRoundTrip(r.orderId);
  }

  /** The offset of the `k`-th page query. */
  function OffsetAt(offsetStart: Int32, k: nat): Int32 {
    Wrap32(offsetStart + PageSize * k)
  }

  /** `offset += batchSize` moves from one page's offset to the next. */
  lemma OffsetAdvance(offsetStart: Int32, k: nat)
    ensures Wrap32(OffsetAt(offsetStart, k) + PageSize) == OffsetAt(offsetStart, k + 1)
  {
    Wrap32Shift(offsetStart + PageSize * k, PageSize);
  }

  lemma FetchedAppend(fetch: Fetch, offsets: seq<Int32>, offset: Int32)
    ensures Fetched(fetch, offsets + [offset]) ==
              Fetched(fetch, offsets) + (if fetch(offset).Some? then fetch(offset).value else [])
    ensures forall k :: 0 <= k <= |offsets| ==> (offsets + [offset])[..k] == offsets[..k]
  {
    assert (offsets + [offset])[..|offsets|] == offsets;
  }

  /** The page query: `None` when it throws, otherwise the rows returned. */
  type Fetch = Int32 -> Option<seq<OrderPaymentRecord>>

  /** The query carries `LIMIT 500`, so a page never holds more rows than that. */
  ghost predicate PagesBounded(fetch: Fetch) {
    forall offset: Int32 :: fetch(offset).Some? ==> |fetch(offset).value| <= PageSize
  }

  /** The rows the page queries at the given offsets returned, concatenated in fetch order. */
  function Fetched(fetch: Fetch, offsets: seq<Int32>): seq<OrderPaymentRecord> {
    if offsets == [] then []
    else
      var n := |offsets| - 1;
      Fetched(fetch, offsets[..n]) + (if fetch(offsets[n]).Some? then fetch(offsets[n]).value else [])
  }

  predicate NonEmptyPage(fetch: Fetch, offset: Int32) {
    fetch(offset).Some? && fetch(offset).value != []
  }

  /** The offsets of the first `n` page queries. */
  function Offsets(offsetStart: Int32, n: nat): (r: seq<Int32>)
    ensures |r| == n
  {
    if n == 0 then [] else Offsets(offsetStart, n - 1) + [OffsetAt(offsetStart, n - 1)]
  }

  /** The `k`-th query uses `offsetStart + 500 * k`, wrapped to 32 bits. */
  lemma {:induction false} OffsetsAt(offsetStart: Int32, n: nat, k: nat)
    requires k < n
    ensures Offsets(offsetStart, n)[k] == Wrap32(offsetStart + PageSize * k)
  {
    if k < n - 1 {
      OffsetsAt(offsetStart, n - 1, k);
    }
  }

  /** The loop's history: the queries used `Offsets(offsetStart, _)` in order, every page but the last was
      non-empty, and the last query ran while fewer than `Cap` records had been fetched. */
  ghost predicate QueriedInOrder(fetch: Fetch, offsetStart: Int32, offsets: seq<Int32>) {
    && offsets == Offsets(offsetStart, |offsets|)
    && (forall k :: 0 <= k < |offsets| - 1 ==> NonEmptyPage(fetch, offsets[k]))
    && (offsets != [] ==> |Fetched(fetch, offsets[..|offsets| - 1])| < Cap)
  }

  /** One more query, after a non-empty page and while fewer than `Cap` records were fetched, keeps the history. */
  lemma QueriedStep(fetch: Fetch, offsetStart: Int32, offsets: seq<Int32>, offset: Int32)
    requires QueriedInOrder(fetch, offsetStart, offsets)
    requires offsets != [] ==> NonEmptyPage(fetch, offsets[|offsets| - 1])
    requires offset == OffsetAt(offsetStart, |offsets|) && |Fetched(fetch, offsets)| < Cap
    ensures QueriedInOrder(fetch, offsetStart, offsets + [offset])
  {
    var next := offsets + [offset];
    assert next[..|offsets|] == offsets;
    forall k | 0 <= k < |next| - 1 ensures NonEmptyPage(fetch, next[k]) {
      assert next[k] == offsets[k];
    }
  }

  /** Fetching more pages never shrinks what was fetched. */
  lemma {:induction false} FetchedGrows(fetch: Fetch, offsets: seq<Int32>, k: nat)
    requires k <= |offsets|
    ensures |Fetched(fetch, offsets[..k])| <= |Fetched(fetch, offsets)|
    decreases |offsets|
  {
    if k < |offsets| {
      var n := |offsets| - 1;
      assert offsets[..n][..k] == offsets[..k];
      FetchedGrows(fetch, offsets[..n], k);
    } else {
      assert offsets[..k] == offsets;
    }
  }

  /** Hence every query of the history, not only the last, ran while fewer than `Cap` records were fetched. */
  lemma EveryQueryBelowCap(fetch: Fetch, offsetStart: Int32, offsets: seq<Int32>)
    requires QueriedInOrder(fetch, offsetStart, offsets)
    ensures forall k :: 0 <= k < |offsets| ==> |Fetched(fetch, offsets[..k])| < Cap
  {
    forall k | 0 <= k < |offsets| ensures |Fetched(fetch, offsets[..k])| < Cap {
      var n := |offsets| - 1;
      assert offsets[..n][..k] == offsets[..k];
      FetchedGrows(fetch, offsets[..n], k);
    }
  }

  /** The state of the paging loop at the top of an iteration: `offset` is the next offset to query, and the
      published messages and `totalRecords` account for exactly the pages fetched so far. */
  ghost predicate Progress(fetch: Fetch, offsetStart: Int32, offsets: seq<Int32>, offset: Int32,
                           published: seq<Message>, totalRecords: int) {
    && offset == OffsetAt(offsetStart, |offsets|)
    && QueriedInOrder(fetch, offsetStart, offsets)
    && (offsets != [] ==> NonEmptyPage(fetch, offsets[|offsets| - 1]))
    && totalRecords == |Fetched(fetch, offsets)| < Cap + PageSize
    && published == Messages(Fetched(fetch, offsets))
  }

  /** A non-empty page fetched below the cap is published and counted, and the offset moves on by a page. */
  lemma ProgressStep(fetch: Fetch, offsetStart: Int32, offsets: seq<Int32>, offset: Int32,
                     published: seq<Message>, totalRecords: int)
    requires PagesBounded(fetch) && Progress(fetch, offsetStart, offsets, offset, published, totalRecords)
    requires totalRecords < Cap && NonEmptyPage(fetch, offset)
    ensures Progress(fetch, offsetStart, offsets + [offset], Wrap32(offset + PageSize),
                     published + Messages(fetch(offset).value), totalRecords + |fetch(offset).value|)
  {
    var page := fetch(offset).value;
    var next := offsets + [offset];
    QueriedStep(fetch, offsetStart, offsets, offset);
    FetchedAppend(fetch, offsets, offset);
    OffsetAdvance(offsetStart, |offsets|);
    assert |page| <= PageSize;
    MessagesAppend(Fetched(fetch, offsets), page);
    assert Fetched(fetch, next) == Fetched(fetch, offsets) + page;
    assert Wrap32(offset + PageSize) == OffsetAt(offsetStart, |next|);
    assert next[|next| - 1] == offset;
  }

  /** A failed or empty query below the cap ends the loop with the history and totals unchanged by it. */
  lemma ProgressStop(fetch: Fetch, offsetStart: Int32, offsets: seq<Int32>, offset: Int32,
                     published: seq<Message>, totalRecords: int)
    requires Progress(fetch, offsetStart, offsets, offset, published, totalRecords)
    requires totalRecords < Cap && !NonEmptyPage(fetch, offset)
    ensures QueriedInOrder(fetch, offsetStart, offsets + [offset])
    ensures (offsets + [offset])[|offsets|] == offset
    ensures totalRecords == |Fetched(fetch, offsets + [offset])| < Cap + PageSize
    ensures published == Messages(Fetched(fetch, offsets + [offset]))
  {
    QueriedStep(fetch, offsetStart, offsets, offset);
    FetchedAppend(fetch, offsets, offset);
  }

  datatype ExportOutcome = EmptyPage | CapReached | QueryThrew

  /** `ProcessAndSendDataAsync` with the page query as `fetch` and the environment's `OFFSET_START` as
      `offsetStart`. It reports the offsets it queried in order, the messages it published in order, the
      final `totalRecords`, and why it stopped. */
  method ProcessAndSendData(offsetStart: Int32, fetch: Fetch)
    returns (offsets: seq<Int32>, published: seq<Message>, totalRecords: int, outcome: ExportOutcome)
    requires PagesBounded(fetch)
    ensures |offsets| >= 1 && QueriedInOrder(fetch, offsetStart, offsets)
    ensures outcome == QueryThrew <==> fetch(offsets[|offsets| - 1]).None?
    ensures outcome == EmptyPage ==> fetch(offsets[|offsets| - 1]) == Some([])
    ensures outcome == CapReached ==> NonEmptyPage(fetch, offsets[|offsets| - 1]) && totalRecords >= Cap
    ensures totalRecords == |Fetched(fetch, offsets)| < Cap + PageSize
    ensures published == Messages(Fetched(fetch, offsets))
  {
    var offset: Int32 := offsetStart;
    totalRecords := 0;
    offsets, published := [], [];
    while totalRecords < Cap
      invariant Progress(fetch, offsetStart, offsets, offset, published, totalRecords)
      invariant offsets == [] ==> totalRecords == 0
      decreases Cap - totalRecords
    {
      var records := fetch(offset);
      if records.None? || |records.value| == 0 {
        ProgressStop(fetch, offsetStart, offsets, offset, published, totalRecords);
        offsets := offsets + [offset];
        outcome := if records.None? then QueryThrew else EmptyPage;
        return;
      }
      ProgressStep(fetch, offsetStart, offsets, offset, published, totalRecords);
      offsets := offsets + [offset];
      published := published + Messages(records.value);
      totalRecords := totalRecords + |records.value|;
      offset := Wrap32(offset + PageSize);
    }
    outcome := CapReached;
  }
}
