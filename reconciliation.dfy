/** `CalculateDifferencePercentage`: how many records of a reference replica have an equal counterpart in a
    candidate replica, and which reference records have no candidate with their order id. */
module Reconciliation {
  import opened Optional
  import opened Sequences
  import opened Records

  /** Two records agree on order id, payment id, order state and payment state; C# `==` on the nullable
      fields holds for null against null, which `Option` equality gives. */
  predicate SameRecord(a: OrderPaymentRecord, b: OrderPaymentRecord) {
    a.orderId == b.orderId && a.paymentId == b.paymentId && a.orderState == b.orderState && a.paymentState == b.paymentState
  }

  /** `list2.Any(record2 => ...)` */
  predicate HasSame(r: OrderPaymentRecord, candidates: seq<OrderPaymentRecord>) {
    exists j :: 0 <= j < |candidates| && SameRecord(r, candidates[j])
  }

  /** `list1.Count(record1 => list2.Any(...))` */
  function SameCount(reference: seq<OrderPaymentRecord>, candidates: seq<OrderPaymentRecord>): (n: nat)
    ensures n <= |reference|
  {
    if reference == [] then 0
    else (if HasSame(reference[0], candidates) then 1 else 0) + SameCount(reference[1..], candidates)
  }

  /** The filter that `SameCount` counts. */
  function Matched(candidates: seq<OrderPaymentRecord>): OrderPaymentRecord -> bool {
    (r: OrderPaymentRecord) => HasSame(r, candidates)
  }

  /** The reference records the count takes in are those with an equal candidate. */
  lemma {:induction false} SameCountIsMatchedFilter(reference: seq<OrderPaymentRecord>, candidates: seq<OrderPaymentRecord>)
    ensures SameCount(reference, candidates) == |Filter(Matched(candidates), reference)|
  {
    if reference != [] {
      SameCountIsMatchedFilter(reference[1..], candidates);
    }
  }

  /** Every reference record has an equal candidate exactly when all of them are counted. */
  lemma {:induction false} SameCountFull(reference: seq<OrderPaymentRecord>, candidates: seq<OrderPaymentRecord>)
    ensures SameCount(reference, candidates) == |reference| <==> forall i :: 0 <= i < |reference| ==> HasSame(reference[i], candidates)
  {
    if reference != [] {
      SameCountFull(reference[1..], candidates);
      if forall i :: 0 <= i < |reference| ==> HasSame(reference[i], candidates) {
        forall i | 0 <= i < |reference[1..]| ensures HasSame(reference[1..][i], candidates) {
          assert reference[1..][i] == reference[i + 1];
        }
      } else if HasSame(reference[0], candidates) {
        var k :| 0 <= k < |reference| && !HasSame(reference[k], candidates);
        assert k > 0 && reference[1..][k - 1] == reference[k];
      }
    }
  }

  /** The order ids of a list. */
  function OrderIds(records: seq<OrderPaymentRecord>): set<Int64> {
    set i | 0 <= i < |records| :: records[i].orderId
  }

  predicate DistinctOrderIds(records: seq<OrderPaymentRecord>) {
    forall i, j :: 0 <= i < j < |records| ==> records[i].orderId != records[j].orderId
  }

  /** Growing a list by one record adds that record's id to its ids; the list stays duplicate-free exactly
      when the prefix is and the new id is fresh. */
  lemma OrderIdsSnoc(records: seq<OrderPaymentRecord>)
    requires records != []
    ensures OrderIds(records) == OrderIds(records[..|records| - 1]) + {records[|records| - 1].orderId}
    ensures DistinctOrderIds(records) <==>
              DistinctOrderIds(records[..|records| - 1]) && records[|records| - 1].orderId !in OrderIds(records[..|records| - 1])
  {
    var n := |records| - 1;
    var init := records[..n];
    assert forall i :: 0 <= i < n ==> init[i] == records[i];
    assert forall i :: 0 <= i < n ==> records[i].orderId in OrderIds(init);
    if DistinctOrderIds(init) && records[n].orderId !in OrderIds(init) {
      forall i, j | 0 <= i < j < |records| ensures records[i].orderId != records[j].orderId {
        if j == n {
          assert records[i].orderId in OrderIds(init);
        }
      }
    }
  }

  /** An id in the list's ids belongs to one of its records. */
  lemma OrderIdIndex(records: seq<OrderPaymentRecord>, k: Int64) returns (i: nat)
    requires k in OrderIds(records)
    ensures i < |records| && records[i].orderId == k
  {
    i :| 0 <= i < |records| && records[i].orderId == k;
  }

  /** `list2.ToDictionary(record => record.OrderId)`: the records are added in list order, and adding a key
      already present throws, naming that key. */
  function ToDictionary(candidates: seq<OrderPaymentRecord>): (r: Result<map<Int64, OrderPaymentRecord>, Int64>)
    ensures r.Success? <==> DistinctOrderIds(candidates)
    ensures r.Success? ==> r.value.Keys == OrderIds(candidates)
    ensures r.Success? ==> forall k :: k in r.value ==> r.value[k].orderId == k && r.value[k] in candidates
    ensures r.Failure? ==> exists i, j :: 0 <= i < j < |candidates| && candidates[i].orderId == r.error
                                          && candidates[j].orderId == r.error
  {
    if candidates == [] then Success(map[])
    else
      var n := |candidates| - 1;
      var init := candidates[..n];
      OrderIdsSnoc(candidates);
      assert forall i :: 0 <= i < n ==> init[i] == candidates[i];
      match ToDictionary(init)
      case Failure(k) => Failure(k)
      case Success(m) =>
        if candidates[n].orderId in m then
          ToDictionaryDuplicate(candidates, m);
          Failure(candidates[n].orderId)
        else
          Success(m[candidates[n].orderId := candidates[n]])
  }

  /** The last record's id already keyed by the dictionary of the earlier records occurs twice. */
  lemma ToDictionaryDuplicate(candidates: seq<OrderPaymentRecord>, m: map<Int64, OrderPaymentRecord>)
    requires candidates != [] && m.Keys == OrderIds(candidates[..|candidates| - 1])
    requires candidates[|candidates| - 1].orderId in m
    ensures exists i, j :: 0 <= i < j < |candidates| && candidates[i].orderId == candidates[|candidates| - 1].orderId
                           && candidates[j].orderId == candidates[|candidates| - 1].orderId
  {
    var n := |candidates| - 1;
    var i := OrderIdIndex(candidates[..n], candidates[n].orderId);
    assert candidates[..n][i] == candidates[i];
  }

  /** `sameCount / totalCount * 100`, the C# `double` as a real number. */
  function Percent(sameCount: nat, totalCount: nat): real
    requires totalCount > 0
  {
    sameCount as real / totalCount as real * 100.0
  }

  lemma PercentBounds(sameCount: nat, totalCount: nat)
    requires 0 < totalCount && sameCount <= totalCount
    ensures 0.0 <= Percent(sameCount, totalCount) <= 100.0
    ensures Percent(sameCount, totalCount) == 100.0 <==> sameCount == totalCount
  {
    var s, t := sameCount as real, totalCount as real;
    var q := s / t;
    assert q * t == s;
    assert (1.0 - q) * t == t - s;
    FactorSign(q, t);
    FactorSign(1.0 - q, t);
  }

  /** The sign of a product with a positive factor is the sign of the other factor. */
  lemma FactorSign(x: real, t: real)
    requires 0.0 < t
    ensures 0.0 <= x * t ==> 0.0 <= x
    ensures x * t == 0.0 ==> x == 0.0
  {
    if x < 0.0 {
      assert x * t < 0.0;
    }
    if x > 0.0 {
      assert x * t > 0.0;
    }
  }

  /** The reference records whose order id is not a key of the lookup. */
  function Missing(keys: set<Int64>): OrderPaymentRecord -> bool {
    (r: OrderPaymentRecord) => r.orderId !in keys
  }

  /** The result of a comparison that did not throw; `percent` is the C# `double`, as a real number. */
  datatype Comparison = Comparison(percent: real, notFound: seq<OrderPaymentRecord>)

  /** `CalculateDifferencePercentage(list1, list2)`. The failure is the `ArgumentException` of `ToDictionary`,
      carrying the duplicated order id. */
  function CalculateDifferencePercentage(list1: seq<OrderPaymentRecord>, list2: seq<OrderPaymentRecord>)
    : (r: Result<Comparison, Int64>)
    ensures r.Failure? <==> !DistinctOrderIds(list2)
  {
    var sameCount := SameCount(list1, list2);
    match ToDictionary(list2)
    case Failure(k) => Failure(k)
    case Success(lookup) =>
      var notFound := Filter(Missing(lookup.Keys), list1);
      if |list1| == 0 then Success(Comparison(0.0, []))
      else Success(Comparison(Percent(sameCount, |list1|), notFound))
  }

  /** An empty reference list yields 0 and nothing missing, as long as the candidates have distinct ids. */
  lemma EmptyReference(list2: seq<OrderPaymentRecord>)
    requires DistinctOrderIds(list2)
    ensures CalculateDifferencePercentage([], list2) == Success(Comparison(0.0, []))
  {
  }

  /** Two candidates with one order id make the call throw, whatever the reference list. */
  lemma DuplicateCandidatesFail(list1: seq<OrderPaymentRecord>, list2: seq<OrderPaymentRecord>, i: nat, j: nat)
    requires i < j < |list2| && list2[i].orderId == list2[j].orderId
    ensures CalculateDifferencePercentage(list1, list2).Failure?
  {
  }

  /** The percentage is `sameCount / totalCount * 100`, hence between 0 and 100. */
  lemma PercentInRange(list1: seq<OrderPaymentRecord>, list2: seq<OrderPaymentRecord>)
    requires CalculateDifferencePercentage(list1, list2).Success?
    ensures list1 != [] ==>
              CalculateDifferencePercentage(list1, list2).value.percent
                == Percent(SameCount(list1, list2), |list1|)
    ensures 0.0 <= CalculateDifferencePercentage(list1, list2).value.percent <= 100.0
  {
    if list1 != [] {
      PercentBounds(SameCount(list1, list2), |list1|);
    }
  }

  /** The percentage is 100 exactly when every reference record has an equal candidate. */
  lemma PercentFullIffAllMatch(list1: seq<OrderPaymentRecord>, list2: seq<OrderPaymentRecord>)
    requires CalculateDifferencePercentage(list1, list2).Success? && list1 != []
    ensures CalculateDifferencePercentage(list1, list2).value.percent == 100.0
            <==> forall i :: 0 <= i < |list1| ==> HasSame(list1[i], list2)
  {
    SameCountFull(list1, list2);
    PercentBounds(SameCount(list1, list2), |list1|);
  }

  /** The missing list is exactly the reference records, in reference order, whose order id no candidate has. */
  lemma NotFoundExact(list1: seq<OrderPaymentRecord>, list2: seq<OrderPaymentRecord>)
    requires CalculateDifferencePercentage(list1, list2).Success?
    ensures CalculateDifferencePercentage(list1, list2).value.notFound == Filter(Missing(OrderIds(list2)), list1)
    ensures IsSubsequence(CalculateDifferencePercentage(list1, list2).value.notFound, list1)
    ensures forall i :: 0 <= i < |list1| ==>
              (list1[i] in CalculateDifferencePercentage(list1, list2).value.notFound <==> list1[i].orderId !in OrderIds(list2))
    ensures forall i :: 0 <= i < |list1| ==>
              multiset(CalculateDifferencePercentage(list1, list2).value.notFound)[list1[i]]
              == if list1[i].orderId !in OrderIds(list2) then multiset(list1)[list1[i]] else 0
  {
    FilterIsSubsequence(Missing(OrderIds(list2)), list1);
    FilterMultiset(Missing(OrderIds(list2)), list1);
  }

  /** No reference record is both missing and matched, so the two together are at most the reference size. */
  lemma MissingNotMatched(list1: seq<OrderPaymentRecord>, list2: seq<OrderPaymentRecord>)
    ensures |Filter(Missing(OrderIds(list2)), list1)| + SameCount(list1, list2) <= |list1|
  {
    var keys := OrderIds(list2);
    forall i | 0 <= i < |list1| ensures !(Missing(keys)(list1[i]) && Matched(list2)(list1[i])) {
      if HasSame(list1[i], list2) {
        var j :| 0 <= j < |list2| && SameRecord(list1[i], list2[j]);
        assert list1[i].orderId in keys;
      }
    }
    FilterDisjointLength(Missing(keys), Matched(list2), list1);
    SameCountIsMatchedFilter(list1, list2);
  }

  /** A missing record is never counted as matching: missing plus matching is at most the reference size. */
  lemma MissingAndMatchedDisjoint(list1: seq<OrderPaymentRecord>, list2: seq<OrderPaymentRecord>)
    requires CalculateDifferencePercentage(list1, list2).Success?
    ensures |CalculateDifferencePercentage(list1, list2).value.notFound| + SameCount(list1, list2) <= |list1|
  {
    MissingNotMatched(list1, list2);
  }

  /** A duplicate-free list compared with itself matches fully and misses nothing. */
  lemma SelfComparison(list: seq<OrderPaymentRecord>)
    requires DistinctOrderIds(list) && list != []
    ensures CalculateDifferencePercentage(list, list) == Success(Comparison(100.0, []))
  {
    forall i | 0 <= i < |list| ensures HasSame(list[i], list) {
      assert SameRecord(list[i], list[i]);
    }
    SameCountFull(list, list);
    PercentBounds(|list|, |list|);
    forall i | 0 <= i < |list| ensures !Missing(OrderIds(list))(list[i]) {
      assert list[i].orderId in OrderIds(list);
    }
    FilterNone(Missing(OrderIds(list)), list);
  }

  /** The comparison with the candidates' order ids collected into a set, which tolerates an order that the
      candidate query returns once per payment. On every input, duplicates included, it keeps the guarantees
      of the original: the percentage of reference records with an equal candidate, in [0, 100] and 100
      exactly when every reference record has one, and a missing list that holds, in reference order and with
      every occurrence, exactly the records without a candidate of their order id. */
  function CompareByKeySet(list1: seq<OrderPaymentRecord>, list2: seq<OrderPaymentRecord>): (r: Comparison)
    ensures list1 == [] ==> r == Comparison(0.0, [])
    ensures list1 != [] ==> r.percent == Percent(SameCount(list1, list2), |list1|)
    ensures 0.0 <= r.percent <= 100.0
    ensures list1 != [] ==> (r.percent == 100.0 <==> forall i :: 0 <= i < |list1| ==> HasSame(list1[i], list2))
    ensures IsSubsequence(r.notFound, list1)
    ensures forall i :: 0 <= i < |list1| ==> (list1[i] in r.notFound <==> list1[i].orderId !in OrderIds(list2))
    ensures forall i :: 0 <= i < |list1| ==>
              multiset(r.notFound)[list1[i]] == if list1[i].orderId !in OrderIds(list2) then multiset(list1)[list1[i]] else 0
    ensures |r.notFound| + SameCount(list1, list2) <= |list1|
  {
    if |list1| == 0 then Comparison(0.0, [])
    else
      var sameCount := SameCount(list1, list2);
      var notFound := Filter(Missing(OrderIds(list2)), list1);
      PercentBounds(sameCount, |list1|);
      SameCountFull(list1, list2);
      FilterIsSubsequence(Missing(OrderIds(list2)), list1);
      FilterMultiset(Missing(OrderIds(list2)), list1);
      MissingNotMatched(list1, list2);
      Comparison(Percent(sameCount, |list1|), notFound)
  }

  /** Wherever `CalculateDifferencePercentage` returns, the key-set comparison returns the same. */
  lemma CompareByKeySetAgrees(list1: seq<OrderPaymentRecord>, list2: seq<OrderPaymentRecord>)
    requires CalculateDifferencePercentage(list1, list2).Success?
    ensures CalculateDifferencePercentage(list1, list2).value == CompareByKeySet(list1, list2)
  {
  }

  /** The candidate query joins `orders` with `payments`, so an order with two payments comes back as two
      rows with one order id; the comparison as written then throws instead of comparing. */
  lemma OrderWithTwoPaymentsFails(list1: seq<OrderPaymentRecord>, order: OrderPaymentRecord, firstPayment: Int64, secondPayment: Int64)
    requires firstPayment != secondPayment
    ensures CalculateDifferencePercentage(list1, [order.(paymentId := Some(firstPayment)), order.(paymentId := Some(secondPayment))])
              == Failure(order.orderId)
    ensures CompareByKeySet(list1, [order.(paymentId := Some(firstPayment)), order.(paymentId := Some(secondPayment))]).notFound
              == Filter(Missing({order.orderId}), list1)
  {
    var list2 := [order.(paymentId := Some(firstPayment)), order.(paymentId := Some(secondPayment))];
    assert list2[0].orderId == order.orderId && list2[1].orderId == order.orderId;
    assert OrderIds(list2) == {order.orderId};
    assert ToDictionary(list2[..1]) == Success(map[order.orderId := list2[0]]);
  }
}
