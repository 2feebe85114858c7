/** `getIncompletePaymentUsers` (controllers/mocktestpaymentold.js): the
    orders that never got a verification record, of any status, whose user
    still exists, each with the prices of the series it lists. */
module IncompletePayments {
  import opened Common
  import opened OrderModel
  import opened Store

  /** One entry of `data`: the projected order fields and its `mockTests`,
      the listed series that exist, with their prices (titles, and the
      user's name and email, are profile data left out). */
  datatype IncompleteRow = IncompleteRow(
    userId: UserId,
    mockTestIds: seq<SeriesId>,
    amount: int,
    razorpayOrderId: OrderId,
    createdAt: int,
    mockTests: map<SeriesId, int>)

  /** The response: `success`, `count` and `data`. */
  datatype Report = Report(resp: Response, count: nat, data: seq<IncompleteRow>)

  /** The aggregate's filter: no record under the order's Razorpay order id
      (the `$lookup` and `$size: 0`) and a user document to join (`$unwind`
      drops an order whose user is gone). */
  predicate Incomplete(d: DB, o: Order)
  {
    o.razorpayOrderId !in d.verifications && o.userId in d.owned
  }

  /** `scan` is the Order collection in the order the aggregate reads it:
      every stored order, each once. */
  predicate ScanOf(d: DB, scan: seq<Order>)
  {
    && Distinct(scan)
    && (forall o | o in scan :: o in d.orders.Values)
    && (forall k | k in d.orders :: d.orders[k] in scan)
  }

  /** The aggregate's output over the collection in scan order. */
  function PendingOrders(d: DB, scan: seq<Order>): seq<Order>
  {
    if scan == [] then []
    else (if Incomplete(d, scan[0]) then [scan[0]] else []) + PendingOrders(d, scan[1..])
  }

  /** The projection and the per-order `MockTestSeries.find` enrichment. */
  function Enrich(d: DB, o: Order): (row: IncompleteRow)
    ensures row.userId == o.userId && row.mockTestIds == o.mockTestIds && row.razorpayOrderId == o.razorpayOrderId
    ensures forall s | s in row.mockTests :: s in o.mockTestIds && s in d.price && row.mockTests[s] == d.price[s]
    ensures forall i | 0 <= i < |o.mockTestIds| && o.mockTestIds[i] in d.price :: o.mockTestIds[i] in row.mockTests
  {
    IncompleteRow(o.userId, o.mockTestIds, o.amount, o.razorpayOrderId, o.createdAt,
                  map s | s in o.mockTestIds && s in d.price :: d.price[s])
  }

  /** The handler, given the Order collection in the order the aggregate
      scans it. */
  function GetIncompletePaymentUsers(d: DB, scan: seq<Order>): (r: Report)
    requires ScanOf(d, scan)
    ensures r.resp == Response(200, true) && r.count == |r.data|
    ensures r.data == [] ==> r.count == 0
  {
    var pending := PendingOrders(d, scan);
    if |pending| == 0 then Report(Response(200, true), 0, [])
    else
      var data := seq(|pending|, i requires 0 <= i < |pending| => Enrich(d, pending[i]));
      Report(Response(200, true), |data|, data)
  }

  /** The aggregate keeps exactly the incomplete orders of the scan, in
      scan order. */
  lemma {:induction false} PendingOrdersExact(d: DB, scan: seq<Order>)
    ensures forall o :: o in PendingOrders(d, scan) <==> o in scan && Incomplete(d, o)
    ensures |PendingOrders(d, scan)| <= |scan|
  {
    if scan != [] {
      PendingOrdersExact(d, scan[1..]);
      assert scan == [scan[0]] + scan[1..];
    }
  }

  /** A scan that lists no order twice yields no row twice. */
  lemma {:induction false} PendingOrdersDistinct(d: DB, scan: seq<Order>)
    requires Distinct(scan)
    ensures Distinct(PendingOrders(d, scan))
  {
    if scan != [] {
      var rest := scan[1..];
      forall i, j | 0 <= i < j < |rest|
        ensures rest[i] != rest[j]
      {
        assert rest[i] == scan[i + 1] && rest[j] == scan[j + 1];
      }
      PendingOrdersDistinct(d, rest);
      PendingOrdersExact(d, rest);
      var p := PendingOrders(d, rest);
      if Incomplete(d, scan[0]) {
        forall k | 0 <= k < |rest|
          ensures rest[k] != scan[0]
        {
          assert rest[k] == scan[k + 1];
        }
        assert scan[0] !in rest;
        var q := [scan[0]] + p;
        forall i, j | 0 <= i < j < |q|
          ensures q[i] != q[j]
        {
          assert q[j] == p[j - 1] && q[j] in p && q[j] in rest;
          if i > 0 {
            assert q[i] == p[i - 1];
          }
        }
        assert PendingOrders(d, scan) == q;
      } else {
        assert PendingOrders(d, scan) == [] + p;
        assert [] + p == p;
      }
    }
  }

  /** The report lists a row for a stored order exactly when the order is
      incomplete: it has no record of any status and its user exists. Every
      row carries its order's fields and the prices of its existing series,
      and `count` is the number of incomplete orders in the collection. */
  lemma IncompleteReportExact(d: DB, scan: seq<Order>)
    requires ScanOf(d, scan)
    ensures var r := GetIncompletePaymentUsers(d, scan);
            forall o | o in d.orders.Values && Incomplete(d, o) :: Enrich(d, o) in r.data
    ensures var r := GetIncompletePaymentUsers(d, scan);
            forall row | row in r.data :: exists o :: o in d.orders.Values && Incomplete(d, o) && row == Enrich(d, o)
    ensures GetIncompletePaymentUsers(d, scan).count == |set o | o in d.orders.Values && Incomplete(d, o)|
    ensures var r := GetIncompletePaymentUsers(d, scan);
            forall i | 0 <= i < |r.data| ::
              && r.data[i].razorpayOrderId !in d.verifications
              && forall s | s in r.data[i].mockTests ::
                   s in r.data[i].mockTestIds && s in d.price && r.data[i].mockTests[s] == d.price[s]
  {
    PendingOrdersExact(d, scan);
    PendingOrdersDistinct(d, scan);
    var pending := PendingOrders(d, scan);
    var r := GetIncompletePaymentUsers(d, scan);
    forall o | o in d.orders.Values && Incomplete(d, o)
      ensures Enrich(d, o) in r.data
    {
      assert o in scan;
      var i :| 0 <= i < |pending| && pending[i] == o;
      assert r.data[i] == Enrich(d, o);
    }
    forall row | row in r.data
      ensures exists o :: o in d.orders.Values && Incomplete(d, o) && row == Enrich(d, o)
    {
      var i :| 0 <= i < |r.data| && r.data[i] == row;
      assert pending[i] in pending;
      assert pending[i] in scan;
      assert pending[i] in d.orders.Values && Incomplete(d, pending[i]) && row == Enrich(d, pending[i]);
    }
    forall i | 0 <= i < |r.data|
      ensures r.data[i].razorpayOrderId !in d.verifications
    {
      assert pending[i] in pending;
    }
    var incomplete := set o | o in d.orders.Values && Incomplete(d, o);
    assert SetOf(pending) == incomplete;
    SetOfCardinality(pending);
  }

  /** The report is empty exactly when no stored order is incomplete: every
      order has a record, completed or failed, or its user is gone. It is
      then 200 with count 0 and no data. */
  lemma IncompleteReportEmpty(d: DB, scan: seq<Order>)
    requires ScanOf(d, scan)
    ensures GetIncompletePaymentUsers(d, scan).data == [] <==> forall o | o in d.orders.Values :: !Incomplete(d, o)
    ensures (forall o | o in d.orders.Values :: !Incomplete(d, o)) ==>
              GetIncompletePaymentUsers(d, scan) == Report(Response(200, true), 0, [])
  {
    if forall o | o in d.orders.Values :: !Incomplete(d, o) {
      NoPendingOrders(d, scan);
    } else {
      var o :| o in d.orders.Values && Incomplete(d, o);
      PendingOrdersExact(d, scan);
      assert o in PendingOrders(d, scan);
    }
  }

  lemma {:induction false} NoPendingOrders(d: DB, scan: seq<Order>)
    requires forall o | o in scan :: !Incomplete(d, o)
    ensures PendingOrders(d, scan) == []
  {
    if scan != [] {
      assert scan[0] in scan;
      NoPendingOrders(d, scan[1..]);
    }
  }
}
