/** `captureMockTestPayment` (controllers/mocktestPaymet.js): the first step
    of a purchase. It reuses the order already recorded under the request's
    idempotency key, or checks that every requested series exists and is not
    yet held by the user, asks the payment gateway for an order of 100 times
    the total price in INR, and records that order. */
module Capture {
  import opened Common
  import opened OrderModel
  import opened Store
  import opened IdempotencyKey

  /** The request sent to the gateway's `orders.create`: the amount in paise
      and the currency (the random receipt is left out). */
  datatype GatewayRequest = GatewayRequest(amount: int, currency: string)

  /** The body of the response besides `success`: the order already
      recorded under the key, the gateway's new order, or only a message. */
  datatype CaptureBody = MessageOnly | Existing(order: Order) | NewGatewayOrder(razorpayOrderId: OrderId)

  /** A capture's response, the gateway call it made (if any), the body and
      the store it leaves behind. */
  datatype CaptureOutcome = CaptureOutcome(resp: Response, call: Option<GatewayRequest>, body: CaptureBody, db: DB)

  /** `Order.findOne({idempotencyKey})`. */
  function FindByKey(d: DB, key: string): (r: Option<Order>)
    ensures r.Some? ==> r.value in d.orders.Values
    ensures Valid(d) ==> (r.Some? <==> key in d.orderKeys)
    ensures Valid(d) && r.Some? ==> r.value.idempotencyKey == key
  {
    if key in d.orderKeys && d.orderKeys[key] in d.orders then Some(d.orders[d.orderKeys[key]]) else None
  }

  /** The aggregate's `$sum` of prices; a series without a price adds 0. When
      the handler goes on, every id names a distinct existing series, so this
      is the sum over the matched documents. */
  function SumPrices(price: map<SeriesId, int>, ids: seq<SeriesId>): int
  {
    if ids == [] then 0
    else (if ids[0] in price then price[ids[0]] else 0) + SumPrices(price, ids[1..])
  }

  /** The handler given the ids and the idempotency key it settled on,
      the clock, and the gateway's reply (`None` when `orders.create` throws). */
  function CaptureSpec(d: DB, userId: UserId, ids: seq<SeriesId>, key: string, now: int,
                       reply: Option<OrderId>): CaptureOutcome
  {
    if |ids| == 0 then
      CaptureOutcome(Response(400, false), None, MessageOnly, d)
    else if FindByKey(d, key).Some? then
      CaptureOutcome(Response(200, true), None, Existing(FindByKey(d, key).value), d)
    else
      var matched := Unheld(d.enrolled, ids, userId);
      if |matched| == 0 || |matched| != |ids| then
        CaptureOutcome(Response(400, false), None, MessageOnly, d)
      else
        var total := SumPrices(d.price, ids);
        var call := Some(GatewayRequest(total * 100, "INR"));
        match reply
        case None => CaptureOutcome(Response(500, false), call, MessageOnly, d)
        case Some(razorpayOrderId) =>
          match InsertOrder(d, NewOrder(userId, ids, total, razorpayOrderId, key, now))
          case None => CaptureOutcome(Response(500, false), call, MessageOnly, d)
          case Some(d') => CaptureOutcome(Response(200, true), call, NewGatewayOrder(razorpayOrderId), d')
  }

  /** The handler on the store. The key is the `Idempotency-Key` header when
      present, else derived from the user, the ids and the clock, which also
      sorts the caller's id array in place; the stored order lists the ids in
      that order. */
  method CaptureMockTestPayment(db: Store, crypto: Crypto, userId: UserId, itemIds: array<SeriesId>,
                                headerKey: string, now: nat, reply: Option<OrderId>)
    returns (resp: Response, call: Option<GatewayRequest>, body: CaptureBody)
    modifies db, itemIds
    ensures headerKey != "" ==> itemIds[..] == old(itemIds[..])
    ensures headerKey == "" ==> Sorted(itemIds[..]) && multiset(itemIds[..]) == multiset(old(itemIds[..]))
    ensures var key := if headerKey != "" then headerKey else DerivedKey(crypto, userId, itemIds[..], now);
            CaptureOutcome(resp, call, body, db.Value()) == CaptureSpec(old(db.Value()), userId, itemIds[..], key, now, reply)
  {
    var key := headerKey;
    if key == "" {
      key := GenerateIdempotencyKey(crypto, userId, itemIds, now);
    }
    var ids := itemIds[..];
    call, body := None, MessageOnly;
    if |ids| == 0 {
      resp := Response(400, false);
      return;
    }
    var existing := FindByKey(db.Value(), key);
    if existing.Some? {
      resp, body := Response(200, true), Existing(existing.value);
      return;
    }
    var count := |Unheld(db.enrolled, ids, userId)|;
    if count == 0 || count != |ids| {
      resp := Response(400, false);
      return;
    }
    var total := SumPrices(db.price, ids);
    call := Some(GatewayRequest(total * 100, "INR"));
    if reply.None? {
      resp := Response(500, false);
      return;
    }
    var created := db.CreateOrder(NewOrder(userId, ids, total, reply.value, key, now));
    if created {
      resp, body := Response(200, true), NewGatewayOrder(reply.value);
    } else {
      resp := Response(500, false);
    }
  }

  /** The gateway is asked for an order exactly when the list is non-empty,
      nothing is recorded under the key, the ids do not repeat, and every id
      names an existing series the user does not yet hold; the amount asked
      is 100 times the sum of their prices, in INR. */
  lemma CaptureCallsGateway(d: DB, userId: UserId, ids: seq<SeriesId>, key: string, now: int, reply: Option<OrderId>)
    ensures var r := CaptureSpec(d, userId, ids, key, now, reply);
            r.call.Some? <==> && |ids| > 0 && FindByKey(d, key).None? && Distinct(ids)
                              && forall i :: 0 <= i < |ids| ==> ids[i] in d.enrolled && userId !in d.enrolled[ids[i]]
    ensures var r := CaptureSpec(d, userId, ids, key, now, reply);
            r.call.Some? ==> r.call.value == GatewayRequest(100 * SumPrices(d.price, ids), "INR")
  {
    UnheldCoversAll(d.enrolled, ids, userId);
  }

  /** A series that is unknown, listed twice, or already held by the user
      makes the handler answer 400 without calling the gateway or writing. */
  lemma CaptureRejectsUnavailable(d: DB, userId: UserId, ids: seq<SeriesId>, key: string, now: int,
                                  reply: Option<OrderId>, i: nat, j: nat)
    requires FindByKey(d, key).None?
    requires i < |ids| && j < |ids|
    requires ids[i] !in d.enrolled || userId in d.enrolled[ids[i]] || (i != j && ids[i] == ids[j])
    ensures CaptureSpec(d, userId, ids, key, now, reply) == CaptureOutcome(Response(400, false), None, MessageOnly, d)
  {
    UnheldCoversAll(d.enrolled, ids, userId);
  }

  /** An order is recorded exactly when the gateway was called and replied
      with an id, and the id, the key and the user are present and unused.
      The new order is the only change: it lists the requested ids, the user,
      the key, the total price, status `created`; nobody is enrolled or
      granted anything and no verification record is written. */
  lemma CaptureRecordsOrder(d: DB, userId: UserId, ids: seq<SeriesId>, key: string, now: int, reply: Option<OrderId>)
    ensures var r := CaptureSpec(d, userId, ids, key, now, reply);
            r.db != d ==> r.resp == Response(200, true) && r.body.NewGatewayOrder?
    ensures var r := CaptureSpec(d, userId, ids, key, now, reply);
            r.body.NewGatewayOrder? <==> && r.call.Some? && reply.Some? && reply.value != "" && reply.value !in d.orders
                                         && key != "" && key !in d.orderKeys && userId != ""
    ensures var r := CaptureSpec(d, userId, ids, key, now, reply);
            r.body.NewGatewayOrder? ==>
              && r.body.razorpayOrderId == reply.value
              && r.db == d.(orders := d.orders[reply.value := Order(userId, ids, SumPrices(d.price, ids), reply.value, key, Created, now)],
                            orderKeys := d.orderKeys[key := reply.value])
  {
    var r := CaptureSpec(d, userId, ids, key, now, reply);
    if r.call.Some? && reply.Some? && key !in d.orderKeys {
      assert FindByKey(d, key).None?;
    }
  }

  /** Replaying a request under a key that already has an order returns that
      order with 200, whatever ids the replay lists, without calling the
      gateway or writing. */
  lemma CaptureReplay(d: DB, userId: UserId, ids: seq<SeriesId>, key: string, now: int, reply: Option<OrderId>)
    requires |ids| > 0 && key in d.orderKeys && Valid(d)
    ensures CaptureSpec(d, userId, ids, key, now, reply)
              == CaptureOutcome(Response(200, true), None, Existing(d.orders[d.orderKeys[key]]), d)
  {
  }

  /** Two captures under one key create at most one order: once the first
      has recorded its order, the second, with any non-empty ids, any clock and
      any gateway reply, returns that order and changes nothing. */
  lemma {:induction false} CaptureTwiceOneOrder(d: DB, userId: UserId, ids: seq<SeriesId>, ids2: seq<SeriesId>,
                                                 key: string, now: int, now2: int,
                                                 reply: Option<OrderId>, reply2: Option<OrderId>)
    requires CaptureSpec(d, userId, ids, key, now, reply).body.NewGatewayOrder?
    requires |ids2| > 0
    ensures var r1 := CaptureSpec(d, userId, ids, key, now, reply);
            var r2 := CaptureSpec(r1.db, userId, ids2, key, now2, reply2);
            && r2.db == r1.db && r2.call.None? && r2.resp == Response(200, true)
            && r2.body == Existing(r1.db.orders[reply.value])
  {
    CaptureRecordsOrder(d, userId, ids, key, now, reply);
  }

  /** The status codes of the paths that end without an order: an empty
      list gets 400 before anything is looked up; once the gateway has been
      asked, a gateway error or a create that throws gets 500 and writes
      nothing. A 500 comes from nowhere else. */
  lemma CaptureStatusCodes(d: DB, userId: UserId, ids: seq<SeriesId>, key: string, now: int, reply: Option<OrderId>)
    ensures |ids| == 0 ==> CaptureSpec(d, userId, ids, key, now, reply) == CaptureOutcome(Response(400, false), None, MessageOnly, d)
    ensures var r := CaptureSpec(d, userId, ids, key, now, reply);
            r.call.Some? && reply.None? ==> r.resp == Response(500, false) && r.body == MessageOnly && r.db == d
    ensures var r := CaptureSpec(d, userId, ids, key, now, reply);
            r.resp.status == 500 <==> r.call.Some? && !r.body.NewGatewayOrder?
    ensures var r := CaptureSpec(d, userId, ids, key, now, reply);
            r.resp.status == 500 ==> r.db == d
  {
  }

  /** Capture keeps every store invariant. */
  lemma CaptureKeepsValid(d: DB, userId: UserId, ids: seq<SeriesId>, key: string, now: int, reply: Option<OrderId>)
    requires Valid(d)
    ensures Valid(CaptureSpec(d, userId, ids, key, now, reply).db)
  {
  }
}
