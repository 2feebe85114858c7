/** The document store the payment handlers work on: the Order and
    PaymentVerification collections with their unique indexes, each mock-test
    series' `studentsEnrolled` set and price, and each user's `mocktests`
    set. `DB` is its value; `Store` is the mutable store the handlers update. */
module Store {
  import opened Common
  import opened OrderModel
  import opened VerificationModel

  datatype DB = DB(
    orders: map<OrderId, Order>,                 // keyed by Razorpay order id
    orderKeys: map<string, OrderId>,             // unique index on idempotencyKey
    verifications: map<OrderId, Verification>,   // keyed by Razorpay order id
    paymentIds: map<PaymentId, OrderId>,         // unique index on razorpayPaymentId
    enrolled: map<SeriesId, set<UserId>>,        // MockTestSeries.studentsEnrolled
    owned: map<UserId, set<SeriesId>>,           // User.mocktests
    price: map<SeriesId, int>)                   // MockTestSeries.price

  /** A handler's result: its response and the store it leaves behind. */
  datatype Outcome = Outcome(resp: Response, db: DB)

  /** What the schemas and the store guarantee: every document sits under
      its own key and passed validation, both unique indexes of each
      collection are exact, every order is still `created`, and the series
      with an enrolment set are the series with a price. */
  predicate Valid(d: DB)
  {
    && (forall k | k in d.orders ::
          && d.orders[k].razorpayOrderId == k
          && d.orders[k].status == Created
          && OrderHasRequired(d.orders[k])
          && d.orders[k].idempotencyKey in d.orderKeys
          && d.orderKeys[d.orders[k].idempotencyKey] == k)
    && (forall key | key in d.orderKeys ::
          d.orderKeys[key] in d.orders && d.orders[d.orderKeys[key]].idempotencyKey == key)
    && (forall k | k in d.verifications ::
          && d.verifications[k].razorpayOrderId == k
          && RecordHasRequired(d.verifications[k])
          && d.verifications[k].razorpayPaymentId in d.paymentIds
          && d.paymentIds[d.verifications[k].razorpayPaymentId] == k)
    && (forall p | p in d.paymentIds ::
          d.paymentIds[p] in d.verifications && d.verifications[d.paymentIds[p]].razorpayPaymentId == p)
    && d.enrolled.Keys == d.price.Keys
  }

  /** A fresh store: the catalog's series with their prices and nobody
      enrolled, the given users owning nothing, no orders, no records. */
  function Empty(catalog: map<SeriesId, int>, users: set<UserId>): (d: DB)
    ensures Valid(d)
  {
    DB(map[], map[], map[], map[], map s | s in catalog :: {}, map u | u in users :: {}, catalog)
  }

  /** The unique index on `idempotencyKey` (models/order.js): two orders
      with one key are one order. */
  lemma OneOrderPerKey(d: DB, k1: OrderId, k2: OrderId)
    requires Valid(d) && k1 in d.orders && k2 in d.orders
    requires d.orders[k1].idempotencyKey == d.orders[k2].idempotencyKey
    ensures k1 == k2
  {
  }

  /** The unique index on `razorpayPaymentId` (models/paymentVerification.js):
      two records with one payment id are one record. */
  lemma OneRecordPerPayment(d: DB, k1: OrderId, k2: OrderId)
    requires Valid(d) && k1 in d.verifications && k2 in d.verifications
    requires d.verifications[k1].razorpayPaymentId == d.verifications[k2].razorpayPaymentId
    ensures k1 == k2
  {
  }

  /** `Order.create`: validation, then the two unique indexes; a violation
      throws and nothing is written. */
  function InsertOrder(d: DB, o: Order): (r: Option<DB>)
    ensures r.Some? <==> OrderHasRequired(o) && o.razorpayOrderId !in d.orders && o.idempotencyKey !in d.orderKeys
    ensures r.Some? ==> r.value.orders == d.orders[o.razorpayOrderId := o]
                        && r.value.verifications == d.verifications && r.value.paymentIds == d.paymentIds
                        && r.value.enrolled == d.enrolled && r.value.owned == d.owned && r.value.price == d.price
    ensures r.Some? && Valid(d) && o.status == Created ==> Valid(r.value)
  {
    if !OrderHasRequired(o) || o.razorpayOrderId in d.orders || o.idempotencyKey in d.orderKeys then None
    else Some(d.(orders := d.orders[o.razorpayOrderId := o],
                 orderKeys := d.orderKeys[o.idempotencyKey := o.razorpayOrderId]))
  }

  /** `PaymentVerification.create`: defaults, validation, then the unique
      indexes on the Razorpay order id and payment id; a violation throws and
      nothing is written. A success adds exactly one record, under its order id. */
  function InsertRecord(d: DB, dr: Draft, now: int): (r: Option<DB>)
    ensures r.Some? <==> && RecordHasRequired(WithDefaults(dr, now))
                         && dr.razorpayOrderId !in d.verifications
                         && dr.razorpayPaymentId !in d.paymentIds
    ensures r.Some? ==> r.value.verifications == d.verifications[dr.razorpayOrderId := WithDefaults(dr, now)]
                        && r.value.orders == d.orders && r.value.orderKeys == d.orderKeys
                        && r.value.enrolled == d.enrolled && r.value.owned == d.owned && r.value.price == d.price
    ensures r.Some? && Valid(d) ==> Valid(r.value)
  {
    var v := WithDefaults(dr, now);
    if !RecordHasRequired(v) || v.razorpayOrderId in d.verifications || v.razorpayPaymentId in d.paymentIds then None
    else Some(d.(verifications := d.verifications[v.razorpayOrderId := v],
                 paymentIds := d.paymentIds[v.razorpayPaymentId := v.razorpayOrderId]))
  }

  /** The series among `ids` that exist and do not list `user`: the documents
      matched by `{_id: {$in: ids}, studentsEnrolled: {$ne: user}}`. */
  function Unheld(enrolled: map<SeriesId, set<UserId>>, ids: seq<SeriesId>, user: UserId): (m: set<SeriesId>)
    ensures m <= SetOf(ids) && m <= enrolled.Keys
  {
    set s | s in ids && s in enrolled && user !in enrolled[s]
  }

  /** Every listed series counts as matched exactly when the list has no
      repetition, and every listed id names a series that does not yet list
      the user. */
  lemma UnheldCoversAll(enrolled: map<SeriesId, set<UserId>>, ids: seq<SeriesId>, user: UserId)
    ensures |Unheld(enrolled, ids, user)| == |ids| <==>
              Distinct(ids) && forall i :: 0 <= i < |ids| ==> ids[i] in enrolled && user !in enrolled[ids[i]]
  {
    var m := Unheld(enrolled, ids, user);
    SetOfCardinality(ids);
    SubsetCardinality(m, SetOf(ids));
    if |m| == |ids| {
      assert m == SetOf(ids);
      forall i | 0 <= i < |ids|
        ensures ids[i] in enrolled && user !in enrolled[ids[i]]
      {
        assert ids[i] in SetOf(ids);
      }
    }
    if Distinct(ids) && forall i :: 0 <= i < |ids| ==> ids[i] in enrolled && user !in enrolled[ids[i]] {
      forall s | s in SetOf(ids)
        ensures s in m
      {
        var i :| 0 <= i < |ids| && ids[i] == s;
      }
      assert m == SetOf(ids);
    }
  }

  /** `$addToSet: {studentsEnrolled: user}` on every existing series named in
      `ids`; adding a member twice is a no-op. */
  function AddUserTo(enrolled: map<SeriesId, set<UserId>>, ids: set<SeriesId>, user: UserId): (e: map<SeriesId, set<UserId>>)
    ensures e.Keys == enrolled.Keys
    ensures forall s | s in e :: e[s] == (if s in ids then enrolled[s] + {user} else enrolled[s])
  {
    map s | s in enrolled :: if s in ids then enrolled[s] + {user} else enrolled[s]
  }

  /** Once the user has been added, no listed series is left unmatched, and
      adding again changes nothing. */
  lemma AddUserToSettles(enrolled: map<SeriesId, set<UserId>>, ids: seq<SeriesId>, user: UserId)
    ensures Unheld(AddUserTo(enrolled, SetOf(ids), user), ids, user) == {}
    ensures AddUserTo(AddUserTo(enrolled, SetOf(ids), user), SetOf(ids), user) == AddUserTo(enrolled, SetOf(ids), user)
  {
  }

  /** One `updateOne` with filter `{_id: id, studentsEnrolled: {$ne: user}}`
      and `$addToSet` is the same as adding the user to that one series. */
  lemma AddUserToStep(enrolled: map<SeriesId, set<UserId>>, done: set<SeriesId>, id: SeriesId, user: UserId)
    ensures var e := AddUserTo(enrolled, done, user);
            AddUserTo(enrolled, done + {id}, user)
              == if id in e && user !in e[id] then e[id := e[id] + {user}] else e
  {
    var e := AddUserTo(enrolled, done, user);
    var e' := AddUserTo(enrolled, done + {id}, user);
    if id in e && user !in e[id] {
      assert e' == e[id := e[id] + {user}];
    } else {
      assert forall s | s in e' :: e'[s] == e[s];
      assert e' == e;
    }
  }

  /** Adding the user to one group of series and then to another is adding
      them to both groups at once. */
  lemma AddUserToUnion(enrolled: map<SeriesId, set<UserId>>, a: set<SeriesId>, b: set<SeriesId>, user: UserId)
    ensures AddUserTo(AddUserTo(enrolled, a, user), b, user) == AddUserTo(enrolled, a + b, user)
  {
    var e1 := AddUserTo(AddUserTo(enrolled, a, user), b, user);
    var e2 := AddUserTo(enrolled, a + b, user);
    assert forall s | s in e1 :: e1[s] == e2[s];
  }

  /** `User.updateOne({_id: user}, {$addToSet: {mocktests: {$each: ids}}})`:
      a user with no document is matched by nothing and nothing changes. */
  function GrantOwned(owned: map<UserId, set<SeriesId>>, user: UserId, ids: seq<SeriesId>): (o: map<UserId, set<SeriesId>>)
    ensures o.Keys == owned.Keys
    ensures user in owned ==> o[user] == owned[user] + SetOf(ids)
    ensures forall u | u in owned && u != user :: o[u] == owned[u]
  {
    if user in owned then owned[user := owned[user] + SetOf(ids)] else owned
  }

  /** The document store. Its fields are the collections; a handler's
      transaction takes a snapshot with `Value()` and aborts with `Restore`. */
  class Store {
    var orders: map<OrderId, Order>
    var orderKeys: map<string, OrderId>
    var verifications: map<OrderId, Verification>
    var paymentIds: map<PaymentId, OrderId>
    var enrolled: map<SeriesId, set<UserId>>
    var owned: map<UserId, set<SeriesId>>
    var price: map<SeriesId, int>

    function Value(): DB
      reads this
    {
      DB(orders, orderKeys, verifications, paymentIds, enrolled, owned, price)
    }

    constructor (catalog: map<SeriesId, int>, users: set<UserId>)
      ensures Value() == Empty(catalog, users) && Valid(Value())
    {
      orders, orderKeys := map[], map[];
      verifications, paymentIds := map[], map[];
      enrolled := map s | s in catalog :: {};
      owned := map u | u in users :: {};
      price := catalog;
    }

    /** `session.abortTransaction()`: every write since the snapshot is undone. */
    method Restore(snapshot: DB)
      modifies this
      ensures Value() == snapshot
    {
      orders, orderKeys := snapshot.orders, snapshot.orderKeys;
      verifications, paymentIds := snapshot.verifications, snapshot.paymentIds;
      enrolled, owned, price := snapshot.enrolled, snapshot.owned, snapshot.price;
    }

    /** `Order.create`; `ok` is false when it throws. */
    method CreateOrder(o: Order) returns (ok: bool)
      modifies this
      ensures ok == InsertOrder(old(Value()), o).Some?
      ensures Value() == if ok then InsertOrder(old(Value()), o).value else old(Value())
    {
      ok := OrderHasRequired(o) && o.razorpayOrderId !in orders && o.idempotencyKey !in orderKeys;
      if ok {
        orders := orders[o.razorpayOrderId := o];
        orderKeys := orderKeys[o.idempotencyKey := o.razorpayOrderId];
      }
    }

    /** `PaymentVerification.create`; `ok` is false when it throws. */
    method CreateVerification(dr: Draft, now: int) returns (ok: bool)
      modifies this
      ensures ok == InsertRecord(old(Value()), dr, now).Some?
      ensures Value() == if ok then InsertRecord(old(Value()), dr, now).value else old(Value())
    {
      var v := WithDefaults(dr, now);
      ok := RecordHasRequired(v) && v.razorpayOrderId !in verifications && v.razorpayPaymentId !in paymentIds;
      if ok {
        verifications := verifications[v.razorpayOrderId := v];
        paymentIds := paymentIds[v.razorpayPaymentId := v.razorpayOrderId];
      }
    }

    /** `MockTestSeries.updateMany({_id: {$in: ids}, studentsEnrolled: {$ne: user}},
        {$addToSet: {studentsEnrolled: user}})`, returning `modifiedCount`. */
    method UpdateManyEnroll(ids: seq<SeriesId>, user: UserId) returns (modified: nat)
      modifies this
      ensures modified == |Unheld(old(enrolled), ids, user)|
      ensures Value() == old(Value()).(enrolled := AddUserTo(old(enrolled), SetOf(ids), user))
    {
      modified := |Unheld(enrolled, ids, user)|;
      enrolled := AddUserTo(enrolled, SetOf(ids), user);
    }

    /** `MockTestSeries.updateOne({_id: id, studentsEnrolled: {$ne: user}},
        {$addToSet: {studentsEnrolled: user}})`. */
    method UpdateOneEnroll(id: SeriesId, user: UserId)
      modifies this
      ensures Value() == old(Value()).(enrolled := AddUserTo(old(enrolled), {id}, user))
    {
      AddUserToStep(enrolled, {}, id, user);
      assert AddUserTo(enrolled, {}, user) == enrolled;
      if id in enrolled && user !in enrolled[id] {
        enrolled := enrolled[id := enrolled[id] + {user}];
      }
    }

    /** `User.updateOne({_id: user}, {$addToSet: {mocktests: {$each: ids}}})`. */
    method AddToOwned(user: UserId, ids: seq<SeriesId>)
      modifies this
      ensures Value() == old(Value()).(owned := GrantOwned(old(owned), user, ids))
    {
      if user in owned {
        owned := owned[user := owned[user] + SetOf(ids)];
      }
    }
  }
}
