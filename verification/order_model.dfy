/** The Order collection (models/order.js): one document per payment intent,
    written by the capture handler once the payment gateway has created its
    own order. */
module OrderModel {
  import opened Common

  /** The schema's status enum. Only `Created`, the default, is ever stored:
      no handler of the model moves an order to `Paid` or `Failed`. */
  datatype OrderStatus = Created | Paid | Failed

  datatype Order = Order(
    userId: UserId,
    mockTestIds: seq<SeriesId>,   // the series bought, as listed at creation
    amount: int,                  // in rupees (the gateway is asked for 100 times this)
    razorpayOrderId: OrderId,     // unique
    idempotencyKey: string,       // unique
    status: OrderStatus,
    createdAt: int)

  /** `Order.create` with the fields the capture handler passes; the schema
      supplies `status` and `createdAt`. */
  function NewOrder(userId: UserId, ids: seq<SeriesId>, amount: int, razorpayOrderId: OrderId,
                    key: string, now: int): (o: Order)
    ensures o.status == Created && o.createdAt == now
  {
    Order(userId, ids, amount, razorpayOrderId, key, Created, now)
  }

  /** The schema's `required` string fields: Mongoose rejects an empty
      string for a required String or ObjectId. (`amount` is always a number
      where the model creates orders.) */
  predicate OrderHasRequired(o: Order)
  {
    o.userId != "" && o.razorpayOrderId != "" && o.idempotencyKey != ""
  }
}
