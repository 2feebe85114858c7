/** The PaymentVerification collection (models/paymentVerification.js): the
    record that a Razorpay order has been settled, successfully or not. */
module VerificationModel {
  import opened Common

  /** The schema's status enum; `Completed` is the default. */
  datatype VerificationStatus = Completed | Failed

  datatype Verification = Verification(
    userId: UserId,                   // required
    razorpayOrderId: OrderId,         // required, unique
    razorpayPaymentId: PaymentId,     // required, unique
    mockTestIds: seq<SeriesId>,       // defaults to []
    amount: Option<int>,              // optional
    status: VerificationStatus,       // required, defaults to Completed
    paymentMethod: Option<string>,    // optional
    failureReason: Option<string>,    // optional
    webhookProcessedAt: Option<int>,  // required
    createdAt: int)

  /** The fields one `PaymentVerification.create` call supplies; `None` is a
      field the call leaves out. */
  datatype Draft = Draft(
    userId: UserId,
    razorpayOrderId: OrderId,
    razorpayPaymentId: PaymentId,
    mockTestIds: Option<seq<SeriesId>>,
    amount: Option<int>,
    status: Option<VerificationStatus>,
    paymentMethod: Option<string>,
    failureReason: Option<string>,
    webhookProcessedAt: Option<int>)

  /** The document Mongoose builds from a draft before validating it: the
      schema's defaults fill `status`, `mockTestIds` and `createdAt`; every
      supplied field is kept as given. */
  function WithDefaults(dr: Draft, now: int): (v: Verification)
    ensures v.status == (if dr.status.Some? then dr.status.value else Completed)
    ensures v.mockTestIds == (if dr.mockTestIds.Some? then dr.mockTestIds.value else [])
    ensures v.webhookProcessedAt == dr.webhookProcessedAt && v.createdAt == now
  {
    Verification(
      dr.userId, dr.razorpayOrderId, dr.razorpayPaymentId,
      match dr.mockTestIds { case Some(ids) => ids case None => [] },
      dr.amount,
      match dr.status { case Some(s) => s case None => Completed },
      dr.paymentMethod, dr.failureReason, dr.webhookProcessedAt, now)
  }

  /** The schema's `required` fields. `webhookProcessedAt` has no default,
      so a draft that leaves it out never validates. */
  predicate RecordHasRequired(v: Verification)
  {
    v.userId != "" && v.razorpayOrderId != "" && v.razorpayPaymentId != ""
    && v.webhookProcessedAt.Some?
  }
}
