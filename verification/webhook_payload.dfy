/** What a Razorpay webhook delivers, as both webhook handlers read it
    (controllers/mocktestPaymet.js and controllers/mocktestpaymentold.js),
    and the verification records they write for it. */
module WebhookPayload {
  import opened Common
  import opened OrderModel
  import opened VerificationModel

  /** `payload.payment.entity`: the payment id, its order id, the amount,
      the method (`method`), `notes.userId` ("" when absent) and `error_description`. */
  datatype PaymentEntity = PaymentEntity(
    id: PaymentId,
    orderId: OrderId,
    amount: Option<int>,
    paymentMethod: Option<string>,
    notesUserId: UserId,
    errorDescription: Option<string>)

  /** The request body: the event name and the payment entity, `None` when
      `payload.payment.entity` cannot be read. */
  datatype WebhookBody = WebhookBody(event: string, payment: Option<PaymentEntity>)

  const PaymentCaptured: string := "payment.captured"
  const PaymentFailed: string := "payment.failed"

  /** The `x-razorpay-signature` header equals the HMAC-SHA256, under the
      webhook secret, of the body as `JSON.stringify` prints it. */
  predicate SignatureValid(crypto: Crypto, secret: string, signature: string, body: WebhookBody,
                           stringify: WebhookBody -> string)
  {
    signature == crypto.hmacSha256(secret, stringify(body))
  }

  /** The record for a captured payment: the order's user and series, the
      payment's id, amount and method, status completed, stamped now. */
  function CompletedDraft(o: Order, ev: PaymentEntity, now: int): (dr: Draft)
    ensures WithDefaults(dr, now).status == Completed && WithDefaults(dr, now).mockTestIds == o.mockTestIds
    ensures RecordHasRequired(WithDefaults(dr, now)) <==> o.userId != "" && ev.orderId != "" && ev.id != ""
  {
    Draft(o.userId, ev.orderId, ev.id, Some(o.mockTestIds), ev.amount, Some(Completed), ev.paymentMethod, None, Some(now))
  }

  /** The record for a failed payment: the user from the payment's notes,
      status failed, the gateway's error description, stamped now; no series
      and no amount. */
  function FailedDraft(ev: PaymentEntity, now: int): (dr: Draft)
    ensures WithDefaults(dr, now).status == VerificationStatus.Failed && WithDefaults(dr, now).mockTestIds == []
    ensures RecordHasRequired(WithDefaults(dr, now)) <==> ev.notesUserId != "" && ev.orderId != "" && ev.id != ""
  {
    Draft(ev.notesUserId, ev.orderId, ev.id, None, None, Some(VerificationStatus.Failed), None, ev.errorDescription, Some(now))
  }
}
