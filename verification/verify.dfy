/** `verifyMockTestPayment` (controllers/mocktestPaymet.js): the client-side
    confirmation of a payment. It checks the gateway's checkout signature
    over "order id|payment id" and, in one transaction, enrols the user in
    the series the request lists, adds them to the user's own set and writes
    the verification record. */
module Verify {
  import opened Common
  import opened VerificationModel
  import opened Store
  import opened Enrollment

  /** The request body's four fields; the empty string is a missing field
      and `None` a missing `itemId` (an empty array is present: it is truthy). */
  datatype VerifyRequest = VerifyRequest(
    razorpayOrderId: OrderId,
    razorpayPaymentId: PaymentId,
    razorpaySignature: string,
    itemId: Option<seq<SeriesId>>)

  /** The signed text of a checkout: `razorpay_order_id + "|" + razorpay_payment_id`. */
  function CheckoutMessage(orderId: OrderId, paymentId: PaymentId): string
  {
    orderId + "|" + paymentId
  }

  predicate SignatureMatches(crypto: Crypto, secret: string, req: VerifyRequest)
  {
    crypto.hmacSha256(secret, CheckoutMessage(req.razorpayOrderId, req.razorpayPaymentId)) == req.razorpaySignature
  }

  /** The record the handler asks `PaymentVerification.create` for. As
      written, the draft leaves out `webhookProcessedAt`, which the schema
      requires; `processedAt` is what the draft carries there. */
  function VerifyDraft(userId: UserId, req: VerifyRequest, ids: seq<SeriesId>, processedAt: Option<int>): (dr: Draft)
    ensures forall now :: WithDefaults(dr, now).status == Completed && WithDefaults(dr, now).mockTestIds == ids
    ensures forall now :: RecordHasRequired(WithDefaults(dr, now)) <==>
                            processedAt.Some? && userId != "" && req.razorpayOrderId != "" && req.razorpayPaymentId != ""
  {
    Draft(userId, req.razorpayOrderId, req.razorpayPaymentId, Some(ids), None, None, None, None, processedAt)
  }

  /** The handler with its draft carrying `processedAt`; `fails` says which
      `updateMany` attempts throw before writing. */
  function VerifyWith(d: DB, crypto: Crypto, secret: string, userId: UserId, req: VerifyRequest,
                      fails: seq<bool>, now: int, processedAt: Option<int>): Outcome
  {
    if req.razorpayOrderId == "" || req.razorpayPaymentId == "" || req.razorpaySignature == ""
       || req.itemId.None? || userId == "" then
      Outcome(Response(400, false), d)
    else if req.razorpayOrderId in d.verifications then
      Outcome(Response(201, true), d)
    else if !SignatureMatches(crypto, secret, req) then
      Outcome(Response(400, false), d)
    else
      match Settle(d, req.itemId.value, userId, VerifyDraft(userId, req, req.itemId.value, processedAt), fails, now)
      case None => Outcome(Response(500, false), d)
      case Some(d') => Outcome(Response(200, true), d')
  }

  /** The handler as written: the record it creates has no `webhookProcessedAt`. */
  function VerifyAsWritten(d: DB, crypto: Crypto, secret: string, userId: UserId, req: VerifyRequest,
                           fails: seq<bool>, now: int): Outcome
  {
    VerifyWith(d, crypto, secret, userId, req, fails, now, None)
  }

  /** The handler as evidently intended: the record is stamped with the
      clock, as the webhook handlers stamp theirs. */
  function VerifyStamped(d: DB, crypto: Crypto, secret: string, userId: UserId, req: VerifyRequest,
                         fails: seq<bool>, now: int): Outcome
  {
    VerifyWith(d, crypto, secret, userId, req, fails, now, Some(now))
  }

  /** The handler on the store, with the transaction as a snapshot: an early
      return writes nothing, an error aborts back to the snapshot.
      `processedAt` is the `webhookProcessedAt` the record is created with:
      `None` is the code as written (see `VerifyAsWritten`), `Some(now)` the
      corrected handler (`VerifyStamped`). */
  method VerifyMockTestPayment(db: Store, crypto: Crypto, secret: string, userId: UserId, req: VerifyRequest,
                               fails: seq<bool>, now: int, processedAt: Option<int>)
    returns (resp: Response)
    modifies db
    ensures Outcome(resp, db.Value()) == VerifyWith(old(db.Value()), crypto, secret, userId, req, fails, now, processedAt)
  {
    var snapshot := db.Value();
    if req.razorpayOrderId == "" || req.razorpayPaymentId == "" || req.razorpaySignature == ""
       || req.itemId.None? || userId == "" {
      return Response(400, false);
    }
    if req.razorpayOrderId in db.verifications {
      return Response(201, true);
    }
    if !SignatureMatches(crypto, secret, req) {
      return Response(400, false);
    }
    var ids := req.itemId.value;
    var ok := SettleTransaction(db, ids, userId, VerifyDraft(userId, req, ids, processedAt), fails, now);
    if ok {
      resp := Response(200, true);
    } else {
      db.Restore(snapshot);
      resp := Response(500, false);
    }
  }

  /** As written, the handler never grants anything: every request ends in
      400, 201 or 500 with the store unchanged, because the record it
      creates always fails validation and aborts the transaction. */
  lemma VerifyAsWrittenNeverGrants(d: DB, crypto: Crypto, secret: string, userId: UserId, req: VerifyRequest,
                                   fails: seq<bool>, now: int)
    ensures var r := VerifyAsWritten(d, crypto, secret, userId, req, fails, now);
            r.db == d && r.resp.status != 200
  {
    var dr := VerifyDraft(userId, req, if req.itemId.Some? then req.itemId.value else [], None);
    assert !RecordHasRequired(WithDefaults(dr, now));
  }

  /** A concrete payment that shows it: a correctly signed request for one
      fresh series gets 500 and the user stays unenrolled. */
  lemma VerifyAsWrittenRejectsGoodPayment(crypto: Crypto, secret: string)
    requires |crypto.hmacSha256(secret, CheckoutMessage("order_1", "pay_1"))| == 64  // a hex SHA-256 digest
    ensures var d := Empty(map["s1" := 499], {"u1"});
            var req := VerifyRequest("order_1", "pay_1", crypto.hmacSha256(secret, CheckoutMessage("order_1", "pay_1")), Some(["s1"]));
            var r := VerifyAsWritten(d, crypto, secret, "u1", req, [], 7);
            r.resp == Response(500, false) && r.db.enrolled["s1"] == {}
  {
    var d := Empty(map["s1" := 499], {"u1"});
    var req := VerifyRequest("order_1", "pay_1", crypto.hmacSha256(secret, CheckoutMessage("order_1", "pay_1")), Some(["s1"]));
    assert req.razorpayOrderId != "" && req.razorpayPaymentId != "";
    VerifyAsWrittenNeverGrants(d, crypto, secret, "u1", req, [], 7);
  }

  /** With the record stamped, a correctly signed request for an unrecorded
      order and payment, listing distinct series that exist and that the user
      does not hold, succeeds when some `updateMany` attempt runs: the user
      is enrolled in exactly those series, they are added to the user's set,
      and one completed record lists them. */
  lemma VerifyStampedGrants(d: DB, crypto: Crypto, secret: string, userId: UserId, req: VerifyRequest,
                            fails: seq<bool>, now: int)
    requires req.razorpayOrderId != "" && req.razorpayPaymentId != "" && req.razorpaySignature != "" && userId != ""
    requires req.itemId.Some? && Distinct(req.itemId.value)
    requires forall i :: 0 <= i < |req.itemId.value| ==>
               req.itemId.value[i] in d.enrolled && userId !in d.enrolled[req.itemId.value[i]]
    requires req.razorpayOrderId !in d.verifications && req.razorpayPaymentId !in d.paymentIds
    requires SignatureMatches(crypto, secret, req) && SomeUpdateRuns(fails)
    ensures var r := VerifyStamped(d, crypto, secret, userId, req, fails, now);
            && r.resp == Response(200, true)
            && r.db.enrolled == AddUserTo(d.enrolled, SetOf(req.itemId.value), userId)
            && r.db.owned == GrantOwned(d.owned, userId, req.itemId.value)
            && req.razorpayOrderId in r.db.verifications
            && r.db.verifications[req.razorpayOrderId].status == Completed
            && r.db.verifications[req.razorpayOrderId].mockTestIds == req.itemId.value
            && r.db.verifications[req.razorpayOrderId].razorpayPaymentId == req.razorpayPaymentId
            && r.db.orders == d.orders
  {
  }

  /** Conversely, a stamped success implies the checks passed: the signature
      matched, no record existed, and every listed series existed, was
      listed once and was not yet held by the user. */
  lemma VerifyStampedSuccessChecks(d: DB, crypto: Crypto, secret: string, userId: UserId, req: VerifyRequest,
                                   fails: seq<bool>, now: int)
    ensures var r := VerifyStamped(d, crypto, secret, userId, req, fails, now);
            r.resp.status == 200 ==>
              && SignatureMatches(crypto, secret, req) && req.razorpayOrderId !in d.verifications
              && req.itemId.Some? && Distinct(req.itemId.value)
              && forall i :: 0 <= i < |req.itemId.value| ==>
                   req.itemId.value[i] in d.enrolled && userId !in d.enrolled[req.itemId.value[i]]
  {
  }

  /** Once a record exists for the order id, any complete request for it
      gets 201 and changes nothing, whatever its signature or payment id: so
      repeating a stamped success is harmless. */
  lemma {:induction false} VerifyStampedTwice(d: DB, crypto: Crypto, secret: string, userId: UserId, req: VerifyRequest,
                                              req2: VerifyRequest, fails: seq<bool>, fails2: seq<bool>, now: int, now2: int)
    requires VerifyStamped(d, crypto, secret, userId, req, fails, now).resp.status == 200
    requires req2.razorpayOrderId == req.razorpayOrderId
    requires req2.razorpayPaymentId != "" && req2.razorpaySignature != "" && req2.itemId.Some?
    ensures var r1 := VerifyStamped(d, crypto, secret, userId, req, fails, now);
            VerifyStamped(r1.db, crypto, secret, userId, req2, fails2, now2) == Outcome(Response(201, true), r1.db)
  {
    var r1 := VerifyStamped(d, crypto, secret, userId, req, fails, now);
    VerifyStampedSuccessChecks(d, crypto, secret, userId, req, fails, now);
    assert req.razorpayOrderId in r1.db.verifications;
  }

  /** Every answer but 200 leaves the store as it was: the early returns
      write nothing, and a failed settlement is aborted. A 200 touches no
      order. */
  lemma VerifyFailsCleanly(d: DB, crypto: Crypto, secret: string, userId: UserId, req: VerifyRequest,
                           fails: seq<bool>, now: int, processedAt: Option<int>)
    ensures var r := VerifyWith(d, crypto, secret, userId, req, fails, now, processedAt);
            && (r.resp.status != 200 ==> r.db == d)
            && (r.resp.status == 400 <==> ((req.razorpayOrderId == "" || req.razorpayPaymentId == "" || req.razorpaySignature == ""
                                            || req.itemId.None? || userId == "")
                                           || (req.razorpayOrderId !in d.verifications && !SignatureMatches(crypto, secret, req))))
            && r.db.orders == d.orders && r.db.orderKeys == d.orderKeys
  {
  }

  /** A complete request for an order id that already has a record, of any
      status, gets 201 and changes nothing, whatever its signature, in the
      handler as written and stamped alike; no other path answers 201. */
  lemma VerifyRecordedAnswers201(d: DB, crypto: Crypto, secret: string, userId: UserId, req: VerifyRequest,
                                 fails: seq<bool>, now: int, processedAt: Option<int>)
    ensures var r := VerifyWith(d, crypto, secret, userId, req, fails, now, processedAt);
            r.resp.status == 201 <==> && req.razorpayOrderId != "" && req.razorpayPaymentId != ""
                                      && req.razorpaySignature != "" && req.itemId.Some? && userId != ""
                                      && req.razorpayOrderId in d.verifications
    ensures var r := VerifyWith(d, crypto, secret, userId, req, fails, now, processedAt);
            r.resp.status == 201 ==> r == Outcome(Response(201, true), d)
  {
  }

  /** The handler keeps every store invariant, stamped or not. */
  lemma VerifyKeepsValid(d: DB, crypto: Crypto, secret: string, userId: UserId, req: VerifyRequest,
                         fails: seq<bool>, now: int, processedAt: Option<int>)
    requires Valid(d)
    ensures Valid(VerifyWith(d, crypto, secret, userId, req, fails, now, processedAt).db)
  {
  }
}
