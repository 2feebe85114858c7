/** The older `handleRazorpayWebhook` (controllers/mocktestpaymentold.js):
    one transaction, no transaction retry. On a captured payment it looks up
    the order before the record, and settles with the same `updateMany`
    retry loop as the verify handler, so a user already enrolled in any one
    series of the order makes every delivery fail. */
module LegacyWebhook {
  import opened Common
  import opened OrderModel
  import opened VerificationModel
  import opened Store
  import opened Enrollment
  import opened WebhookPayload
  import Webhook

  /** The handler, given the signature header, the clock, and which
      `updateMany` attempts throw. */
  function LegacyWebhookSpec(d: DB, crypto: Crypto, secret: string, signature: string, body: WebhookBody,
                             stringify: WebhookBody -> string, now: int, fails: seq<bool>): Outcome
  {
    if !SignatureValid(crypto, secret, signature, body, stringify) then
      Outcome(Response(400, false), d)
    else
      match body.payment
      case None => Outcome(Response(500, false), d)
      case Some(ev) =>
        if body.event == PaymentCaptured then
          if ev.orderId !in d.orders then Outcome(Response(500, false), d)
          else if ev.orderId in d.verifications then Outcome(Response(200, true), d)
          else
            var o := d.orders[ev.orderId];
            match Settle(d, o.mockTestIds, o.userId, CompletedDraft(o, ev, now), fails, now)
            case None => Outcome(Response(500, false), d)
            case Some(d') => Outcome(Response(200, true), d')
        else if body.event == PaymentFailed then
          match InsertRecord(d, FailedDraft(ev, now), now)
          case None => Outcome(Response(500, false), d)
          case Some(d') => Outcome(Response(200, true), d')
        else
          Outcome(Response(200, true), d)
  }

  /** The handler on the store; any error aborts the transaction back to
      the snapshot taken when it started. */
  method LegacyHandleRazorpayWebhook(db: Store, crypto: Crypto, secret: string, signature: string, body: WebhookBody,
                                     stringify: WebhookBody -> string, now: int, fails: seq<bool>)
    returns (resp: Response)
    modifies db
    ensures Outcome(resp, db.Value()) == LegacyWebhookSpec(old(db.Value()), crypto, secret, signature, body, stringify, now, fails)
  {
    if signature != crypto.hmacSha256(secret, stringify(body)) {
      return Response(400, false);
    }
    var snapshot := db.Value();
    if body.payment.None? {
      return Response(500, false);
    }
    var ev := body.payment.value;
    var ok := true;
    if body.event == PaymentCaptured {
      if ev.orderId !in db.orders {
        return Response(500, false);
      }
      if ev.orderId in db.verifications {
        return Response(200, true);
      }
      var o := db.orders[ev.orderId];
      ok := SettleTransaction(db, o.mockTestIds, o.userId, CompletedDraft(o, ev, now), fails, now);
    } else if body.event == PaymentFailed {
      ok := db.CreateVerification(FailedDraft(ev, now), now);
    }
    if ok {
      resp := Response(200, true);
    } else {
      db.Restore(snapshot);
      resp := Response(500, false);
    }
  }

  /** A captured payment whose order is missing gets 500 even when a record
      for its order id exists: the order is looked up first. */
  lemma LegacyChecksOrderFirst(d: DB, crypto: Crypto, secret: string, signature: string, body: WebhookBody,
                               stringify: WebhookBody -> string, now: int, fails: seq<bool>)
    requires SignatureValid(crypto, secret, signature, body, stringify)
    requires body.event == PaymentCaptured && body.payment.Some?
    ensures var r := LegacyWebhookSpec(d, crypto, secret, signature, body, stringify, now, fails);
            && (body.payment.value.orderId !in d.orders ==> r == Outcome(Response(500, false), d))
            && (body.payment.value.orderId in d.orders && body.payment.value.orderId in d.verifications ==>
                  r == Outcome(Response(200, true), d))
  {
  }

  /** If the order's user is already enrolled in any of its series, or the
      order lists a series twice or one that does not exist, the `updateMany`
      can never modify as many series as the order lists, so every delivery
      of the captured payment aborts with 500 and changes nothing. */
  lemma LegacyUnsettleableOrderAborts(d: DB, crypto: Crypto, secret: string, signature: string, body: WebhookBody,
                                      stringify: WebhookBody -> string, now: int, fails: seq<bool>, i: nat, j: nat)
    requires SignatureValid(crypto, secret, signature, body, stringify)
    requires body.event == PaymentCaptured && body.payment.Some?
    requires body.payment.value.orderId in d.orders && body.payment.value.orderId !in d.verifications
    requires var o := d.orders[body.payment.value.orderId];
             && i < |o.mockTestIds| && j < |o.mockTestIds|
             && (o.mockTestIds[i] !in d.enrolled || o.userId in d.enrolled[o.mockTestIds[i]]
                 || (i != j && o.mockTestIds[i] == o.mockTestIds[j]))
    ensures LegacyWebhookSpec(d, crypto, secret, signature, body, stringify, now, fails) == Outcome(Response(500, false), d)
  {
  }

  /** A captured payment for an order with no record, listing distinct
      existing series its user is not enrolled in, is settled when some
      `updateMany` attempt runs and the record validates: the user is
      enrolled in every series of the order and owns them, and one completed
      record carries the order's series and the payment's amount. */
  lemma LegacyCapturedGrants(d: DB, crypto: Crypto, secret: string, signature: string, body: WebhookBody,
                             stringify: WebhookBody -> string, now: int, fails: seq<bool>)
    requires SignatureValid(crypto, secret, signature, body, stringify)
    requires body.event == PaymentCaptured && body.payment.Some?
    requires body.payment.value.orderId in d.orders && body.payment.value.orderId !in d.verifications
    requires var o := d.orders[body.payment.value.orderId];
             && Distinct(o.mockTestIds) && o.userId != ""
             && forall i :: 0 <= i < |o.mockTestIds| ==> o.mockTestIds[i] in d.enrolled && o.userId !in d.enrolled[o.mockTestIds[i]]
    requires body.payment.value.orderId != "" && body.payment.value.id != "" && body.payment.value.id !in d.paymentIds
    requires SomeUpdateRuns(fails)
    ensures var ev := body.payment.value;
            var o := d.orders[ev.orderId];
            var r := LegacyWebhookSpec(d, crypto, secret, signature, body, stringify, now, fails);
            && r.resp == Response(200, true)
            && r.db.enrolled == AddUserTo(d.enrolled, SetOf(o.mockTestIds), o.userId)
            && r.db.owned == GrantOwned(d.owned, o.userId, o.mockTestIds)
            && r.db.verifications == d.verifications[ev.orderId :=
                 Verification(o.userId, ev.orderId, ev.id, o.mockTestIds, ev.amount, Completed, ev.paymentMethod, None, Some(now), now)]
  {
  }

  /** A failed payment records only a failed record, with no series, and
      never enrols or grants anything. */
  lemma LegacyFailedOnlyRecords(d: DB, crypto: Crypto, secret: string, signature: string, body: WebhookBody,
                                stringify: WebhookBody -> string, now: int, fails: seq<bool>)
    requires body.event == PaymentFailed && body.payment.Some?
    ensures var ev := body.payment.value;
            var r := LegacyWebhookSpec(d, crypto, secret, signature, body, stringify, now, fails);
            && r.db.enrolled == d.enrolled && r.db.owned == d.owned && r.db.orders == d.orders
            && (r.db != d ==> r.db.verifications == d.verifications[ev.orderId :=
                 Verification(ev.notesUserId, ev.orderId, ev.id, [], None, VerificationStatus.Failed, None,
                              ev.errorDescription, Some(now), now)])
  {
  }

  /** Where both handlers settle a captured payment (no record, distinct
      existing series the user neither holds nor is enrolled in, an
      `updateMany` that runs and a commit that is not interrupted), they
      leave the same store. */
  lemma {:induction false} LegacyAgreesWithLive(d: DB, crypto: Crypto, secret: string, signature: string, body: WebhookBody,
                                                 stringify: WebhookBody -> string, now: int, fails: seq<bool>,
                                                 transient: seq<bool>)
    requires SignatureValid(crypto, secret, signature, body, stringify)
    requires body.event == PaymentCaptured && body.payment.Some?
    requires body.payment.value.orderId in d.orders && body.payment.value.orderId !in d.verifications
    requires var o := d.orders[body.payment.value.orderId];
             && Distinct(o.mockTestIds) && !Webhook.HoldsAny(d.owned, o.userId, o.mockTestIds)
             && forall i :: 0 <= i < |o.mockTestIds| ==> o.mockTestIds[i] in d.enrolled && o.userId !in d.enrolled[o.mockTestIds[i]]
    requires SomeUpdateRuns(fails) && Webhook.FirstClean(transient, 0) < Webhook.MaxTransactionRetries
    ensures var r1 := LegacyWebhookSpec(d, crypto, secret, signature, body, stringify, now, fails);
            var r2 := Webhook.WebhookSpec(d, crypto, secret, signature, body, stringify, now, transient);
            r1.resp == r2.resp && r1.db == r2.db
  {
    var o := d.orders[body.payment.value.orderId];
    assert !Webhook.EnrolledInAny(d.enrolled, o.userId, o.mockTestIds);
  }

  /** Without a valid signature the handler answers 400 and writes nothing,
      whatever the event; no other path answers 400. Every answer but 200
      leaves the store as it was: a missing entity or order, exhausted
      `updateMany` attempts and a record that fails validation or clashes
      with an existing one all abort the transaction. */
  lemma LegacyFailsCleanly(d: DB, crypto: Crypto, secret: string, signature: string, body: WebhookBody,
                           stringify: WebhookBody -> string, now: int, fails: seq<bool>)
    ensures var r := LegacyWebhookSpec(d, crypto, secret, signature, body, stringify, now, fails);
            && (r.resp.status == 400 <==> !SignatureValid(crypto, secret, signature, body, stringify))
            && (r.resp.status != 200 ==> r.db == d)
            && (r.resp.status == 200 || r.resp.status == 400 || r.resp.status == 500)
  {
  }

  /** The handler keeps every store invariant and never touches an order. */
  lemma LegacyKeepsValid(d: DB, crypto: Crypto, secret: string, signature: string, body: WebhookBody,
                         stringify: WebhookBody -> string, now: int, fails: seq<bool>)
    requires Valid(d)
    ensures var r := LegacyWebhookSpec(d, crypto, secret, signature, body, stringify, now, fails);
            Valid(r.db) && r.db.orders == d.orders && r.db.orderKeys == d.orderKeys
  {
  }
}
