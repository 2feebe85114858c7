/** `handleRazorpayWebhook` (controllers/mocktestPaymet.js): the gateway's
    server-to-server notification and the path that grants access. After the
    signature check it runs the event in a transaction, retried up to three
    times when the transaction fails with a transient error. A captured
    payment enrols the order's user in each of the order's series, one
    `updateOne` at a time, adds them to the user's set and writes a completed
    record; a failed payment writes a failed record; other events write
    nothing. */
module Webhook {
  import opened Common
  import opened OrderModel
  import opened VerificationModel
  import opened Store
  import opened WebhookPayload

  /** `MAX_TRANSACTION_RETRIES`. */
  const MaxTransactionRetries: nat := 3

  /** What one transaction attempt does on a given store: return early with
      success and no writes, reach `commitTransaction` with the store it
      built, or throw an error that is not transient. */
  datatype Attempt = ShortCircuit | Commit(db: DB) | Fatal

  /** `User.findOne({_id: user, mocktests: {$in: ids}})` finds a document. */
  predicate HoldsAny(owned: map<UserId, set<SeriesId>>, user: UserId, ids: seq<SeriesId>)
  {
    user in owned && exists i :: 0 <= i < |ids| && ids[i] in owned[user]
  }

  /** `MockTestSeries.findOne({_id: {$in: ids}, studentsEnrolled: user})` finds a document. */
  predicate EnrolledInAny(enrolled: map<SeriesId, set<UserId>>, user: UserId, ids: seq<SeriesId>)
  {
    exists i :: 0 <= i < |ids| && ids[i] in enrolled && user in enrolled[ids[i]]
  }

  /** The `payment.captured` case. */
  function CapturedAttempt(d: DB, ev: PaymentEntity, now: int): Attempt
  {
    if ev.orderId in d.verifications then ShortCircuit
    else if ev.orderId !in d.orders then Fatal
    else
      var o := d.orders[ev.orderId];
      if HoldsAny(d.owned, o.userId, o.mockTestIds) || EnrolledInAny(d.enrolled, o.userId, o.mockTestIds) then
        ShortCircuit
      else
        var granted := d.(enrolled := AddUserTo(d.enrolled, SetOf(o.mockTestIds), o.userId),
                          owned := GrantOwned(d.owned, o.userId, o.mockTestIds));
        match InsertRecord(granted, CompletedDraft(o, ev, now), now)
        case None => Fatal
        case Some(d') => Commit(d')
  }

  /** One attempt of the transaction: reading the payment entity throws
      when it is missing, whatever the event. */
  function AttemptSpec(d: DB, body: WebhookBody, now: int): Attempt
  {
    match body.payment
    case None => Fatal
    case Some(ev) =>
      if body.event == PaymentCaptured then CapturedAttempt(d, ev, now)
      else if body.event == PaymentFailed then
        match InsertRecord(d, FailedDraft(ev, now), now)
        case None => Fatal
        case Some(d') => Commit(d')
      else Commit(d)
  }

  /** Whether attempt `i`, having reached its commit, is interrupted by a
      `TransientTransactionError` (a write conflict): an oracle. */
  predicate Transient(transient: seq<bool>, i: nat)
  {
    i < |transient| && transient[i]
  }

  /** The first attempt, from `i` on, that no transient error interrupts. */
  function FirstClean(transient: seq<bool>, i: nat): (k: nat)
    ensures k >= i && !Transient(transient, k)
    ensures forall j :: i <= j < k ==> Transient(transient, j)
    decreases |transient| - i
  {
    if !Transient(transient, i) then i else FirstClean(transient, i + 1)
  }

  /** The waits before the retries: 1000 ms times the retry's number. */
  function Backoff(k: nat): (w: seq<nat>)
    ensures |w| == k && forall i :: 0 <= i < k ==> w[i] == 1000 * (i + 1)
  {
    if k == 0 then [] else Backoff(k - 1) + [1000 * k]
  }

  /** A webhook's response, the number of transactions it started, the
      waits between them, and the store it leaves behind. */
  datatype WebhookOutcome = WebhookOutcome(resp: Response, attempts: nat, delays: seq<nat>, db: DB)

  /** The handler, given the signature header, the clock, and which attempts
      a transient error interrupts. Every attempt starts from the same store
      (the previous one was aborted), so every attempt computes the same
      `Attempt`; only the transient errors decide between commit and retry. */
  function WebhookSpec(d: DB, crypto: Crypto, secret: string, signature: string, body: WebhookBody,
                       stringify: WebhookBody -> string, now: int, transient: seq<bool>): WebhookOutcome
  {
    if !SignatureValid(crypto, secret, signature, body, stringify) then
      WebhookOutcome(Response(400, false), 0, [], d)
    else
      match AttemptSpec(d, body, now)
      case ShortCircuit => WebhookOutcome(Response(200, true), 1, [], d)
      case Fatal => WebhookOutcome(Response(500, false), 1, [], d)
      case Commit(d') =>
        var k := FirstClean(transient, 0);
        if k < MaxTransactionRetries then WebhookOutcome(Response(200, true), k + 1, Backoff(k), d')
        else WebhookOutcome(Response(500, false), MaxTransactionRetries, Backoff(MaxTransactionRetries - 1), d)
  }

  datatype AttemptResult = ShortCircuited | Committed | Threw

  /** The body of one transaction attempt, on the store. When it throws, the
      store holds whatever it wrote before the error; the caller aborts. */
  method RunAttempt(db: Store, body: WebhookBody, now: int) returns (result: AttemptResult)
    modifies db
    ensures match AttemptSpec(old(db.Value()), body, now)
            case ShortCircuit => result == ShortCircuited && db.Value() == old(db.Value())
            case Commit(d') => result == Committed && db.Value() == d'
            case Fatal => result == Threw
  {
    if body.payment.None? {
      return Threw;
    }
    var ev := body.payment.value;
    if body.event == PaymentCaptured {
      if ev.orderId in db.verifications {
        return ShortCircuited;
      }
      if ev.orderId !in db.orders {
        return Threw;
      }
      var o := db.orders[ev.orderId];
      if HoldsAny(db.owned, o.userId, o.mockTestIds) || EnrolledInAny(db.enrolled, o.userId, o.mockTestIds) {
        return ShortCircuited;
      }
      ghost var d0 := db.Value();
      var i := 0;
      while i < |o.mockTestIds|
        invariant 0 <= i <= |o.mockTestIds|
        invariant db.Value() == d0.(enrolled := AddUserTo(d0.enrolled, SetOf(o.mockTestIds[..i]), o.userId))
      {
        db.UpdateOneEnroll(o.mockTestIds[i], o.userId);
        AddUserToUnion(d0.enrolled, SetOf(o.mockTestIds[..i]), {o.mockTestIds[i]}, o.userId);
        assert SetOf(o.mockTestIds[..i + 1]) == SetOf(o.mockTestIds[..i]) + {o.mockTestIds[i]} by {
          assert o.mockTestIds[..i + 1] == o.mockTestIds[..i] + [o.mockTestIds[i]];
        }
        i := i + 1;
      }
      assert o.mockTestIds[..i] == o.mockTestIds;
      db.AddToOwned(o.userId, o.mockTestIds);
      var ok := db.CreateVerification(CompletedDraft(o, ev, now), now);
      result := if ok then Committed else Threw;
    } else if body.event == PaymentFailed {
      var ok := db.CreateVerification(FailedDraft(ev, now), now);
      result := if ok then Committed else Threw;
    } else {
      result := Committed;
    }
  }

  /** The handler on the store: the signature check, then the
      `while (retryCount < MAX_TRANSACTION_RETRIES)` loop, each pass a
      transaction that is aborted (restored) unless it commits cleanly. */
  method HandleRazorpayWebhook(db: Store, crypto: Crypto, secret: string, signature: string, body: WebhookBody,
                               stringify: WebhookBody -> string, now: int, transient: seq<bool>)
    returns (resp: Response, attempts: nat, delays: seq<nat>)
    modifies db
    ensures WebhookOutcome(resp, attempts, delays, db.Value())
              == WebhookSpec(old(db.Value()), crypto, secret, signature, body, stringify, now, transient)
  {
    attempts, delays := 0, [];
    if signature != crypto.hmacSha256(secret, stringify(body)) {
      return Response(400, false), attempts, delays;
    }
    ghost var d0 := db.Value();
    var retryCount: nat := 0;
    var finished := false;
    resp := Response(500, false);
    while retryCount < MaxTransactionRetries && !finished
      invariant retryCount < MaxTransactionRetries
      invariant attempts == retryCount + (if finished then 1 else 0)
      invariant !finished ==> db.Value() == d0 && delays == Backoff(retryCount)
      invariant !finished ==> FirstClean(transient, 0) == FirstClean(transient, retryCount)
      invariant !finished && retryCount > 0 ==> AttemptSpec(d0, body, now).Commit?
      invariant finished ==> WebhookOutcome(resp, attempts, delays, db.Value())
                               == WebhookSpec(d0, crypto, secret, signature, body, stringify, now, transient)
      decreases MaxTransactionRetries - retryCount, if finished then 0 else 1
    {
      var snapshot := db.Value();
      attempts := attempts + 1;
      var result := RunAttempt(db, body, now);
      if result == ShortCircuited {
        db.Restore(snapshot);
        resp, finished := Response(200, true), true;
      } else if result == Threw {
        db.Restore(snapshot);
        resp, finished := Response(500, false), true;
      } else if Transient(transient, retryCount) {
        db.Restore(snapshot);
        if retryCount < MaxTransactionRetries - 1 {
          retryCount := retryCount + 1;
          delays := delays + [1000 * retryCount];
        } else {
          resp, finished := Response(500, false), true;
        }
      } else {
        resp, finished := Response(200, true), true;
      }
    }
  }

  /** A captured payment for a recorded order that has no record yet, whose
      user holds none of the order's series and is enrolled in none, is
      settled when some attempt commits cleanly: the user is enrolled in
      every series of the order and owns them, and the order id gets a
      completed record with the payment's id, amount and method, stamped now.
      The order itself is left as it was. */
  lemma WebhookCapturedGrants(d: DB, crypto: Crypto, secret: string, signature: string, body: WebhookBody,
                              stringify: WebhookBody -> string, now: int, transient: seq<bool>)
    requires SignatureValid(crypto, secret, signature, body, stringify)
    requires body.event == PaymentCaptured && body.payment.Some?
    requires body.payment.value.orderId !in d.verifications && body.payment.value.orderId in d.orders
    requires var o := d.orders[body.payment.value.orderId];
             !HoldsAny(d.owned, o.userId, o.mockTestIds) && !EnrolledInAny(d.enrolled, o.userId, o.mockTestIds)
    requires d.orders[body.payment.value.orderId].userId != ""
    requires body.payment.value.orderId != "" && body.payment.value.id != "" && body.payment.value.id !in d.paymentIds
    requires FirstClean(transient, 0) < MaxTransactionRetries
    ensures var ev := body.payment.value;
            var o := d.orders[ev.orderId];
            var r := WebhookSpec(d, crypto, secret, signature, body, stringify, now, transient);
            && r.resp == Response(200, true)
            && r.db.enrolled == AddUserTo(d.enrolled, SetOf(o.mockTestIds), o.userId)
            && r.db.owned == GrantOwned(d.owned, o.userId, o.mockTestIds)
            && r.db.verifications == d.verifications[ev.orderId :=
                 Verification(o.userId, ev.orderId, ev.id, o.mockTestIds, ev.amount, Completed, ev.paymentMethod, None, Some(now), now)]
            && r.db.orders == d.orders
  {
  }

  /** Conversely, a captured payment changes the store only when no record
      existed for its order id, the order existed, and its user held none of
      the order's series and was enrolled in none. */
  lemma WebhookCapturedChangeChecks(d: DB, crypto: Crypto, secret: string, signature: string, body: WebhookBody,
                                    stringify: WebhookBody -> string, now: int, transient: seq<bool>)
    requires body.event == PaymentCaptured
    ensures var r := WebhookSpec(d, crypto, secret, signature, body, stringify, now, transient);
            r.db != d ==>
              && SignatureValid(crypto, secret, signature, body, stringify) && body.payment.Some?
              && body.payment.value.orderId !in d.verifications && body.payment.value.orderId in d.orders
              && var o := d.orders[body.payment.value.orderId];
                 !HoldsAny(d.owned, o.userId, o.mockTestIds) && !EnrolledInAny(d.enrolled, o.userId, o.mockTestIds)
  {
  }

  /** A user who already holds or is enrolled in any one series of the order
      gets nothing for the payment: the webhook answers 200 after one
      attempt and writes no enrolment and no record. */
  lemma WebhookPartialHolderGetsNothing(d: DB, crypto: Crypto, secret: string, signature: string, body: WebhookBody,
                                        stringify: WebhookBody -> string, now: int, transient: seq<bool>)
    requires SignatureValid(crypto, secret, signature, body, stringify)
    requires body.event == PaymentCaptured && body.payment.Some?
    requires body.payment.value.orderId in d.orders
    requires var o := d.orders[body.payment.value.orderId];
             HoldsAny(d.owned, o.userId, o.mockTestIds) || EnrolledInAny(d.enrolled, o.userId, o.mockTestIds)
    ensures WebhookSpec(d, crypto, secret, signature, body, stringify, now, transient)
              == WebhookOutcome(Response(200, true), 1, [], d)
  {
  }

  /** A failed payment never enrols or grants anything; when it is recorded
      (exactly when its record validates, is new, and some attempt commits
      cleanly) the record is a failed one with no series and the gateway's
      error description, stamped now. */
  lemma WebhookFailedOnlyRecords(d: DB, crypto: Crypto, secret: string, signature: string, body: WebhookBody,
                                 stringify: WebhookBody -> string, now: int, transient: seq<bool>)
    requires SignatureValid(crypto, secret, signature, body, stringify)
    requires body.event == PaymentFailed && body.payment.Some?
    ensures var r := WebhookSpec(d, crypto, secret, signature, body, stringify, now, transient);
            r.db.enrolled == d.enrolled && r.db.owned == d.owned && r.db.orders == d.orders
    ensures var ev := body.payment.value;
            var r := WebhookSpec(d, crypto, secret, signature, body, stringify, now, transient);
            r.resp.status == 200 <==> && ev.notesUserId != "" && ev.orderId != "" && ev.id != ""
                                      && ev.orderId !in d.verifications && ev.id !in d.paymentIds
                                      && FirstClean(transient, 0) < MaxTransactionRetries
    ensures var ev := body.payment.value;
            var r := WebhookSpec(d, crypto, secret, signature, body, stringify, now, transient);
            r.resp.status == 200 ==>
              r.db.verifications == d.verifications[ev.orderId :=
                Verification(ev.notesUserId, ev.orderId, ev.id, [], None, VerificationStatus.Failed, None,
                             ev.errorDescription, Some(now), now)]
  {
  }

  /** Any other event, with a readable payment entity, writes nothing and
      answers 200 once an attempt commits cleanly. Without a readable payment
      entity every event, however named, answers 500. */
  lemma WebhookOtherEvents(d: DB, crypto: Crypto, secret: string, signature: string, body: WebhookBody,
                           stringify: WebhookBody -> string, now: int, transient: seq<bool>)
    requires SignatureValid(crypto, secret, signature, body, stringify)
    requires body.event != PaymentCaptured && body.event != PaymentFailed
    ensures var r := WebhookSpec(d, crypto, secret, signature, body, stringify, now, transient);
            && r.db == d
            && (r.resp.status == 200 <==> body.payment.Some? && FirstClean(transient, 0) < MaxTransactionRetries)
  {
  }

  /** The retry discipline: no attempt without a valid signature, at most
      three attempts, a retry only after a transient error on commit, and a
      wait of 1000 ms times the retry's number before each retry. A 500 after
      three attempts means all three were interrupted, and leaves the store
      as it was. */
  lemma WebhookRetryBound(d: DB, crypto: Crypto, secret: string, signature: string, body: WebhookBody,
                          stringify: WebhookBody -> string, now: int, transient: seq<bool>)
    ensures var r := WebhookSpec(d, crypto, secret, signature, body, stringify, now, transient);
            && (r.attempts == 0 <==> !SignatureValid(crypto, secret, signature, body, stringify))
            && r.attempts <= MaxTransactionRetries
            && |r.delays| == (if r.attempts == 0 then 0 else r.attempts - 1)
            && (forall i :: 0 <= i < |r.delays| ==> r.delays[i] == 1000 * (i + 1) && Transient(transient, i))
            && (r.attempts > 1 ==> AttemptSpec(d, body, now).Commit?)
            && (r.resp.status != 200 ==> r.db == d)
  {
  }

  /** Without a valid signature the webhook answers 400 before any session
      opens, whatever the event: no attempt, no wait, no write. No other
      path answers 400. */
  lemma WebhookBadSignature(d: DB, crypto: Crypto, secret: string, signature: string, body: WebhookBody,
                            stringify: WebhookBody -> string, now: int, transient: seq<bool>)
    ensures var r := WebhookSpec(d, crypto, secret, signature, body, stringify, now, transient);
            r.resp.status == 400 <==> !SignatureValid(crypto, secret, signature, body, stringify)
    ensures !SignatureValid(crypto, secret, signature, body, stringify) ==>
              WebhookSpec(d, crypto, secret, signature, body, stringify, now, transient)
                == WebhookOutcome(Response(400, false), 0, [], d)
  {
  }

  /** The guards of a captured payment: a record for its order id, of any
      status, ends the attempt with 200 and no write; with no record, a
      missing order ends it with 500 and no write. Either way there is one
      attempt and no retry. */
  lemma WebhookCapturedGuards(d: DB, crypto: Crypto, secret: string, signature: string, body: WebhookBody,
                              stringify: WebhookBody -> string, now: int, transient: seq<bool>)
    requires SignatureValid(crypto, secret, signature, body, stringify)
    requires body.event == PaymentCaptured && body.payment.Some?
    ensures body.payment.value.orderId in d.verifications ==>
              WebhookSpec(d, crypto, secret, signature, body, stringify, now, transient)
                == WebhookOutcome(Response(200, true), 1, [], d)
    ensures body.payment.value.orderId !in d.verifications && body.payment.value.orderId !in d.orders ==>
              WebhookSpec(d, crypto, secret, signature, body, stringify, now, transient)
                == WebhookOutcome(Response(500, false), 1, [], d)
  {
  }

  /** A redelivered webhook is harmless: once a captured payment has been
      settled, delivering the same body again answers 200 after one attempt
      and changes nothing. */
  lemma {:induction false} WebhookCapturedTwice(d: DB, crypto: Crypto, secret: string, signature: string,
                                                 body: WebhookBody, stringify: WebhookBody -> string,
                                                 now: int, now2: int, transient: seq<bool>, transient2: seq<bool>)
    requires body.event == PaymentCaptured
    requires WebhookSpec(d, crypto, secret, signature, body, stringify, now, transient).db != d
    ensures var r1 := WebhookSpec(d, crypto, secret, signature, body, stringify, now, transient);
            WebhookSpec(r1.db, crypto, secret, signature, body, stringify, now2, transient2)
              == WebhookOutcome(Response(200, true), 1, [], r1.db)
  {
    WebhookCapturedChangeChecks(d, crypto, secret, signature, body, stringify, now, transient);
    var r1 := WebhookSpec(d, crypto, secret, signature, body, stringify, now, transient);
    assert body.payment.value.orderId in r1.db.verifications;
  }

  /** An attempt that reaches its commit builds a valid store from a valid
      one and leaves the orders alone. */
  lemma AttemptKeepsValid(d: DB, body: WebhookBody, now: int)
    requires Valid(d)
    ensures AttemptSpec(d, body, now).Commit? ==>
              && Valid(AttemptSpec(d, body, now).db)
              && AttemptSpec(d, body, now).db.orders == d.orders
              && AttemptSpec(d, body, now).db.orderKeys == d.orderKeys
  {
    if body.payment.Some? && body.event == PaymentCaptured {
      var ev := body.payment.value;
      if ev.orderId !in d.verifications && ev.orderId in d.orders {
        var o := d.orders[ev.orderId];
        var granted := d.(enrolled := AddUserTo(d.enrolled, SetOf(o.mockTestIds), o.userId),
                          owned := GrantOwned(d.owned, o.userId, o.mockTestIds));
        assert Valid(granted);
      }
    }
  }

  /** The webhook keeps every store invariant and never touches an order:
      every order keeps its status `created`. */
  lemma WebhookKeepsValid(d: DB, crypto: Crypto, secret: string, signature: string, body: WebhookBody,
                          stringify: WebhookBody -> string, now: int, transient: seq<bool>)
    requires Valid(d)
    ensures var r := WebhookSpec(d, crypto, secret, signature, body, stringify, now, transient);
            Valid(r.db) && r.db.orders == d.orders && r.db.orderKeys == d.orderKeys
  {
    AttemptKeepsValid(d, body, now);
  }
}
