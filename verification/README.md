# Mock-test payment settlement, modelled in Dafny

This project models the payment core of a mock-test platform's backend: how
a student buys one or more mock-test series through the Razorpay gateway,
and how a payment is settled. The model covers five handlers:

- **capture**: `captureMockTestPayment` creates an order under an
  idempotency key, after checking that every requested series exists and is
  not yet held.
- **verify**: `verifyMockTestPayment` is the client-side confirmation. It
  checks the gateway's checkout signature, then enrols the user in the
  series, in one transaction.
- **live webhook**: `handleRazorpayWebhook` is the gateway's server-to-server
  notification. A transient error retries the whole transaction.
- **legacy webhook**: the older `handleRazorpayWebhook`.
- **incomplete payments**: `getIncompletePaymentUsers` is a report of the
  orders that were never settled.

The two document schemas, Order and PaymentVerification, are modelled with
their defaults, required fields and unique indexes.

The store (`Store.Store`) is a class. Its fields are the Order collection
and its idempotency-key index, the PaymentVerification collection and its
payment-id index, each series' `studentsEnrolled` set and price, and each
user's `mocktests` set.

Each handler that writes is an imperative method on the store. The method
is proved equal to a pure specification function on the store's value
(`Store.DB`). The properties are proved as lemmas about that function.
The report `getIncompletePaymentUsers` writes nothing, so it is modelled as
a function only: it reads the store's value and the Order collection in the
order the aggregate scans it, and the lemmas tie that scan to the stored
orders.

A transaction takes a snapshot of the store when it starts. An abort
restores the snapshot.

Some inputs come from outside the program, and each one becomes a
parameter:

- the gateway's reply to order creation;
- the clock;
- which `updateMany` attempts throw;
- which webhook attempts hit a `TransientTransactionError`.

HMAC-SHA256 (RFC 2104 over the SHA-256 of FIPS 180-4, hex-encoded), SHA-256
and `JSON.stringify` are uninterpreted functions. The model only compares
their results for equality.

Modules, one per file:

- `Common`: identifiers, `Option`, `Response`, `Crypto`.
- `OrderModel`, `VerificationModel`: the two schemas.
- `Store`: the store, its invariant `Valid`, and the store operations.
- `IdempotencyKey`: key derivation with the in-place sort.
- `Capture`, `Verify`, `Webhook`: the live handlers.
- `Enrollment`: the `updateMany` retry loop and the settlement step, shared
  by verify and the legacy webhook.
- `WebhookPayload`: the webhook body and the records the webhooks write.
- `LegacyWebhook`: the older webhook handler.
- `IncompletePayments`: the report.

Three behaviours of the code are worth stating up front, and the model
follows the code in each:

- No handler ever moves an order out of `created`, although the schema's
  enum also allows `paid` and `failed`. The `Valid` invariant keeps every
  order `created`, and every handler preserves it.
- Between webhook attempts the code waits 1000 ms times the retry's number.
  This is linear, not exponential.
- The verify handler, as written, never settles a payment (see Findings).

## Model

| member | source | states |
|---|---|---|
| OrderModel.NewOrder | models/order.js:29-37 | a new order has status `created` and the creation time as `createdAt` |
| VerificationModel.WithDefaults | models/paymentVerification.js:19-49 | a record's status defaults to completed, its series to the empty list; `webhookProcessedAt` stays exactly as supplied |
| Store.OneOrderPerKey | models/order.js:24-28 | in a valid store two orders with one idempotency key are the same order |
| Store.OneRecordPerPayment | models/paymentVerification.js:14-18 | in a valid store two records with one payment id are the same record |
| Store.InsertOrder | models/order.js:5-28 | `Order.create` succeeds exactly when the required fields are present and both the Razorpay order id and the key are unused; it then adds only that order and keeps the store valid |
| Store.InsertRecord | models/paymentVerification.js:4-45 | `PaymentVerification.create` succeeds exactly when the required fields, including `webhookProcessedAt`, are present and both the order id and the payment id are unused; it then adds exactly one record, under its order id, and keeps the store valid |
| Store.Unheld | controllers/mocktestPaymet.js:43-59 | the series matched by `$in` plus `$ne`: a subset of the listed ids and of the existing series |
| Store.UnheldCoversAll | controllers/mocktestPaymet.js:61-69 | the match count equals the list length exactly when the ids are distinct and each names an existing series that does not list the user |
| Store.AddUserTo | controllers/mocktestPaymet.js:161-172 | `$addToSet` adds the user to each named existing series and changes nothing else |
| Store.AddUserToSettles | controllers/mocktestPaymet.js:159-180 | after one `updateMany` nothing is left to match, and repeating it changes nothing |
| Store.AddUserToStep | controllers/mocktestPaymet.js:596-611 | one guarded `updateOne` adds the user to one more series |
| Store.AddUserToUnion | controllers/mocktestPaymet.js:596-611 | adding the user to series one at a time is the same as adding them to all the series at once |
| Store.GrantOwned | controllers/mocktestPaymet.js:195-205 | `$addToSet $each` makes the user's set its union with the ids; the other users, and a user with no document, are unchanged |
| Store.Store.Restore | controllers/mocktestPaymet.js:227-228 | an abort puts back the snapshot exactly |
| Store.Store.CreateOrder | controllers/mocktestPaymet.js:82-88 | the store becomes `InsertOrder`'s result, or stays unchanged when the create throws |
| Store.Store.CreateVerification | controllers/mocktestPaymet.js:207-217 | the store becomes `InsertRecord`'s result, or stays unchanged when the create throws |
| Store.Store.UpdateManyEnroll | controllers/mocktestPaymet.js:161-172 | `modifiedCount` is the number of matched series; only the enrolment sets change |
| Store.Store.UpdateOneEnroll | controllers/mocktestPaymet.js:597-610 | only the one named series' enrolment set changes |
| Store.Store.AddToOwned | controllers/mocktestPaymet.js:195-205 | only the user's owned set changes |
| IdempotencyKey.SortInPlace | controllers/mocktestPaymet.js:11 | `itemIds.sort()` leaves the caller's array sorted in string order and a permutation of what it held |
| IdempotencyKey.GenerateIdempotencyKey | controllers/mocktestPaymet.js:10-13 | the key is SHA-256 of "user-ids joined by '-'-clock", taken over the ids after the in-place sort |
| IdempotencyKey.DerivedKeyIgnoresRequestOrder | controllers/mocktestPaymet.js:10-13 | two requests for the same ids in any order derive the same key for the same user and clock |
| Capture.CaptureStatusCodes | controllers/mocktestPaymet.js:24-99 | an empty list gets 400 with no call and no write; a gateway error after the call gets 500 with no write; 500 comes exactly from a call that did not end in a recorded order, and never writes |
| Capture.FindByKey | controllers/mocktestPaymet.js:32 | in a valid store an order is found exactly when the key is indexed, and it carries that key |
| Capture.CaptureMockTestPayment | controllers/mocktestPaymet.js:16-100 | the key is the header when present, else derived after sorting the caller's array; response, gateway call and store are those of `CaptureSpec` |
| Capture.CaptureCallsGateway | controllers/mocktestPaymet.js:43-79 | the gateway is called exactly when the list is non-empty, no order has the key, and the ids are distinct, existing and unheld; it is asked for 100 × the price sum in INR |
| Capture.CaptureRejectsUnavailable | controllers/mocktestPaymet.js:43-69 | a missing, already-held or repeated id gives 400, with no gateway call and no write |
| Capture.CaptureRecordsOrder | controllers/mocktestPaymet.js:71-93 | the only change capture makes is one new `created` order, with the user, the ids, the key and the price sum as amount; this happens exactly when the gateway replied and the id, the key and the user are present and unused |
| Capture.CaptureReplay | controllers/mocktestPaymet.js:30-41 | a key that already has an order returns that order with 200, with no gateway call and no write |
| Capture.CaptureTwiceOneOrder | controllers/mocktestPaymet.js:30-88 | after a capture has recorded its order, a second capture under the same key returns that order and changes nothing |
| Capture.CaptureKeepsValid | controllers/mocktestPaymet.js:16-100 | capture keeps every store invariant |
| Enrollment.EnrollRetry | controllers/mocktestPaymet.js:153-193 | the retry loop succeeds exactly when some attempt runs and the ids are distinct, existing and unheld; on success the listed series gain the user |
| Enrollment.EnrollWithRetry | controllers/mocktestPaymet.js:153-193 | the `while` loop's result and enrolment sets are `EnrollRetry`'s, and nothing else changes |
| Enrollment.Settle | controllers/mocktestPaymet.js:153-217 | settlement succeeds exactly when enrolment succeeds and the record is valid and new; it then enrols, grants ownership and adds one record, and keeps the store valid |
| Enrollment.SettleTransaction | controllers/mocktestpaymentold.js:241-304 | the transaction body succeeds exactly when `Settle` does, and it then leaves `Settle`'s store |
| Verify.VerifyMockTestPayment | controllers/mocktestPaymet.js:102-239 | response and store are those of the handler's specification `VerifyWith` |
| Verify.VerifyAsWrittenNeverGrants | controllers/mocktestPaymet.js:207-235 | as written, every request leaves the store unchanged and never gets 200 |
| Verify.VerifyAsWrittenRejectsGoodPayment | controllers/mocktestPaymet.js:207-235 | as written, a correctly signed request for one fresh series gets 500 and the user stays unenrolled |
| Verify.VerifyStampedGrants | controllers/mocktestPaymet.js:150-226 | with a stamped record, a correctly signed request for a new order, listing distinct existing unheld series, gets 200 when some attempt runs; the user is enrolled and granted, and one completed record lists the series |
| Verify.VerifyStampedSuccessChecks | controllers/mocktestPaymet.js:111-193 | a 200 implies that the signature matched, no record existed, and the ids were distinct, existing and unheld |
| Verify.VerifyStampedTwice | controllers/mocktestPaymet.js:126-133 | after a success, a later request for the same order gets 201 and changes nothing, whatever its signature |
| Verify.VerifyFailsCleanly | controllers/mocktestPaymet.js:111-235 | every answer but 200 leaves the store unchanged; 400 comes exactly from a missing field, or from a bad signature on an order with no record; no order is touched |
| Verify.VerifyRecordedAnswers201 | controllers/mocktestPaymet.js:111-133 | a complete request for an order id with a record of any status gets 201 and no write, whatever its signature, as written and stamped alike; 201 comes from nothing else |
| Verify.CheckoutMessage | controllers/mocktestPaymet.js:134 | the signed text is the order id, a bar, and the payment id |
| Verify.SignatureMatches | controllers/mocktestPaymet.js:135-140 | the request's signature equals the HMAC-SHA256 of the checkout text under the secret |
| Verify.VerifyDraft | controllers/mocktestPaymet.js:207-217 | the record asked for is completed and lists the request's series; it validates exactly when it carries a `webhookProcessedAt` and the user, order and payment ids are present |
| Verify.VerifyKeepsValid | controllers/mocktestPaymet.js:102-239 | verify keeps every store invariant |
| WebhookPayload.SignatureValid | controllers/mocktestPaymet.js:435-447 | the signature header equals the HMAC-SHA256 of the stringified body under the webhook secret |
| WebhookPayload.CompletedDraft | controllers/mocktestPaymet.js:629-638 | the record for a captured payment is completed and lists the order's series; it validates exactly when the order's user, the order id and the payment id are present |
| WebhookPayload.FailedDraft | controllers/mocktestPaymet.js:645-655 | the record for a failed payment is failed and lists no series; it validates exactly when the notes' user, the order id and the payment id are present |
| Webhook.HoldsAny | controllers/mocktestPaymet.js:561-576 | the user document exists and its `mocktests` holds at least one series of the order |
| Webhook.EnrolledInAny | controllers/mocktestPaymet.js:578-593 | at least one existing series of the order lists the user in `studentsEnrolled` |
| Webhook.CapturedAttempt | controllers/mocktestPaymet.js:537-641 | a record ends the attempt with no write; a missing order throws; a held or enrolled series ends it with no write; otherwise the attempt enrols, grants and writes the completed record, or throws when the record fails |
| Webhook.FirstClean | controllers/mocktestPaymet.js:454-686 | the first attempt that no transient error interrupts: every earlier attempt was interrupted |
| Webhook.Backoff | controllers/mocktestPaymet.js:680-682 | the wait before retry n is 1000·n ms |
| Webhook.RunAttempt | controllers/mocktestPaymet.js:458-661 | one attempt matches `AttemptSpec`: it short-circuits with no writes, or reaches commit with the specified store (the `for` loop of `updateOne`s included), or throws |
| Webhook.HandleRazorpayWebhook | controllers/mocktestPaymet.js:429-703 | response, attempt count, waits and store are those of `WebhookSpec` |
| Webhook.WebhookCapturedGrants | controllers/mocktestPaymet.js:595-641 | a captured payment that passes the guards is settled once an attempt commits cleanly: it enrols and grants the order's series and adds one completed record with the payment's amount and method; the order is untouched |
| Webhook.WebhookCapturedChangeChecks | controllers/mocktestPaymet.js:537-593 | a captured payment changes the store only if the signature was valid, no record existed, the order existed, and its user held none of its series and was enrolled in none |
| Webhook.WebhookPartialHolderGetsNothing | controllers/mocktestPaymet.js:561-593 | if the user already holds, or is enrolled in, any series of the order, the answer is 200 after one attempt, with no enrolment and no record |
| Webhook.WebhookFailedOnlyRecords | controllers/mocktestPaymet.js:644-657 | a failed payment never enrols or grants; it gets 200 exactly when its failed record is valid and new and an attempt commits cleanly, and the record has no series |
| Webhook.WebhookOtherEvents | controllers/mocktestPaymet.js:459-669 | any other event writes nothing; it gets 200 exactly when the payment entity is readable and an attempt commits cleanly |
| Webhook.WebhookRetryBound | controllers/mocktestPaymet.js:431-688 | a bad signature means no attempt; there are at most three attempts, a retry only after a transient error, and waits of 1000·n ms; every non-200 answer leaves the store unchanged |
| Webhook.WebhookBadSignature | controllers/mocktestPaymet.js:433-447 | a bad signature gets 400 with no attempt, no wait and no write, whatever the event; 400 comes from nothing else |
| Webhook.WebhookCapturedGuards | controllers/mocktestPaymet.js:537-559 | a record of any status for the order id gives 200 after one attempt with no write; with no record, a missing order gives 500 after one attempt with no write |
| Webhook.WebhookCapturedTwice | controllers/mocktestPaymet.js:538-550 | redelivering a settled captured payment gets 200 after one attempt and changes nothing |
| Webhook.WebhookKeepsValid | controllers/mocktestPaymet.js:429-703 | the webhook keeps every store invariant and never touches an order |
| LegacyWebhook.LegacyHandleRazorpayWebhook | controllers/mocktestpaymentold.js:188-351 | response and store are those of `LegacyWebhookSpec` |
| LegacyWebhook.LegacyChecksOrderFirst | controllers/mocktestpaymentold.js:219-238 | a missing order gives 500 even when a record exists; an existing order with a record gives 200 and no write |
| LegacyWebhook.LegacyUnsettleableOrderAborts | controllers/mocktestpaymentold.js:241-277 | if the user is already enrolled in a series of the order, or a series is missing or repeated, every delivery gets 500 and changes nothing |
| LegacyWebhook.LegacyCapturedGrants | controllers/mocktestpaymentold.js:279-304 | a settleable captured payment enrols and grants the order's series and adds one completed record with the payment's amount |
| LegacyWebhook.LegacyFailedOnlyRecords | controllers/mocktestpaymentold.js:310-323 | a failed payment never enrols or grants, and any change is one failed record with no series |
| LegacyWebhook.LegacyAgreesWithLive | controllers/mocktestpaymentold.js:217-308 | where both webhooks settle a captured payment, they answer alike and leave the same store |
| LegacyWebhook.LegacyFailsCleanly | controllers/mocktestpaymentold.js:188-351 | 400 comes exactly from a bad signature; every answer but 200 leaves the store unchanged; the answer is 200, 400 or 500 |
| LegacyWebhook.LegacyKeepsValid | controllers/mocktestpaymentold.js:188-351 | the legacy webhook keeps every store invariant and never touches an order |
| IncompletePayments.Incomplete | controllers/mocktestpaymentold.js:411-438 | an order is kept when no record of any status has its Razorpay order id and its user document exists |
| IncompletePayments.Enrich | controllers/mocktestpaymentold.js:440-481 | a row carries the order's user, series and order id, and the price of exactly the listed series that exist |
| IncompletePayments.GetIncompletePaymentUsers | controllers/mocktestpaymentold.js:454-489 | given the Order collection in scan order, the answer is 200, `count` is the number of rows, and an empty result has count 0 |
| IncompletePayments.PendingOrdersExact | controllers/mocktestpaymentold.js:411-452 | the aggregate keeps exactly the scanned orders that have no record of any status and whose user exists |
| IncompletePayments.IncompleteReportExact | controllers/mocktestpaymentold.js:411-489 | there is a row for a stored order exactly when it is incomplete; each row has its order's fields and the prices of its existing series; `count` is the number of incomplete stored orders |
| IncompletePayments.IncompleteReportEmpty | controllers/mocktestpaymentold.js:454-462 | the report is empty exactly when no stored order is incomplete, and it is then 200 with count 0 and no data |

## Left out

- The capture and verify handlers of controllers/mocktestpaymentold.js (lines 18-172) duplicate the live ones and are not modelled separately.
- ObjectId casting is left out: an id that is not a valid ObjectId throws in the source. So is the wrapping of a non-array `itemId` into a one-element list, in capture (controllers/mocktestPaymet.js:18) and in verify (controllers/mocktestPaymet.js:150): capture takes the ids as a list, and verify takes `itemId` as an optional list.
- Errors that come from reading the request body, other than a missing `payload.payment.entity`, are not modelled. For example, a webhook body without `notes` makes the failed-payment path throw, and the model treats it as a missing user id with the same outcome.
- Concurrency is left out: races between verify and webhook calls, and redeliveries that run at the same time. The webhook's guard queries run outside its session; the model runs each handler alone on one store, so this makes no difference there.
- The clock is one value per call. In the source, `new Date()` is read again on each webhook attempt, after the waits.
- The waits themselves (`setTimeout`) are returned as values and not slept. The legacy webhook's fixed 1000 ms wait between `updateMany` attempts is dropped.
- Webhook.HandleRazorpayWebhook: a transient error is applied only to an attempt that reaches its commit. An attempt that would throw anyway ends in 500 with the store unchanged, with or without a retry. An attempt that short-circuits does no write that could conflict.
- Prices and amounts are integers. JavaScript numbers are floating point.
- String order is code-point order over Dafny characters. JavaScript's default sort compares UTF-16 code units.
- The gateway's order-creation call is left out; its reply is a parameter. The `Math.random` receipt is left out too.
- Emails, logging, and the handlers that are commented out in the source are not modelled.
- User profile fields are left out: the report's `username` and `email` come from the user document. So are the series titles in the report's `mockTests`.
- The order of rows follows the given scan order of the Order collection. The `mockTests` of a row is a map, so the order of `MockTestSeries.find` results is not kept.
- Capture.SumPrices: sums the listed ids' prices. The source's aggregate sums over the matched documents. The two agree whenever capture goes on to call the gateway, because the ids are then distinct, existing series.
- The Mongoose `timestamps` option (`updatedAt`) is left out.

## Findings

| source | as written | input that shows it | evidently intended | confidence | as-written member | corrected member |
|---|---|---|---|---|---|---|
| controllers/mocktestPaymet.js:207-217 | the verify handler's `PaymentVerification.create` leaves out `webhookProcessedAt`, which models/paymentVerification.js:42-45 requires; the create always fails validation, so the transaction aborts and the handler answers 500 | a correctly signed request for order "order_1", payment "pay_1", series ["s1"] (price 499), by user "u1", on an empty store: 500, and "s1" still lists nobody | stamp the record with the current time, as both webhooks do (controllers/mocktestPaymet.js:637), so that a verified payment is granted | not executed | Verify.VerifyAsWritten (shown by Verify.VerifyAsWrittenRejectsGoodPayment and Verify.VerifyAsWrittenNeverGrants) | Verify.VerifyStamped (proved by Verify.VerifyStampedGrants, Verify.VerifyStampedSuccessChecks and Verify.VerifyStampedTwice) |
