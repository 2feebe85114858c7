/** The settlement step shared by the verify handler
    (controllers/mocktestPaymet.js) and the older webhook handler
    (controllers/mocktestpaymentold.js): an `updateMany` enrolment retried up
    to three times until its `modifiedCount` equals the number of ids, then
    the user's own set, then one verification record, all inside the
    caller's transaction. */
module Enrollment {
  import opened Common
  import opened VerificationModel
  import opened Store

  /** `let retryAttempts = 3`. */
  const MaxUpdateAttempts: nat := 3

  /** Whether attempt `i` of the `updateMany` throws before writing anything
      (a write conflict, a lost connection): an oracle. */
  predicate Throws(fails: seq<bool>, i: nat)
  {
    i < |fails| && fails[i]
  }

  /** Some attempt within the bound reaches the database. */
  predicate SomeUpdateRuns(fails: seq<bool>)
  {
    exists i :: 0 <= i < MaxUpdateAttempts && !Throws(fails, i)
  }

  datatype Enrolment = Enrolment(ok: bool, enrolled: map<SeriesId, set<UserId>>)

  /** What the retry loop leaves behind. The first attempt that runs adds
      the user to every listed series that exists and succeeds exactly when
      it modified as many series as there are ids; a later attempt finds
      nothing left to modify, so it cannot succeed where the first failed. */
  function EnrollRetry(enrolled: map<SeriesId, set<UserId>>, ids: seq<SeriesId>, user: UserId,
                       fails: seq<bool>): (r: Enrolment)
    ensures r.ok <==> && SomeUpdateRuns(fails) && Distinct(ids)
                      && forall i :: 0 <= i < |ids| ==> ids[i] in enrolled && user !in enrolled[ids[i]]
    ensures r.enrolled.Keys == enrolled.Keys
    ensures r.ok ==> forall s | s in enrolled :: r.enrolled[s] == if s in ids then enrolled[s] + {user} else enrolled[s]
  {
    UnheldCoversAll(enrolled, ids, user);
    if SomeUpdateRuns(fails) then
      Enrolment(|Unheld(enrolled, ids, user)| == |ids|, AddUserTo(enrolled, SetOf(ids), user))
    else
      Enrolment(false, enrolled)
  }

  /** The `while (retryAttempts > 0 && !updateSuccess)` loop: each attempt
      either throws before writing, or runs the `updateMany` and compares its
      `modifiedCount` with the number of ids; a mismatch is thrown and
      counted as a failed attempt too. */
  method EnrollWithRetry(db: Store, ids: seq<SeriesId>, user: UserId, fails: seq<bool>) returns (ok: bool)
    modifies db
    ensures Enrolment(ok, db.enrolled) == EnrollRetry(old(db.enrolled), ids, user, fails)
    ensures db.Value() == old(db.Value()).(enrolled := db.enrolled)
  {
    ghost var e0 := db.enrolled;
    ghost var ran := false;
    ghost var tried: nat := 0;
    var retryAttempts := MaxUpdateAttempts;
    ok := false;
    while retryAttempts > 0 && !ok
      invariant 0 <= retryAttempts <= MaxUpdateAttempts
      invariant tried == MaxUpdateAttempts - retryAttempts + (if ok then 1 else 0) <= MaxUpdateAttempts
      invariant ran <==> exists i :: 0 <= i < tried && !Throws(fails, i)
      invariant db.enrolled == if ran then AddUserTo(e0, SetOf(ids), user) else e0
      invariant ok ==> ran && |Unheld(e0, ids, user)| == |ids|
      invariant ran && !ok ==> |Unheld(e0, ids, user)| != |ids|
      invariant db.Value() == old(db.Value()).(enrolled := db.enrolled)
      decreases retryAttempts, if ok then 0 else 1
    {
      var attempt := MaxUpdateAttempts - retryAttempts;
      tried := tried + 1;
      if Throws(fails, attempt) {
        retryAttempts := retryAttempts - 1;
      } else {
        AddUserToSettles(e0, ids, user);
        var modified := db.UpdateManyEnroll(ids, user);
        ran := true;
        if modified == |ids| {
          ok := true;
        } else {
          retryAttempts := retryAttempts - 1;
        }
      }
    }
  }

  /** Enrolment with retry, `User.updateOne` with `$addToSet`, and
      `PaymentVerification.create`, in one transaction; `None` is a thrown
      error, after which the caller aborts. On success the user is added to
      every listed series and every listed series to the user's set, and
      exactly one record is added, under the draft's order id. */
  function Settle(d: DB, ids: seq<SeriesId>, user: UserId, dr: Draft, fails: seq<bool>, now: int): (r: Option<DB>)
    ensures r.Some? <==> && SomeUpdateRuns(fails) && Distinct(ids)
                         && (forall i :: 0 <= i < |ids| ==> ids[i] in d.enrolled && user !in d.enrolled[ids[i]])
                         && RecordHasRequired(WithDefaults(dr, now))
                         && dr.razorpayOrderId !in d.verifications && dr.razorpayPaymentId !in d.paymentIds
    ensures r.Some? ==> && r.value.enrolled == AddUserTo(d.enrolled, SetOf(ids), user)
                        && r.value.owned == GrantOwned(d.owned, user, ids)
                        && r.value.verifications == d.verifications[dr.razorpayOrderId := WithDefaults(dr, now)]
                        && r.value.orders == d.orders && r.value.orderKeys == d.orderKeys && r.value.price == d.price
    ensures Valid(d) && r.Some? ==> Valid(r.value)
  {
    var e := EnrollRetry(d.enrolled, ids, user, fails);
    if !e.ok then None
    else InsertRecord(d.(enrolled := e.enrolled, owned := GrantOwned(d.owned, user, ids)), dr, now)
  }

  /** The transactional body behind `Settle`; on `false` the store holds the
      transaction's partial writes, which the caller's abort discards. */
  method SettleTransaction(db: Store, ids: seq<SeriesId>, user: UserId, dr: Draft, fails: seq<bool>, now: int)
    returns (ok: bool)
    modifies db
    ensures ok == Settle(old(db.Value()), ids, user, dr, fails, now).Some?
    ensures ok ==> db.Value() == Settle(old(db.Value()), ids, user, dr, fails, now).value
  {
    ok := EnrollWithRetry(db, ids, user, fails);
    if ok {
      db.AddToOwned(user, ids);
      ok := db.CreateVerification(dr, now);
    }
  }
}
