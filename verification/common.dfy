/** Vocabulary shared by every part of the settlement model: identifiers,
    optional values, the handlers' responses, the cryptographic primitives
    the handlers call, and a few facts about lists read as sets. */
module Common {

  /** MongoDB ObjectIds and Razorpay ids are opaque strings here; the empty
      string stands for a value that is missing (falsy in JavaScript). */
  type UserId = string
  type SeriesId = string
  type OrderId = string
  type PaymentId = string

  datatype Option<+T> = None | Some(value: T)

  /** What a handler sends back: the HTTP status and the `success` flag of
      its JSON body. */
  datatype Response = Response(status: int, success: bool)

  /** HMAC-SHA256 (RFC 2104 over the SHA-256 of FIPS 180-4, hex digest) and
      the SHA-256 hex digest, left uninterpreted: the model only ever compares
      their results for equality. */
  datatype Crypto = Crypto(hmacSha256: (string, string) -> string, sha256Hex: string -> string)

  /** The documents a list of ids names, as MongoDB's `$in` and
      `$addToSet: {$each: ...}` see it: order and repetition are lost. */
  function SetOf<T>(s: seq<T>): set<T>
  {
    set x | x in s
  }

  predicate Distinct<T(==)>(s: seq<T>)
  {
    forall i, j :: 0 <= i < j < |s| ==> s[i] != s[j]
  }

  /** A part of a finite set is no larger than the set, and strictly
      smaller when it leaves something out. */
  lemma SubsetCardinality<T>(a: set<T>, b: set<T>)
    requires a <= b
    ensures |a| <= |b|
    ensures a < b ==> |a| < |b|
  {
    assert b == a + (b - a);
    assert a * (b - a) == {};
  }

  /** A list names at most as many documents as it has entries, and exactly
      as many when no id repeats. */
  lemma {:induction false} SetOfCardinality<T>(s: seq<T>)
    ensures |SetOf(s)| <= |s|
    ensures |SetOf(s)| == |s| <==> Distinct(s)
  {
    if s != [] {
      var rest := s[1..];
      SetOfCardinality(rest);
      assert SetOf(s) == {s[0]} + SetOf(rest);
      if s[0] in SetOf(rest) {
        var j :| 0 <= j < |rest| && rest[j] == s[0];
        assert s[j + 1] == s[0];
        assert !Distinct(s);
      } else {
        assert |SetOf(s)| == 1 + |SetOf(rest)|;
        if Distinct(rest) {
          forall i, j | 0 <= i < j < |s|
            ensures s[i] != s[j]
          {
            assert s[j] == rest[j - 1];
            if i > 0 {
              assert s[i] == rest[i - 1];
            } else {
              assert s[j] in SetOf(rest);
            }
          }
        }
        if Distinct(s) {
          forall i, j | 0 <= i < j < |rest|
            ensures rest[i] != rest[j]
          {
            assert rest[i] == s[i + 1] && rest[j] == s[j + 1];
          }
        }
      }
    }
  }
}
