/** The fallback idempotency key of the capture handler
    (`generateIdempotencyKey`): a SHA-256 hex digest of the user id, the item
    ids sorted in place, and the clock, joined with '-'. */
module IdempotencyKey {
  import opened Common

  /** The order `Array.prototype.sort` uses for strings when given no
      comparator: lexicographic on character codes. */
  predicate Below(a: string, b: string)
  {
    a == [] || (b != [] && (a[0] < b[0] || (a[0] == b[0] && Below(a[1..], b[1..]))))
  }

  lemma {:induction false} BelowTotal(a: string, b: string)
    ensures Below(a, b) || Below(b, a)
  {
    if a != [] && b != [] && a[0] == b[0] {
      BelowTotal(a[1..], b[1..]);
    }
  }

  lemma {:induction false} BelowAntisymmetric(a: string, b: string)
    requires Below(a, b) && Below(b, a)
    ensures a == b
  {
    if a != [] && b != [] {
      BelowAntisymmetric(a[1..], b[1..]);
      assert a == [a[0]] + a[1..] && b == [b[0]] + b[1..];
    }
  }

  lemma {:induction false} BelowTransitive(a: string, b: string, c: string)
    requires Below(a, b) && Below(b, c)
    ensures Below(a, c)
  {
    if a != [] && a[0] == b[0] && b[0] == c[0] {
      BelowTransitive(a[1..], b[1..], c[1..]);
    }
  }

  predicate Sorted(s: seq<string>)
  {
    forall i, j :: 0 <= i < j < |s| ==> Below(s[i], s[j])
  }

  /** A list has one sorted arrangement: two sorted lists with the same
      elements, counted with repetition, are the same list. */
  lemma {:induction false} SortedUnique(s: seq<string>, t: seq<string>)
    requires Sorted(s) && Sorted(t) && multiset(s) == multiset(t)
    ensures s == t
  {
    assert |s| == |multiset(s)| == |multiset(t)| == |t|;
    if s != [] {
      SortedHeads(s, t);
      TailMultiset(s);
      TailMultiset(t);
      SortedUnique(s[1..], t[1..]);
      assert s == [s[0]] + s[1..] && t == [t[0]] + t[1..];
    }
  }

  /** Two non-empty sorted lists with the same elements start alike. */
  lemma SortedHeads(s: seq<string>, t: seq<string>)
    requires Sorted(s) && Sorted(t) && multiset(s) == multiset(t) && s != [] && t != []
    ensures s[0] == t[0]
  {
    assert s[0] in multiset(t);
    var j :| 0 <= j < |t| && t[j] == s[0];
    assert t[0] in multiset(s);
    var i :| 0 <= i < |s| && s[i] == t[0];
    if j > 0 && i > 0 {
      BelowAntisymmetric(s[0], t[0]);
    }
  }

  lemma TailMultiset(s: seq<string>)
    requires s != []
    ensures multiset(s[1..]) == multiset(s) - multiset{s[0]}
  {
    assert s == [s[0]] + s[1..];
  }

  /** The `itemIds.sort()` of `generateIdempotencyKey`: the caller's array
      is sorted in place, by insertion. */
  method SortInPlace(a: array<string>)
    modifies a
    ensures Sorted(a[..])
    ensures multiset(a[..]) == multiset(old(a[..]))
  {
    var i := 0;
    while i < a.Length
      invariant 0 <= i <= a.Length
      invariant Sorted(a[..i])
      invariant multiset(a[..]) == multiset(old(a[..]))
    {
      InsertLast(a, i);
      i := i + 1;
    }
    assert a[..] == a[..a.Length];
  }

  /** One step of the insertion sort: moves `a[i]` left into the sorted
      prefix `a[..i]`. */
  method InsertLast(a: array<string>, i: nat)
    requires i < a.Length && Sorted(a[..i])
    modifies a
    ensures Sorted(a[..i + 1])
    ensures multiset(a[..]) == multiset(old(a[..]))
  {
    var j := i;
    while j > 0 && !Below(a[j - 1], a[j])
      invariant 0 <= j <= i
      invariant forall k, l :: 0 <= k < l <= i && k != j && l != j ==> Below(a[k], a[l])
      invariant forall l :: j < l <= i ==> Below(a[j], a[l])
      invariant multiset(a[..]) == multiset(old(a[..]))
    {
      BelowTotal(a[j - 1], a[j]);
      Swap(a, j - 1, j);
      j := j - 1;
    }
    if j > 0 {
      forall k | 0 <= k < j
        ensures Below(a[k], a[j])
      {
        if k < j - 1 {
          BelowTransitive(a[k], a[j - 1], a[j]);
        }
      }
    }
  }

  method Swap(a: array<string>, i: nat, j: nat)
    requires i < j < a.Length
    modifies a
    ensures a[i] == old(a[j]) && a[j] == old(a[i])
    ensures forall k :: 0 <= k < a.Length && k != i && k != j ==> a[k] == old(a[k])
    ensures multiset(a[..]) == multiset(old(a[..]))
  {
    a[i], a[j] := a[j], a[i];
  }

  function Join(parts: seq<string>, sep: string): string
  {
    if parts == [] then ""
    else if |parts| == 1 then parts[0]
    else parts[0] + sep + Join(parts[1..], sep)
  }

  /** `String(n)` for a non-negative integer such as `Date.now()`. */
  function Decimal(n: nat): (s: string)
    ensures |s| >= 1
    ensures forall k :: 0 <= k < |s| ==> '0' <= s[k] <= '9'
  {
    if n < 10 then ["0123456789"[n]] else Decimal(n / 10) + ["0123456789"[n % 10]]
  }

  /** The text the key hashes: `${userId}-${sortedIds.join("-")}-${now}`. */
  function KeyMaterial(userId: UserId, sortedIds: seq<SeriesId>, now: nat): string
  {
    userId + "-" + Join(sortedIds, "-") + "-" + Decimal(now)
  }

  /** The key derived from a user, the ids as the derivation leaves them
      (sorted), and the clock. */
  function DerivedKey(crypto: Crypto, userId: UserId, sortedIds: seq<SeriesId>, now: nat): string
  {
    crypto.sha256Hex(KeyMaterial(userId, sortedIds, now))
  }

  /** `generateIdempotencyKey(userId, itemIds)`: sorts the caller's array in
      place, then hashes. */
  method GenerateIdempotencyKey(crypto: Crypto, userId: UserId, itemIds: array<SeriesId>, now: nat)
    returns (key: string)
    modifies itemIds
    ensures Sorted(itemIds[..]) && multiset(itemIds[..]) == multiset(old(itemIds[..]))
    ensures key == DerivedKey(crypto, userId, itemIds[..], now)
  {
    SortInPlace(itemIds);
    key := crypto.sha256Hex(KeyMaterial(userId, itemIds[..], now));
  }

  /** The derived key does not depend on the order in which the ids were
      requested: two requests for the same ids, by the same user at the same
      clock reading, derive the same key. (Different clock readings may
      derive different keys: the fallback is best-effort only.) */
  lemma DerivedKeyIgnoresRequestOrder(crypto: Crypto, userId: UserId, s: seq<SeriesId>, t: seq<SeriesId>, now: nat)
    requires Sorted(s) && Sorted(t) && multiset(s) == multiset(t)
    ensures DerivedKey(crypto, userId, s, now) == DerivedKey(crypto, userId, t, now)
  {
    SortedUnique(s, t);
  }
}
