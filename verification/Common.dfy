/** Vocabulary shared by every component: optional values, ids, instants and days. */
module Common {

  datatype Option<+T> = None | Some(value: T)

  datatype Result<+T, +E> = Ok(value: T) | Err(error: E)

  /** Instants are milliseconds since the Unix epoch, as in a JavaScript Date. */
  type Instant = int

  const DAY: int := 86_400_000

  type TenantId = string
  type AdId = nat
  type ContactId = nat

  /** JavaScript truthiness of an optional string: null, undefined and "" are all false. */
  predicate Truthy(s: Option<string>) {
    s.Some? && s.value != ""
  }

  /** UTC midnight of the day an instant falls in. */
  function Midnight(t: Instant): (m: Instant)
    ensures m <= t < m + DAY && m % DAY == 0
  {
    t - t % DAY
  }

  ghost predicate Distinct<T>(s: seq<T>) {
    forall i, j :: 0 <= i < j < |s| ==> s[i] != s[j]
  }

  function Front<T>(s: seq<T>): seq<T>
    requires |s| > 0
  {
    s[..|s| - 1]
  }

  function Last<T>(s: seq<T>): T
    requires |s| > 0
  {
    s[|s| - 1]
  }

  /** The rows of a table a query's where-clause keeps, in table order. */
  function Filter<T(!new)>(s: seq<T>, p: T -> bool): (r: seq<T>)
    ensures forall x :: x in r <==> x in s && p(x)
  {
    if |s| == 0 then []
    else
      var rest := Filter(Front(s), p);
      assert s == Front(s) + [Last(s)];
      if p(Last(s)) then rest + [Last(s)] else rest
  }

  /** Setting a key of an insertion-ordered JavaScript Map or Set: a known key keeps its place. */
  function AddNew<T(==)>(s: seq<T>, x: T): (r: seq<T>)
    ensures x in r
    ensures Distinct(s) ==> Distinct(r)
  {
    if x in s then s else s + [x]
  }

  function Dedupe<T(==)>(s: seq<T>): (r: seq<T>)
    ensures Distinct(r)
  {
    if |s| == 0 then [] else AddNew(Dedupe(Front(s)), Last(s))
  }

  lemma {:induction false} DedupeKeepsMembers<T>(s: seq<T>)
    ensures forall x :: x in Dedupe(s) <==> x in s
  {
    if |s| > 0 {
      DedupeKeepsMembers(Front(s));
      assert s == Front(s) + [Last(s)];
    }
  }

  lemma {:induction false} FirstIsMember<T>(s: seq<T>)
    ensures |s| > 0 ==> s[0] in s
  {
  }

  lemma {:induction false} ConcatSnoc<T>(a: seq<T>, b: seq<T>)
    requires |b| > 0
    ensures a + b == (a + Front(b)) + [Last(b)]
  {
  }

  // ---- Facts about filters ----

  /** Filtering twice is filtering once when the second condition implies the first. */
  lemma {:induction false} FilterFiltered<T(!new)>(s: seq<T>, p: T -> bool, q: T -> bool)
    requires forall x :: x in s && q(x) ==> p(x)
    ensures Filter(Filter(s, p), q) == Filter(s, q)
  {
    if |s| > 0 {
      assert s == Front(s) + [Last(s)];
      FilterFiltered(Front(s), p, q);
      var inner := Filter(Front(s), p);
      assert Front(inner + [Last(s)]) == inner;
    }
  }

  lemma {:induction false} FilterSame<T(!new)>(s: seq<T>, p: T -> bool, q: T -> bool)
    requires forall x :: x in s ==> p(x) == q(x)
    ensures Filter(s, p) == Filter(s, q)
  {
    if |s| > 0 {
      assert s == Front(s) + [Last(s)];
      FilterSame(Front(s), p, q);
    }
  }

  lemma {:induction false} FilterDistinct<T(!new)>(s: seq<T>, p: T -> bool)
    requires Distinct(s)
    ensures Distinct(Filter(s, p))
  {
    if |s| > 0 {
      assert s == Front(s) + [Last(s)];
      FilterDistinct(Front(s), p);
      assert Last(s) !in Front(s);
    }
  }

  // ---- Stable sorting ----

  function InsertBy<T>(s: seq<T>, x: T, key: T -> real): seq<T> {
    if |s| == 0 || key(Last(s)) <= key(x) then s + [x] else InsertBy(Front(s), x, key) + [Last(s)]
  }

  /** Ascending by key; rows of equal key keep their order. */
  function SortBy<T>(s: seq<T>, key: T -> real): seq<T> {
    if |s| == 0 then [] else InsertBy(SortBy(Front(s), key), Last(s), key)
  }

  ghost predicate SortedBy<T>(s: seq<T>, key: T -> real) {
    forall i, j :: 0 <= i < j < |s| ==> key(s[i]) <= key(s[j])
  }

  lemma {:induction false} LastIsGreatest<T>(s: seq<T>, key: T -> real, x: T)
    requires SortedBy(s, key) && x in s
    ensures key(x) <= key(Last(s))
  {
    var i :| 0 <= i < |s| && s[i] == x;
    assert i < |s| - 1 ==> key(s[i]) <= key(s[|s| - 1]);
  }

  lemma {:induction false} InsertPermutes<T>(s: seq<T>, x: T, key: T -> real)
    ensures var r := InsertBy(s, x, key);
            |r| == |s| + 1 && multiset(r) == multiset(s) + multiset{x} && forall i :: 0 <= i < |r| ==> r[i] == x || r[i] in s
  {
    if !(|s| == 0 || key(Last(s)) <= key(x)) {
      assert s == Front(s) + [Last(s)];
      InsertPermutes(Front(s), x, key);
    }
  }

  lemma {:induction false} InsertSorts<T>(s: seq<T>, x: T, key: T -> real)
    requires SortedBy(s, key)
    ensures SortedBy(InsertBy(s, x, key), key)
  {
    if !(|s| == 0 || key(Last(s)) <= key(x)) {
      InsertSorts(Front(s), x, key);
      InsertPermutes(Front(s), x, key);
      var r := InsertBy(Front(s), x, key);
      forall i | 0 <= i < |r|
        ensures key(r[i]) <= key(Last(s))
      {
        if r[i] != x {
          var j :| 0 <= j < |Front(s)| && Front(s)[j] == r[i];
          assert s[j] == r[i];
        }
      }
    }
  }

  /** The sort orders its rows and neither loses nor adds one. */
  lemma {:induction false} SortSorts<T>(s: seq<T>, key: T -> real)
    ensures SortedBy(SortBy(s, key), key) && |SortBy(s, key)| == |s|
    ensures multiset(SortBy(s, key)) == multiset(s)
    ensures forall x :: x in SortBy(s, key) <==> x in s
  {
    if |s| > 0 {
      SortSorts(Front(s), key);
      InsertSorts(SortBy(Front(s), key), Last(s), key);
      InsertPermutes(SortBy(Front(s), key), Last(s), key);
      assert s == Front(s) + [Last(s)];
    }
    assert forall x :: x in SortBy(s, key) <==> x in multiset(SortBy(s, key));
    assert forall x :: x in s <==> x in multiset(s);
  }
}
