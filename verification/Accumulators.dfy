/** The counters every report accumulates, and tables of them keyed like a JavaScript Map. */
module Accumulators {
  import opened Common

  datatype Totals = Totals(spend: real, impressions: int, clicks: int, leads: int, qualified: int, sales: int, revenue: real)

  const ZERO := Totals(0.0, 0, 0, 0, 0, 0, 0.0)

  function Plus(a: Totals, b: Totals): Totals {
    Totals(a.spend + b.spend, a.impressions + b.impressions, a.clicks + b.clicks, a.leads + b.leads,
           a.qualified + b.qualified, a.sales + b.sales, a.revenue + b.revenue)
  }

  lemma {:induction false} PlusAssoc(a: Totals, b: Totals, c: Totals)
    ensures Plus(Plus(a, b), c) == Plus(a, Plus(b, c))
  {
  }

  lemma {:induction false} PlusZero(a: Totals)
    ensures Plus(a, ZERO) == a && Plus(ZERO, a) == a
  {
  }

  function SumOver<K>(keys: seq<K>, m: map<K, Totals>): Totals
    requires forall k :: k in keys ==> k in m
  {
    if |keys| == 0 then ZERO
    else
      assert keys == Front(keys) + [Last(keys)];
      Plus(SumOver(Front(keys), m), m[Last(keys)])
  }

  lemma {:induction false} SumSnoc<K>(keys: seq<K>, k: K, m: map<K, Totals>)
    requires k in m && forall j :: j in keys ==> j in m
    ensures forall j :: j in keys + [k] ==> j in m
    ensures SumOver(keys + [k], m) == Plus(SumOver(keys, m), m[k])
  {
    assert Front(keys + [k]) == keys;
  }

  lemma {:induction false} SumUnchanged<K>(keys: seq<K>, m: map<K, Totals>, m': map<K, Totals>)
    requires forall k :: k in keys ==> k in m && k in m' && m[k] == m'[k]
    ensures SumOver(keys, m) == SumOver(keys, m')
  {
    if |keys| > 0 {
      assert keys == Front(keys) + [Last(keys)];
      SumUnchanged(Front(keys), m, m');
    }
  }

  /** Adding to one row adds to the sum. */
  lemma {:induction false} SumBumped<K>(keys: seq<K>, m: map<K, Totals>, m': map<K, Totals>, k: K, d: Totals)
    requires Distinct(keys) && k in keys
    requires forall j :: j in keys ==> j in m && j in m'
    requires forall j :: j in keys && j != k ==> m'[j] == m[j]
    requires m'[k] == Plus(m[k], d)
    ensures SumOver(keys, m') == Plus(SumOver(keys, m), d)
  {
    assert keys == Front(keys) + [Last(keys)];
    if k == Last(keys) {
      SumUnchanged(Front(keys), m, m');
    } else {
      SumBumped(Front(keys), m, m', k, d);
    }
  }

  lemma {:induction false} SumOfZeros<K>(keys: seq<K>, m: map<K, Totals>)
    requires forall k :: k in keys ==> k in m && m[k] == ZERO
    ensures SumOver(keys, m) == ZERO
  {
    if |keys| > 0 {
      assert keys == Front(keys) + [Last(keys)];
      SumOfZeros(Front(keys), m);
    }
  }

  /** Sorting the keys does not change the sum. */
  lemma {:induction false} SumInserted<K>(keys: seq<K>, x: K, key: K -> real, m: map<K, Totals>)
    requires x in m && forall k :: k in keys ==> k in m
    ensures forall k :: k in InsertBy(keys, x, key) ==> k in m
    ensures SumOver(InsertBy(keys, x, key), m) == Plus(SumOver(keys, m), m[x])
  {
    if !(|keys| == 0 || key(Last(keys)) <= key(x)) {
      assert keys == Front(keys) + [Last(keys)];
      SumInserted(Front(keys), x, key, m);
      assert Front(InsertBy(keys, x, key)) == InsertBy(Front(keys), x, key);
    } else {
      assert Front(keys + [x]) == keys;
    }
  }

  lemma {:induction false} SumSorted<K>(keys: seq<K>, key: K -> real, m: map<K, Totals>)
    requires forall k :: k in keys ==> k in m
    ensures forall k :: k in SortBy(keys, key) ==> k in m
    ensures SumOver(SortBy(keys, key), m) == SumOver(keys, m)
  {
    if |keys| > 0 {
      assert keys == Front(keys) + [Last(keys)];
      SumSorted(Front(keys), key, m);
      SumInserted(SortBy(Front(keys), key), Last(keys), key, m);
    }
  }

  // ---- Money as reported ----

  /** Math.round(n * 100) / 100. */
  function Round(n: real): (r: real)
    ensures n - 0.005 <= r <= n + 0.005
  {
    (n * 100.0 + 0.5).Floor as real / 100.0
  }

  predicate Near(a: real, b: real, n: nat) {
    b - 0.005 * (n as real) <= a <= b + 0.005 * (n as real)
  }

  function Rounded(t: Totals): Totals {
    t.(spend := Round(t.spend), revenue := Round(t.revenue))
  }

  /** The sum of n rounded amounts is within 0.005 n of the sum of the amounts. */
  lemma {:induction false} RoundedSum<K>(keys: seq<K>, m: map<K, Totals>, r: map<K, Totals>)
    requires forall k :: k in keys ==> k in m && k in r && r[k] == Rounded(m[k])
    ensures Near(SumOver(keys, r).spend, SumOver(keys, m).spend, |keys|)
    ensures Near(SumOver(keys, r).revenue, SumOver(keys, m).revenue, |keys|)
    ensures SumOver(keys, r) == SumOver(keys, m).(spend := SumOver(keys, r).spend, revenue := SumOver(keys, r).revenue)
  {
    if |keys| > 0 {
      assert keys == Front(keys) + [Last(keys)];
      RoundedSum(Front(keys), m, r);
    }
  }

  // ---- Tables keyed in insertion order ----

  datatype Table<!K> = Table(order: seq<K>, rows: map<K, Totals>)

  ghost predicate Listed<K(!new)>(t: Table<K>) {
    Distinct(t.order) && forall k :: k in t.order <==> k in t.rows
  }

  /** Find the row of k, creating it at zero, and add d to it. */
  function AddTo<K(==)>(t: Table<K>, k: K, d: Totals): Table<K> {
    if k in t.rows then Table(t.order, t.rows[k := Plus(t.rows[k], d)])
    else Table(t.order + [k], t.rows[k := Plus(ZERO, d)])
  }

  /** The totals of k, zero if the table has no row for it. */
  function At<K(==)>(t: Table<K>, k: K): Totals {
    if k in t.rows then t.rows[k] else ZERO
  }

  /** Adding to one row changes no other. */
  lemma {:induction false} AtAdded<K(!new)>(t: Table<K>, k: K, d: Totals, w: K)
    ensures At(AddTo(t, k, d), w) == if k == w then Plus(At(t, w), d) else At(t, w)
    ensures w in AddTo(t, k, d).rows <==> w in t.rows || w == k
  {
  }

  datatype Entry<!K> = Entry(key: K, delta: Totals)

  function AddAll<K(==)>(t: Table<K>, es: seq<Entry<K>>): Table<K> {
    if |es| == 0 then t else AddTo(AddAll(t, Front(es)), Last(es).key, Last(es).delta)
  }

  /** The sum of the entries of key w. */
  function SumFor<K(==)>(es: seq<Entry<K>>, w: K): Totals {
    if |es| == 0 then ZERO
    else if Last(es).key == w then Plus(SumFor(Front(es), w), Last(es).delta)
    else SumFor(Front(es), w)
  }

  predicate HasEntry<K(==)>(es: seq<Entry<K>>, w: K) {
    exists i :: 0 <= i < |es| && es[i].key == w
  }

  /** A row ends with exactly the entries of its key added to it. */
  lemma {:induction false} AllAdded<K(!new)>(t: Table<K>, es: seq<Entry<K>>, w: K)
    ensures At(AddAll(t, es), w) == Plus(At(t, w), SumFor(es, w))
  {
    if |es| == 0 {
      PlusZero(At(t, w));
    } else {
      AllAdded(t, Front(es), w);
      AtAdded(AddAll(t, Front(es)), Last(es).key, Last(es).delta, w);
      PlusAssoc(At(t, w), SumFor(Front(es), w), Last(es).delta);
    }
  }

  /** The entries create the rows of their keys and no others. */
  lemma {:induction false} RowsAdded<K(!new)>(t: Table<K>, es: seq<Entry<K>>, w: K)
    ensures w in AddAll(t, es).rows <==> w in t.rows || HasEntry(es, w)
  {
    if |es| > 0 {
      RowsAdded(t, Front(es), w);
      AtAdded(AddAll(t, Front(es)), Last(es).key, Last(es).delta, w);
      HasEntrySnoc(es, w);
    }
  }

  lemma {:induction false} HasEntrySnoc<K(!new)>(es: seq<Entry<K>>, w: K)
    requires |es| > 0
    ensures HasEntry(es, w) <==> HasEntry(Front(es), w) || Last(es).key == w
  {
    assert forall i :: 0 <= i < |Front(es)| ==> es[i] == Front(es)[i];
    assert Last(es) == es[|es| - 1];
  }

  lemma {:induction false} AddToAdds<K(!new)>(t: Table<K>, k: K, d: Totals)
    requires Listed(t)
    ensures Listed(AddTo(t, k, d))
    ensures SumOver(AddTo(t, k, d).order, AddTo(t, k, d).rows) == Plus(SumOver(t.order, t.rows), d)
  {
    if k in t.rows { KnownRowAdds(t, k, d); } else { NewRowAdds(t, k, d); }
  }

  lemma {:induction false} KnownRowAdds<K(!new)>(t: Table<K>, k: K, d: Totals)
    requires Listed(t) && k in t.rows
    ensures Listed(AddTo(t, k, d))
    ensures SumOver(AddTo(t, k, d).order, AddTo(t, k, d).rows) == Plus(SumOver(t.order, t.rows), d)
  {
    SumBumped(t.order, t.rows, AddTo(t, k, d).rows, k, d);
  }

  lemma {:induction false} NewRowAdds<K(!new)>(t: Table<K>, k: K, d: Totals)
    requires Listed(t) && k !in t.rows
    ensures Listed(AddTo(t, k, d))
    ensures SumOver(AddTo(t, k, d).order, AddTo(t, k, d).rows) == Plus(SumOver(t.order, t.rows), d)
  {
    var rows := AddTo(t, k, d).rows;
    SumUnchanged(t.order, t.rows, rows);
    SumSnoc(t.order, k, rows);
    PlusZero(d);
  }
}
