/**
 * Upserts into a table with a unique key, and what a repeated batch does to it. `make` is the row an insert
 * stores, `write` the row an update leaves. A batch may hold several records with the same key.
 */
module UpsertTable {
  import opened Common

  function Upsert<K, V, R>(m: map<K, V>, r: R, key: R -> K, make: R -> V, write: (V, R) -> V): map<K, V> {
    m[key(r) := if key(r) in m then write(m[key(r)], r) else make(r)]
  }

  function UpsertAll<K, V, R>(m: map<K, V>, rs: seq<R>, key: R -> K, make: R -> V, write: (V, R) -> V): map<K, V> {
    if |rs| == 0 then m else Upsert(UpsertAll(m, Front(rs), key, make, write), Last(rs), key, make, write)
  }

  /** The updates of a batch as one row of key k sees them. */
  function WriteAll<K(==), V, R>(v: V, rs: seq<R>, k: K, key: R -> K, write: (V, R) -> V): V {
    if |rs| == 0 then v
    else
      var before := WriteAll(v, Front(rs), k, key, write);
      if key(Last(rs)) == k then write(before, Last(rs)) else before
  }

  ghost predicate HasKey<K, R(!new)>(rs: seq<R>, k: K, key: R -> K) {
    exists r :: r in rs && key(r) == k
  }

  /**
   * The laws of an update that overwrites a fixed set of columns with the record's values, be it all of them
   * or only those present in the record: repeating one write, or an earlier one, has no further effect.
   */
  ghost predicate Overwrites<V(!new), R(!new)>(make: R -> V, write: (V, R) -> V) {
    && (forall r :: write(make(r), r) == make(r))
    && (forall v, r :: write(write(v, r), r) == write(v, r))
    && (forall v, a, b :: write(write(write(v, a), b), a) == write(write(v, b), a))
  }

  /** The laws of an update that overwrites the same columns whatever the record: the last write decides. */
  ghost predicate LastWriteWins<V(!new), R(!new)>(write: (V, R) -> V) {
    forall v, a, b :: write(write(v, a), b) == write(v, b)
  }

  /** A known row receives all the batch's updates for its key; rows of other keys stay. */
  lemma {:induction false} KnownRow<K, V, R(!new)>(m: map<K, V>, rs: seq<R>, k: K, key: R -> K, make: R -> V, write: (V, R) -> V)
    ensures k in UpsertAll(m, rs, key, make, write) <==> k in m || HasKey(rs, k, key)
    ensures k in m ==> UpsertAll(m, rs, key, make, write)[k] == WriteAll(m[k], rs, k, key, write)
  {
    if |rs| > 0 {
      KnownRow(m, Front(rs), k, key, make, write);
      assert rs == Front(rs) + [Last(rs)];
    }
  }

  /** The first record of key k in a batch. */
  function FirstOf<K(==), R(!new)>(rs: seq<R>, k: K, key: R -> K): (r: R)
    requires HasKey(rs, k, key)
    ensures r in rs && key(r) == k
  {
    assert rs == Front(rs) + [Last(rs)];
    if exists i | 0 <= i < |rs| - 1 :: key(rs[i]) == k then
      assert forall i :: 0 <= i < |rs| - 1 ==> rs[i] == Front(rs)[i] && rs[i] in Front(rs);
      FirstOf(Front(rs), k, key)
    else Last(rs)
  }

  /** A key the batch introduces is created from its first record and then updated like any other. */
  lemma {:induction false} NewRow<K, V, R(!new)>(m: map<K, V>, rs: seq<R>, k: K, key: R -> K, make: R -> V, write: (V, R) -> V)
    returns (first: R)
    requires k !in m && HasKey(rs, k, key) && forall r :: write(make(r), r) == make(r)
    ensures first == FirstOf(rs, k, key) && first in rs && key(first) == k
    ensures k in UpsertAll(m, rs, key, make, write)
    ensures UpsertAll(m, rs, key, make, write)[k] == WriteAll(make(first), rs, k, key, write)
  {
    KnownRow(m, Front(rs), k, key, make, write);
    assert rs == Front(rs) + [Last(rs)];
    assert forall i :: 0 <= i < |rs| - 1 ==> rs[i] == Front(rs)[i] && rs[i] in Front(rs);
    if HasKey(Front(rs), k, key) {
      var r :| r in Front(rs) && key(r) == k;
      var i :| 0 <= i < |rs| - 1 && rs[i] == r;
      first := NewRow(m, Front(rs), k, key, make, write);
    } else {
      first := Last(rs);
      NoWrites(make(first), Front(rs), k, key, write);
    }
  }

  lemma {:induction false} NoWrites<K, V, R(!new)>(v: V, rs: seq<R>, k: K, key: R -> K, write: (V, R) -> V)
    requires !HasKey(rs, k, key)
    ensures WriteAll(v, rs, k, key, write) == v
  {
    if |rs| > 0 {
      assert rs == Front(rs) + [Last(rs)];
      NoWrites(v, Front(rs), k, key, write);
    }
  }

  /** A write made before the batch is lost if the same write is made after it. */
  lemma {:induction false} EarlierWriteLost<K, V(!new), R(!new)>(v: V, a: R, rs: seq<R>, k: K, key: R -> K, make: R -> V, write: (V, R) -> V)
    requires Overwrites(make, write)
    ensures write(WriteAll(write(v, a), rs, k, key, write), a) == write(WriteAll(v, rs, k, key, write), a)
  {
    if |rs| > 0 {
      EarlierWriteLost(v, a, Front(rs), k, key, make, write);
      var c := Last(rs);
      var with, without := WriteAll(write(v, a), Front(rs), k, key, write), WriteAll(v, Front(rs), k, key, write);
      assert write(write(write(with, a), c), a) == write(write(with, c), a);
      assert write(write(write(without, a), c), a) == write(write(without, c), a);
    }
  }

  /** A write made before a batch that contains it changes nothing. */
  lemma {:induction false} ContainedWriteLost<K, V(!new), R(!new)>(v: V, a: R, rs: seq<R>, k: K, key: R -> K, make: R -> V, write: (V, R) -> V)
    requires Overwrites(make, write) && a in rs && key(a) == k
    ensures WriteAll(write(v, a), rs, k, key, write) == WriteAll(v, rs, k, key, write)
  {
    assert rs == Front(rs) + [Last(rs)];
    if a in Front(rs) {
      ContainedWriteLost(v, a, Front(rs), k, key, make, write);
    } else {
      EarlierWriteLost(v, a, Front(rs), k, key, make, write);
    }
  }

  lemma {:induction false} PrefixThenBatch<K, V(!new), R(!new)>(v: V, p: seq<R>, rs: seq<R>, k: K, key: R -> K, make: R -> V, write: (V, R) -> V)
    requires Overwrites(make, write) && forall r :: r in p ==> r in rs
    ensures WriteAll(WriteAll(v, p, k, key, write), rs, k, key, write) == WriteAll(v, rs, k, key, write)
  {
    if |p| > 0 {
      assert p == Front(p) + [Last(p)];
      PrefixThenBatch(v, Front(p), rs, k, key, make, write);
      if key(Last(p)) == k {
        ContainedWriteLost(WriteAll(v, Front(p), k, key, write), Last(p), rs, k, key, make, write);
      }
    }
  }

  /** The same batch a second time leaves the table as the first time did, duplicates and all. */
  lemma {:induction false} BatchTwice<K(!new), V(!new), R(!new)>(m: map<K, V>, rs: seq<R>, key: R -> K, make: R -> V, write: (V, R) -> V)
    requires Overwrites(make, write)
    ensures var once := UpsertAll(m, rs, key, make, write);
            UpsertAll(once, rs, key, make, write) == once
  {
    var once := UpsertAll(m, rs, key, make, write);
    var twice := UpsertAll(once, rs, key, make, write);
    forall k
      ensures k in twice <==> k in once
      ensures k in once ==> twice[k] == once[k]
    {
      KnownRow(m, rs, k, key, make, write);
      KnownRow(once, rs, k, key, make, write);
      if k in m {
        PrefixThenBatch(m[k], rs, rs, k, key, make, write);
      } else if k in once {
        var first := NewRow(m, rs, k, key, make, write);
        PrefixThenBatch(make(first), rs, rs, k, key, make, write);
      }
    }
    assert twice.Keys == once.Keys;
  }

  /** The last record of key k in a batch. */
  function LastOf<K(==), R(!new)>(rs: seq<R>, k: K, key: R -> K): (r: R)
    requires HasKey(rs, k, key)
    ensures r in rs && key(r) == k
  {
    assert rs == Front(rs) + [Last(rs)];
    if key(Last(rs)) == k then Last(rs) else LastOf(Front(rs), k, key)
  }

  /** A record that no later one of its key follows is the last of its key. */
  lemma {:induction false} LastAt<K, R(!new)>(rs: seq<R>, i: int, key: R -> K)
    requires 0 <= i < |rs| && forall j :: i < j < |rs| ==> key(rs[j]) != key(rs[i])
    ensures HasKey(rs, key(rs[i]), key) && LastOf(rs, key(rs[i]), key) == rs[i]
  {
    assert rs[i] in rs;
    if i < |rs| - 1 {
      assert forall j :: 0 <= j < |rs| - 1 ==> rs[j] == Front(rs)[j];
      LastAt(Front(rs), i, key);
      assert key(rs[|rs| - 1]) != key(rs[i]);
    }
  }

  /** A table whose rows are the records' own holds for each key of a batch its last record, else its old row. */
  lemma {:induction false} LastStored<K, V(!new), R(!new)>(m: map<K, V>, rs: seq<R>, i: int, key: R -> K, make: R -> V, write: (V, R) -> V)
    requires 0 <= i < |rs| && forall j :: i < j < |rs| ==> key(rs[j]) != key(rs[i])
    requires forall v, r :: write(v, r) == make(r)
    ensures key(rs[i]) in UpsertAll(m, rs, key, make, write)
    ensures UpsertAll(m, rs, key, make, write)[key(rs[i])] == make(rs[i])
  {
    var k := key(rs[i]);
    LastAt(rs, i, key);
    KnownRow(m, rs, k, key, make, write);
    if k in m {
      LastRecordDecides(m[k], rs, k, key, write);
    } else {
      var first := NewRow(m, rs, k, key, make, write);
      LastRecordDecides(make(first), rs, k, key, write);
    }
  }

  lemma {:induction false} OtherRowsStay<K, V, R(!new)>(m: map<K, V>, rs: seq<R>, k: K, key: R -> K, make: R -> V, write: (V, R) -> V)
    requires forall i :: 0 <= i < |rs| ==> key(rs[i]) != k
    ensures k in UpsertAll(m, rs, key, make, write) <==> k in m
    ensures k in m ==> UpsertAll(m, rs, key, make, write)[k] == m[k]
  {
    KnownRow(m, rs, k, key, make, write);
    assert !HasKey(rs, k, key);
    if k in m { NoWrites(m[k], rs, k, key, write); }
  }

  /** Where every update overwrites the same columns, only the last record of the key matters. */
  lemma {:induction false} LastRecordDecides<K, V(!new), R(!new)>(v: V, rs: seq<R>, k: K, key: R -> K, write: (V, R) -> V)
    requires LastWriteWins(write) && HasKey(rs, k, key)
    ensures WriteAll(v, rs, k, key, write) == write(v, LastOf(rs, k, key))
  {
    assert rs == Front(rs) + [Last(rs)];
    if HasKey(Front(rs), k, key) {
      LastRecordDecides(v, Front(rs), k, key, write);
    } else {
      NoWrites(v, Front(rs), k, key, write);
    }
  }
}
