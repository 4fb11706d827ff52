/** A deal's canonical status from its stage history (apps/api/src/crm/canonical.ts). */
module CanonicalStatus {
  import opened Common

  datatype Canonical = Lead | Qualified | Won | Lost | Ignored

  type Stage = string

  /** The statuses the mapped stages reach; unmapped stages are dropped. */
  function Reached(stages: seq<Stage>, mapping: map<Stage, Canonical>): seq<Canonical> {
    if |stages| == 0 then []
    else Reached(Front(stages), mapping) + (if Last(stages) in mapping then [mapping[Last(stages)]] else [])
  }

  function Rollup(stages: seq<Stage>, mapping: map<Stage, Canonical>, current: Stage): Canonical {
    var reached := Reached(stages, mapping);
    if Won in reached then Won
    else if Qualified in reached then Qualified
    else if current in mapping then mapping[current] else Lead
  }

  ghost predicate Reaches(stages: seq<Stage>, mapping: map<Stage, Canonical>, c: Canonical) {
    exists s :: s in stages && s in mapping && mapping[s] == c
  }

  lemma {:induction false} ReachedExact(stages: seq<Stage>, mapping: map<Stage, Canonical>, c: Canonical)
    ensures c in Reached(stages, mapping) <==> Reaches(stages, mapping, c)
  {
    if |stages| > 0 {
      ReachedExact(Front(stages), mapping, c);
      assert stages == Front(stages) + [Last(stages)];
    }
  }

  /** The status of a stage; an unmapped one is a lead. */
  function StatusOf(mapping: map<Stage, Canonical>, stage: Stage): Canonical {
    if stage in mapping then mapping[stage] else Lead
  }

  /** A deal is won if it was ever in a won stage, else qualified if ever in a qualifying one, else what its stage says. */
  lemma {:induction false} RollupExact(stages: seq<Stage>, mapping: map<Stage, Canonical>, current: Stage)
    ensures Rollup(stages, mapping, current)
         == if Reaches(stages, mapping, Won) then Won
            else if Reaches(stages, mapping, Qualified) then Qualified
            else StatusOf(mapping, current)
  {
    ReachedExact(stages, mapping, Won);
    ReachedExact(stages, mapping, Qualified);
  }

  /**
   * What two mappings must have in common to agree on a deal whose history holds its current stage: both reach
   * won or neither does; if neither, both reach qualified or neither does; if neither, they map the current stage alike.
   */
  ghost predicate SameVerdict(stages: seq<Stage>, a: map<Stage, Canonical>, b: map<Stage, Canonical>, current: Stage) {
    && (Reaches(stages, a, Won) <==> Reaches(stages, b, Won))
    && (!Reaches(stages, a, Won) ==>
          && (Reaches(stages, a, Qualified) <==> Reaches(stages, b, Qualified))
          && (!Reaches(stages, a, Qualified) ==> StatusOf(a, current) == StatusOf(b, current)))
  }

  lemma {:induction false} SameVerdictExact(stages: seq<Stage>, a: map<Stage, Canonical>, b: map<Stage, Canonical>, current: Stage)
    requires current in stages
    ensures Rollup(stages, a, current) == Rollup(stages, b, current) <==> SameVerdict(stages, a, b, current)
  {
    ReachedExact(stages, a, Won);
    ReachedExact(stages, b, Won);
    ReachedExact(stages, a, Qualified);
    ReachedExact(stages, b, Qualified);
    assert forall m: map<Stage, Canonical> :: current in m ==> Reaches(stages, m, m[current]);
  }

  /** Order and repetition of the history do not matter. */
  lemma {:induction false} RollupIgnoresOrder(a: seq<Stage>, b: seq<Stage>, mapping: map<Stage, Canonical>, current: Stage)
    requires forall s :: s in a <==> s in b
    ensures Rollup(a, mapping, current) == Rollup(b, mapping, current)
  {
    ReachedExact(a, mapping, Won);
    ReachedExact(b, mapping, Won);
    ReachedExact(a, mapping, Qualified);
    ReachedExact(b, mapping, Qualified);
  }

  /** A longer history never takes a qualified deal below qualified. */
  lemma {:induction false} QualifiedSticks(a: seq<Stage>, more: seq<Stage>, mapping: map<Stage, Canonical>, current: Stage)
    requires Rollup(a, mapping, current) == Qualified
    ensures Rollup(a + more, mapping, current) in {Qualified, Won}
  {
    ReachedExact(a, mapping, Qualified);
    ReachedExact(a + more, mapping, Qualified);
    if Qualified in Reached(a, mapping) {
      var s :| s in a && s in mapping && mapping[s] == Qualified;
      assert s in a + more;
    }
  }

  /**
   * A longer history never lowers a won deal exactly when the win is in its history, or no stage is mapped to
   * qualified: a win read off the current stage alone is overridden by a qualifying stage in the history.
   */
  lemma {:induction false} WonSticks(a: seq<Stage>, mapping: map<Stage, Canonical>, current: Stage)
    requires Rollup(a, mapping, current) == Won
    ensures (forall more: seq<Stage> :: Rollup(a + more, mapping, current) == Won)
            <==> Reaches(a, mapping, Won) || Qualified !in mapping.Values
  {
    ReachedExact(a, mapping, Won);
    forall more: seq<Stage> | Reaches(a, mapping, Won) || Qualified !in mapping.Values
      ensures Rollup(a + more, mapping, current) == Won
    {
      ReachedExact(a + more, mapping, Won);
      ReachedExact(a + more, mapping, Qualified);
      if Reaches(a, mapping, Won) {
        var s :| s in a && s in mapping && mapping[s] == Won;
        assert s in a + more;
      }
    }
    if !Reaches(a, mapping, Won) && Qualified in mapping.Values {
      var q :| q in mapping && mapping[q] == Qualified;
      var more := [q];
      assert forall s :: s in a + more ==> s in a || s == q;
      ReachedExact(a + more, mapping, Won);
      ReachedExact(a + more, mapping, Qualified);
      assert q in a + more;
      assert Rollup(a + more, mapping, current) != Won;
    }
  }

  /** A history that holds the current stage, as every stored one does, keeps a win for good. */
  lemma {:induction false} WonInHistorySticks(a: seq<Stage>, more: seq<Stage>, mapping: map<Stage, Canonical>, current: Stage)
    requires current in a && Rollup(a, mapping, current) == Won
    ensures Rollup(a + more, mapping, current) == Won
  {
    ReachedExact(a, mapping, Won);
    assert Reaches(a, mapping, Won);
    WonSticks(a, mapping, current);
  }
}
