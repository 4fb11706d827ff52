/**
 * The vintage cohort report (apps/api/src/metrics/metrics.service.ts): leads, outcomes and spend per week, each
 * contact belonging to the week of its earliest lead in the range.
 */
module Cohorts {
  import opened Common
  import opened Accumulators
  import opened MetricsData
  import M = Matching
  import D = MatchDecision
  import C = CrmSync
  import P = Performance

  /** Weeks by the day number of their Monday; impressions and clicks stay zero. */
  type Weeks = Table<int>

  /** The matched leads of the range, before they are sorted. */
  function CohortRows(sc: Scope, rows: seq<M.Lead>): seq<M.Lead> {
    Filter(rows, (l: M.Lead) => l.edge.status == D.Matched && sc.leadFrom <= l.createdAt <= sc.until)
  }

  function CohortLeads(sc: Scope, rows: seq<M.Lead>): seq<M.Lead> {
    SortBy(CohortRows(sc, rows), (l: M.Lead) => l.createdAt as real)
  }

  function CountLeads(weeks: Weeks, leads: seq<M.Lead>): Weeks {
    if |leads| == 0 then weeks
    else AddTo(CountLeads(weeks, Front(leads)), MondayOf(Last(leads).createdAt), ZERO.(leads := 1))
  }

  /** The contacts in order of first appearance, and each one's week. */
  datatype Vintages = Vintages(order: seq<ContactId>, week: map<ContactId, int>)

  function AddVintage(v: Vintages, l: M.Lead): Vintages {
    if l.contactId.Some? && l.contactId.value !in v.week
    then Vintages(v.order + [l.contactId.value], v.week[l.contactId.value := MondayOf(l.createdAt)])
    else v
  }

  function VintagesOf(leads: seq<M.Lead>): Vintages {
    if |leads| == 0 then Vintages([], map[]) else AddVintage(VintagesOf(Front(leads)), Last(leads))
  }

  /** Sales and revenue per contact. */
  type Wins = map<ContactId, Totals>

  function WinsOfContact(won: Wins, c: ContactId): Totals {
    if c in won then won[c] else ZERO
  }

  function AddWin(sc: Scope, won: Wins, d: C.Deal): Wins {
    if IsWon(d) then won[d.contactId.value := Plus(WinsOfContact(won, d.contactId.value), P.DealDelta(sc, d))] else won
  }

  function WinsOf(sc: Scope, deals: seq<C.Deal>): Wins {
    if |deals| == 0 then map[] else AddWin(sc, WinsOf(sc, Front(deals)), Last(deals))
  }

  function ContactDelta(c: ContactId, qualified: set<ContactId>, won: Wins): Totals {
    ZERO.(qualified := if c in qualified then 1 else 0,
          sales := WinsOfContact(won, c).sales, revenue := WinsOfContact(won, c).revenue)
  }

  ghost predicate VintagesListed(v: Vintages) {
    Distinct(v.order) && forall c :: c in v.order <==> c in v.week
  }

  function CountContacts(weeks: Weeks, week: map<ContactId, int>, order: seq<ContactId>, qualified: set<ContactId>, won: Wins): Weeks
    requires forall c :: c in order ==> c in week
  {
    if |order| == 0 then weeks
    else
      assert order == Front(order) + [Last(order)];
      AddTo(CountContacts(weeks, week, Front(order), qualified, won), week[Last(order)], ContactDelta(Last(order), qualified, won))
  }

  function SpendDelta(sc: Scope, r: Insight): Totals {
    ZERO.(spend := Convert(sc, r.spend, r.currency))
  }

  function CountSpend(sc: Scope, weeks: Weeks, rows: seq<Insight>): Weeks {
    if |rows| == 0 then weeks
    else AddTo(CountSpend(sc, weeks, Front(rows)), MondayOf(Last(rows).date), SpendDelta(sc, Last(rows)))
  }

  lemma {:induction false} VintagesAreListed(leads: seq<M.Lead>)
    ensures VintagesListed(VintagesOf(leads))
  {
    if |leads| > 0 { VintagesAreListed(Front(leads)); }
  }

  function ContactsIn(v: Vintages): set<ContactId> {
    set c | c in v.order
  }

  /** The rows the cohort queries return. */
  datatype Rows = Rows(leads: seq<M.Lead>, deals: seq<C.Deal>, insights: seq<Insight>)

  function QueryRows(sc: Scope, db: Db): Rows {
    var leads := CohortLeads(sc, db.leads);
    Rows(leads, DealsOf(sc, db.deals, ContactsIn(VintagesOf(leads))), InsightsInRange(sc, db.insights))
  }

  const NO_WEEKS: Weeks := Table([], map[])

  function TableOf(sc: Scope, q: Rows): Weeks {
    var v := VintagesOf(q.leads);
    VintagesAreListed(q.leads);
    CountSpend(sc, CountContacts(CountLeads(NO_WEEKS, q.leads), v.week, v.order, QualifiedContacts(q.deals), WinsOf(sc, q.deals)),
               q.insights)
  }

  /** The weekly rows before rounding. */
  function CohortTable(db: Db, range: Range): Weeks {
    var sc := ScopeOf(db, range);
    TableOf(sc, QueryRows(sc, db))
  }

  datatype Row = Row(week: int, totals: Totals, roas: Option<real>)

  /** A week as reported: money rounded, return on spend taken before rounding. */
  function RowOf(week: int, t: Totals): Row {
    Row(week, Rounded(t), if t.spend != 0.0 then Some(t.revenue / t.spend) else None)
  }

  function WeekKey(week: int): real { week as real }

  function RowsOf(weeks: Weeks, order: seq<int>): (r: seq<Row>)
    requires forall w :: w in order ==> w in weeks.rows
    ensures |r| == |order|
    ensures forall i :: 0 <= i < |order| ==> r[i] == RowOf(order[i], weeks.rows[order[i]])
  {
    seq(|order|, i requires 0 <= i < |order| =>
      assert order[i] in order;
      RowOf(order[i], weeks.rows[order[i]]))
  }

  function SortedRows(weeks: Weeks): seq<Row>
    requires forall w :: w in weeks.order ==> w in weeks.rows
  {
    SortSorts(weeks.order, WeekKey);
    RowsOf(weeks, SortBy(weeks.order, WeekKey))
  }

  function Report(db: Db, range: Range): seq<Row> {
    TableSums(db, range);
    SortedRows(CohortTable(db, range))
  }

  // ---- What the table adds up to ----

  ghost function Total<K(!new)>(t: Table<K>): Totals
    requires Listed(t)
  {
    SumOver(t.order, t.rows)
  }

  function LeadCount(n: nat): Totals {
    ZERO.(leads := n)
  }

  function ContactSum(order: seq<ContactId>, qualified: set<ContactId>, won: Wins): Totals {
    if |order| == 0 then ZERO
    else Plus(ContactSum(Front(order), qualified, won), ContactDelta(Last(order), qualified, won))
  }

  function SpendSum(sc: Scope, rows: seq<Insight>): Totals {
    if |rows| == 0 then ZERO else Plus(SpendSum(sc, Front(rows)), SpendDelta(sc, Last(rows)))
  }

  /** t1 is a table that adds d to t. */
  ghost predicate Gains<K(!new)>(t: Table<K>, t1: Table<K>, d: Totals) {
    Listed(t) && Listed(t1) && Total(t1) == Plus(Total(t), d)
  }

  lemma {:induction false} GainsMore<K(!new)>(t: Table<K>, t1: Table<K>, k: K, d: Totals, e: Totals)
    requires Gains(t, t1, d)
    ensures Gains(t, AddTo(t1, k, e), Plus(d, e))
  {
    AddToAdds(t1, k, e);
    PlusAssoc(Total(t), d, e);
  }

  lemma {:induction false} GainsNothing<K(!new)>(t: Table<K>)
    requires Listed(t)
    ensures Gains(t, t, ZERO)
  {
    PlusZero(Total(t));
  }

  lemma {:induction false} LeadsGain(weeks: Weeks, leads: seq<M.Lead>)
    requires Listed(weeks)
    ensures Gains(weeks, CountLeads(weeks, leads), LeadCount(|leads|))
  {
    if |leads| == 0 {
      GainsNothing(weeks);
    } else {
      LeadsGain(weeks, Front(leads));
      GainsMore(weeks, CountLeads(weeks, Front(leads)), MondayOf(Last(leads).createdAt), LeadCount(|leads| - 1), ZERO.(leads := 1));
      assert Plus(LeadCount(|leads| - 1), ZERO.(leads := 1)) == LeadCount(|leads|);
    }
  }

  lemma {:induction false} ContactsGain(weeks: Weeks, week: map<ContactId, int>, order: seq<ContactId>, qualified: set<ContactId>, won: Wins)
    requires Listed(weeks) && forall c :: c in order ==> c in week
    ensures Gains(weeks, CountContacts(weeks, week, order, qualified, won), ContactSum(order, qualified, won))
  {
    if |order| == 0 {
      GainsNothing(weeks);
    } else {
      assert order == Front(order) + [Last(order)];
      ContactsGain(weeks, week, Front(order), qualified, won);
      GainsMore(weeks, CountContacts(weeks, week, Front(order), qualified, won), week[Last(order)],
                ContactSum(Front(order), qualified, won), ContactDelta(Last(order), qualified, won));
    }
  }

  lemma {:induction false} SpendGains(sc: Scope, weeks: Weeks, rows: seq<Insight>)
    requires Listed(weeks)
    ensures Gains(weeks, CountSpend(sc, weeks, rows), SpendSum(sc, rows))
  {
    if |rows| == 0 {
      GainsNothing(weeks);
    } else {
      SpendGains(sc, weeks, Front(rows));
      GainsMore(weeks, CountSpend(sc, weeks, Front(rows)), MondayOf(Last(rows).date), SpendSum(sc, Front(rows)),
                SpendDelta(sc, Last(rows)));
    }
  }

  ghost function CohortTotal(sc: Scope, q: Rows): Totals {
    Plus(Plus(LeadCount(|q.leads|), ContactSum(VintagesOf(q.leads).order, QualifiedContacts(q.deals), WinsOf(sc, q.deals))),
         SpendSum(sc, q.insights))
  }

  /** The weeks together hold every lead once, every contact's outcome once and every insight's spend once. */
  lemma {:induction false} TableSums(db: Db, range: Range)
    ensures var sc := ScopeOf(db, range);
            Listed(CohortTable(db, range)) && Total(CohortTable(db, range)) == CohortTotal(sc, QueryRows(sc, db))
  {
    var sc := ScopeOf(db, range);
    var q := QueryRows(sc, db);
    var v := VintagesOf(q.leads);
    VintagesAreListed(q.leads);
    var weeks1 := CountLeads(NO_WEEKS, q.leads);
    var weeks2 := CountContacts(weeks1, v.week, v.order, QualifiedContacts(q.deals), WinsOf(sc, q.deals));
    LeadsGain(NO_WEEKS, q.leads);
    ContactsGain(weeks1, v.week, v.order, QualifiedContacts(q.deals), WinsOf(sc, q.deals));
    SpendGains(sc, weeks2, q.insights);
    PlusZero(LeadCount(|q.leads|));
  }

  // ---- Weeks and vintages ----

  ghost predicate EarliestOf(leads: seq<M.Lead>, c: ContactId, l: M.Lead) {
    l in leads && l.contactId == Some(c) && forall o :: o in leads && o.contactId == Some(c) ==> l.createdAt <= o.createdAt
  }

  /** week is that of c's earliest lead, and there is one exactly when c has a lead. */
  ghost predicate VintageExact(leads: seq<M.Lead>, c: ContactId, week: Option<int>) {
    && (week.Some? <==> exists l :: l in leads && l.contactId == Some(c))
    && (week.Some? ==> exists l :: EarliestOf(leads, c, l) && week == Some(MondayOf(l.createdAt)))
  }

  function WeekOf(v: Vintages, c: ContactId): Option<int> {
    if c in v.week then Some(v.week[c]) else None
  }

  lemma {:induction false} VintageOfSorted(leads: seq<M.Lead>, c: ContactId)
    requires SortedBy(leads, (l: M.Lead) => l.createdAt as real)
    ensures VintageExact(leads, c, WeekOf(VintagesOf(leads), c))
  {
    if |leads| > 0 {
      var before := WeekOf(VintagesOf(Front(leads)), c);
      LastIsYoungest(leads);
      VintageOfSorted(Front(leads), c);
      if Last(leads).contactId == Some(c) && before.None? {
        VintageBegins(leads, c);
      } else {
        VintageStays(leads, c, before);
      }
    }
  }

  lemma {:induction false} LastIsYoungest(leads: seq<M.Lead>)
    requires |leads| > 0 && SortedBy(leads, (l: M.Lead) => l.createdAt as real)
    ensures SortedBy(Front(leads), (l: M.Lead) => l.createdAt as real)
    ensures forall o :: o in Front(leads) ==> o in leads && o.createdAt <= Last(leads).createdAt
  {
    forall o | o in Front(leads)
      ensures o in leads && o.createdAt <= Last(leads).createdAt
    {
      LastIsGreatest(leads, (l: M.Lead) => l.createdAt as real, o);
    }
  }

  lemma {:induction false} VintageBegins(leads: seq<M.Lead>, c: ContactId)
    requires |leads| > 0 && Last(leads).contactId == Some(c) && VintageExact(Front(leads), c, None)
    ensures VintageExact(leads, c, Some(MondayOf(Last(leads).createdAt)))
  {
    assert leads == Front(leads) + [Last(leads)];
    assert EarliestOf(leads, c, Last(leads));
  }

  lemma {:induction false} VintageStays(leads: seq<M.Lead>, c: ContactId, week: Option<int>)
    requires |leads| > 0 && VintageExact(Front(leads), c, week) && (week.Some? || Last(leads).contactId != Some(c))
    requires forall o :: o in Front(leads) ==> o.createdAt <= Last(leads).createdAt
    ensures VintageExact(leads, c, week)
  {
    assert leads == Front(leads) + [Last(leads)];
    if week.Some? {
      var l :| EarliestOf(Front(leads), c, l) && week == Some(MondayOf(l.createdAt));
      assert EarliestOf(leads, c, l);
    }
  }

  predicate InWeek(v: Vintages, c: ContactId, w: int) {
    c in v.week && v.week[c] == w
  }

  /** The contacts whose outcome the report counts in week w. */
  function ContactsOfWeek(v: Vintages, w: int): seq<ContactId> {
    Filter(v.order, (c: ContactId) => InWeek(v, c, w))
  }

  /**
   * A contact counts in week w exactly if its earliest lead in the range falls in w, and it counts there once.
   * Each contact with a lead in the range has such a lead, and so exactly one week.
   */
  lemma {:induction false} OneWeekPerContact(db: Db, range: Range, c: ContactId, w: int)
    ensures var leads := CohortLeads(ScopeOf(db, range), db.leads);
            var v := VintagesOf(leads);
            && Distinct(ContactsOfWeek(v, w))
            && (c in ContactsOfWeek(v, w) <==> exists l :: EarliestOf(leads, c, l) && MondayOf(l.createdAt) == w)
            && (c in v.order <==> exists l :: l in leads && l.contactId == Some(c))
            && ((exists l :: l in leads && l.contactId == Some(c)) ==> exists l :: EarliestOf(leads, c, l))
            && VintagesListed(v)
  {
    var sc := ScopeOf(db, range);
    var leads := CohortLeads(sc, db.leads);
    SortSorts(CohortRows(sc, db.leads), (l: M.Lead) => l.createdAt as real);
    WeekOfContact(leads, c, w);
  }

  lemma {:induction false} WeekOfContact(leads: seq<M.Lead>, c: ContactId, w: int)
    requires SortedBy(leads, (l: M.Lead) => l.createdAt as real)
    ensures var v := VintagesOf(leads);
            && Distinct(ContactsOfWeek(v, w))
            && (c in ContactsOfWeek(v, w) <==> exists l :: EarliestOf(leads, c, l) && MondayOf(l.createdAt) == w)
            && (c in v.order <==> exists l :: l in leads && l.contactId == Some(c))
            && ((exists l :: l in leads && l.contactId == Some(c)) ==> exists l :: EarliestOf(leads, c, l))
            && VintagesListed(v)
  {
    var v := VintagesOf(leads);
    VintagesAreListed(leads);
    VintageOfSorted(leads, c);
    FilterDistinct(v.order, (x: ContactId) => InWeek(v, x, w));
    assert c in ContactsOfWeek(v, w) <==> c in v.order && InWeek(v, c, w);
    if c in v.week {
      var first :| EarliestOf(leads, c, first) && v.week[c] == MondayOf(first.createdAt);
      forall l | EarliestOf(leads, c, l)
        ensures l.createdAt == first.createdAt
      {
      }
    }
  }

  lemma {:induction false} SortedDistinct(keys: seq<int>)
    requires Distinct(keys)
    ensures var s := SortBy(keys, WeekKey); forall i, j :: 0 <= i < j < |s| ==> s[i] < s[j]
  {
    var s := SortBy(keys, WeekKey);
    SortSorts(keys, WeekKey);
    forall i, j | 0 <= i < j < |s|
      ensures s[i] < s[j]
    {
      assert WeekKey(s[i]) <= WeekKey(s[j]);
      SortKeepsDistinct(keys);
    }
  }

  lemma {:induction false} SortKeepsDistinct(keys: seq<int>)
    requires Distinct(keys)
    ensures Distinct(SortBy(keys, WeekKey))
  {
    if |keys| > 0 {
      SortKeepsDistinct(Front(keys));
      SortSorts(Front(keys), WeekKey);
      assert Last(keys) !in Front(keys);
      InsertKeepsDistinct(SortBy(Front(keys), WeekKey), Last(keys));
    }
  }

  lemma {:induction false} InsertKeepsDistinct(keys: seq<int>, x: int)
    requires Distinct(keys) && x !in keys
    ensures Distinct(InsertBy(keys, x, WeekKey))
  {
    if !(|keys| == 0 || WeekKey(Last(keys)) <= WeekKey(x)) {
      assert keys == Front(keys) + [Last(keys)];
      InsertKeepsDistinct(Front(keys), x);
      InsertPermutes(Front(keys), x, WeekKey);
    }
  }

  lemma {:induction false} SortedRowsIncrease(weeks: Weeks)
    requires Listed(weeks)
    ensures var r := SortedRows(weeks); forall i, j :: 0 <= i < j < |r| ==> r[i].week < r[j].week
  {
    SortedDistinct(weeks.order);
    var s, r := SortBy(weeks.order, WeekKey), SortedRows(weeks);
    SortSorts(weeks.order, WeekKey);
    assert r == RowsOf(weeks, s);
    assert forall i :: 0 <= i < |s| ==> r[i].week == s[i];
  }

  /** The reported weeks are strictly increasing. */
  lemma {:induction false} WeeksIncrease(db: Db, range: Range)
    ensures var r := Report(db, range); forall i, j :: 0 <= i < j < |r| ==> r[i].week < r[j].week
  {
    TableSums(db, range);
    SortedRowsIncrease(CohortTable(db, range));
  }

  /** The reported weeks hold all the table's totals. */
  lemma {:induction false} ReportKeepsTotal(db: Db, range: Range)
    ensures var weeks := CohortTable(db, range);
            && Listed(weeks)
            && (forall w :: w in SortBy(weeks.order, WeekKey) ==> w in weeks.rows)
            && SumOver(SortBy(weeks.order, WeekKey), weeks.rows) == Total(weeks)
  {
    TableSums(db, range);
    SumSorted(CohortTable(db, range).order, WeekKey, CohortTable(db, range).rows);
  }
}
