/**
 * The rows of the cohort report: what each week holds, in terms of the rows the queries return
 * (apps/api/src/metrics/metrics.service.ts).
 */
module CohortWeeks {
  import opened Common
  import opened Accumulators
  import opened MetricsData
  import opened Cohorts
  import M = Matching
  import C = CrmSync
  import L = PerformanceLaws
  import A = AdRows
  import Canon = CanonicalStatus
  import R = Reconciliation

  // ---- What a week should hold ----

  function LeadsOfWeek(leads: seq<M.Lead>, w: int): seq<M.Lead> {
    Filter(leads, (l: M.Lead) => MondayOf(l.createdAt) == w)
  }

  function InsightsOfWeek(rows: seq<Insight>, w: int): seq<Insight> {
    Filter(rows, (r: Insight) => MondayOf(r.date) == w)
  }

  predicate IsDealOf(contacts: seq<ContactId>, d: C.Deal) {
    d.contactId.Some? && d.contactId.value in contacts
  }

  function DealsOfContacts(deals: seq<C.Deal>, contacts: seq<ContactId>): seq<C.Deal> {
    Filter(deals, (d: C.Deal) => IsDealOf(contacts, d))
  }

  predicate HasWon(d: C.Deal) {
    d.canonical == Canon.Won && d.contactId.Some?
  }

  /** Each insight's spend at the rate in force for its own currency. */
  function SpendOf(sc: Scope, rows: seq<Insight>): real {
    if |rows| == 0 then 0.0 else SpendOf(sc, Front(rows)) + Last(rows).spend * Rate(sc, Last(rows).currency)
  }

  function QualifiedOf(contacts: seq<ContactId>, deals: seq<C.Deal>): seq<ContactId> {
    Filter(contacts, (c: ContactId) => c in QualifiedContacts(deals))
  }

  /** A lead or an insight of the report falls in week w. */
  predicate Busy(q: Rows, w: int) {
    LeadsOfWeek(q.leads, w) != [] || InsightsOfWeek(q.insights, w) != []
  }

  /** The week's leads and spend, and the qualified contacts, sales and revenue of the contacts whose first week it is. */
  ghost function WeekTotals(sc: Scope, q: Rows, w: int): Totals {
    var contacts := ContactsOfWeek(VintagesOf(q.leads), w);
    var wins := Filter(DealsOfContacts(q.deals, contacts), HasWon);
    Totals(SpendOf(sc, InsightsOfWeek(q.insights, w)), 0, 0, |LeadsOfWeek(q.leads, w)|,
           |QualifiedOf(contacts, q.deals)|, |wins|, A.Revenue(sc, wins))
  }

  // ---- One week of each of the three loops ----

  function LeadEntries(leads: seq<M.Lead>): seq<Entry<int>> {
    seq(|leads|, i requires 0 <= i < |leads| => Entry(MondayOf(leads[i].createdAt), ZERO.(leads := 1)))
  }

  lemma {:induction false} LeadsAreEntries(weeks: Weeks, leads: seq<M.Lead>)
    ensures CountLeads(weeks, leads) == AddAll(weeks, LeadEntries(leads))
  {
    if |leads| > 0 {
      LeadsAreEntries(weeks, Front(leads));
      assert Front(LeadEntries(leads)) == LeadEntries(Front(leads));
    }
  }

  lemma {:induction false} LeadsOfOneWeek(leads: seq<M.Lead>, w: int)
    ensures SumFor(LeadEntries(leads), w) == LeadCount(|LeadsOfWeek(leads, w)|)
    ensures HasEntry(LeadEntries(leads), w) <==> LeadsOfWeek(leads, w) != []
  {
    if |leads| > 0 {
      LeadsOfOneWeek(Front(leads), w);
      assert Front(LeadEntries(leads)) == LeadEntries(Front(leads));
      HasEntrySnoc(LeadEntries(leads), w);
    }
  }

  function ContactEntries(v: Vintages, order: seq<ContactId>, qualified: set<ContactId>, won: Wins): seq<Entry<int>>
    requires forall i :: 0 <= i < |order| ==> order[i] in v.week
  {
    seq(|order|, i requires 0 <= i < |order| => Entry(v.week[order[i]], ContactDelta(order[i], qualified, won)))
  }

  lemma {:induction false} ContactsAreEntries(weeks: Weeks, v: Vintages, order: seq<ContactId>, qualified: set<ContactId>, won: Wins)
    requires forall c :: c in order ==> c in v.week
    requires forall i :: 0 <= i < |order| ==> order[i] in v.week
    ensures CountContacts(weeks, v.week, order, qualified, won) == AddAll(weeks, ContactEntries(v, order, qualified, won))
  {
    if |order| > 0 {
      assert order == Front(order) + [Last(order)];
      ContactsAreEntries(weeks, v, Front(order), qualified, won);
      assert Front(ContactEntries(v, order, qualified, won)) == ContactEntries(v, Front(order), qualified, won);
    }
  }

  lemma {:induction false} ContactSumSnoc(order: seq<ContactId>, c: ContactId, qualified: set<ContactId>, won: Wins)
    ensures ContactSum(order + [c], qualified, won) == Plus(ContactSum(order, qualified, won), ContactDelta(c, qualified, won))
  {
    assert Front(order + [c]) == order;
  }

  lemma {:induction false} ContactsOfOneWeek(v: Vintages, order: seq<ContactId>, qualified: set<ContactId>, won: Wins, w: int)
    requires forall i :: 0 <= i < |order| ==> order[i] in v.week
    ensures SumFor(ContactEntries(v, order, qualified, won), w)
         == ContactSum(Filter(order, (c: ContactId) => InWeek(v, c, w)), qualified, won)
  {
    if |order| > 0 {
      var front, c, es := Front(order), Last(order), ContactEntries(v, order, qualified, won);
      ContactsOfOneWeek(v, front, qualified, won, w);
      assert Front(es) == ContactEntries(v, front, qualified, won) && Last(es).key == v.week[c];
      var own := Filter(front, (c: ContactId) => InWeek(v, c, w));
      if InWeek(v, c, w) {
        ContactSumSnoc(own, c, qualified, won);
        assert Filter(order, (c: ContactId) => InWeek(v, c, w)) == own + [c];
      } else {
        assert Filter(order, (c: ContactId) => InWeek(v, c, w)) == own;
      }
    }
  }

  lemma {:induction false} ContactsHitWeeks(v: Vintages, order: seq<ContactId>, qualified: set<ContactId>, won: Wins, w: int)
    requires forall i :: 0 <= i < |order| ==> order[i] in v.week
    requires HasEntry(ContactEntries(v, order, qualified, won), w)
    ensures Filter(order, (c: ContactId) => InWeek(v, c, w)) != []
  {
    var i :| 0 <= i < |order| && v.week[order[i]] == w;
    assert order[i] in Filter(order, (c: ContactId) => InWeek(v, c, w));
  }

  function SpendEntries(sc: Scope, rows: seq<Insight>): seq<Entry<int>> {
    seq(|rows|, i requires 0 <= i < |rows| => Entry(MondayOf(rows[i].date), SpendDelta(sc, rows[i])))
  }

  lemma {:induction false} SpendIsEntries(sc: Scope, weeks: Weeks, rows: seq<Insight>)
    ensures CountSpend(sc, weeks, rows) == AddAll(weeks, SpendEntries(sc, rows))
  {
    if |rows| > 0 {
      SpendIsEntries(sc, weeks, Front(rows));
      assert Front(SpendEntries(sc, rows)) == SpendEntries(sc, Front(rows));
    }
  }

  lemma {:induction false} SpendSumSnoc(sc: Scope, rows: seq<Insight>, r: Insight)
    ensures SpendSum(sc, rows + [r]) == Plus(SpendSum(sc, rows), SpendDelta(sc, r))
  {
    assert Front(rows + [r]) == rows;
  }

  lemma {:induction false} SpendOfOneWeek(sc: Scope, rows: seq<Insight>, w: int)
    ensures SumFor(SpendEntries(sc, rows), w) == SpendSum(sc, InsightsOfWeek(rows, w))
    ensures HasEntry(SpendEntries(sc, rows), w) <==> InsightsOfWeek(rows, w) != []
  {
    if |rows| > 0 {
      var es := SpendEntries(sc, rows);
      SpendOfOneWeek(sc, Front(rows), w);
      assert Front(es) == SpendEntries(sc, Front(rows));
      HasEntrySnoc(es, w);
      SpendSumSnoc(sc, InsightsOfWeek(Front(rows), w), Last(rows));
    }
  }

  // ---- The outcome of a week's contacts ----

  lemma {:induction false} QualifiedCounted(order: seq<ContactId>, qualified: set<ContactId>, won: Wins)
    ensures ContactSum(order, qualified, won).qualified == |Filter(order, (c: ContactId) => c in qualified)|
  {
    if |order| > 0 { QualifiedCounted(Front(order), qualified, won); }
  }

  /** A contact's wins are read off its own deals. */
  lemma {:induction false} WinsOfOwnDeals(sc: Scope, deals: seq<C.Deal>, contacts: seq<ContactId>, c: ContactId)
    requires c in contacts
    ensures WinsOfContact(WinsOf(sc, deals), c) == WinsOfContact(WinsOf(sc, DealsOfContacts(deals, contacts)), c)
  {
    if |deals| > 0 {
      WinsOfOwnDeals(sc, Front(deals), contacts, c);
      R.AddWinExact(sc, WinsOf(sc, Front(deals)), Last(deals), c);
      var kept := DealsOfContacts(Front(deals), contacts);
      assert Front(kept + [Last(deals)]) == kept;
      R.AddWinExact(sc, WinsOf(sc, kept), Last(deals), c);
    }
  }

  lemma {:induction false} ContactSumOfOwnDeals(sc: Scope, order: seq<ContactId>, qualified: set<ContactId>, deals: seq<C.Deal>,
                                                contacts: seq<ContactId>)
    requires forall c :: c in order ==> c in contacts
    ensures ContactSum(order, qualified, WinsOf(sc, deals))
         == ContactSum(order, qualified, WinsOf(sc, DealsOfContacts(deals, contacts)))
  {
    if |order| > 0 {
      assert order == Front(order) + [Last(order)];
      ContactSumOfOwnDeals(sc, Front(order), qualified, deals, contacts);
      WinsOfOwnDeals(sc, deals, contacts, Last(order));
    }
  }

  lemma {:induction false} WonTotalOfWins(sc: Scope, deals: seq<C.Deal>)
    ensures L.WonTotal(sc, deals).revenue == A.Revenue(sc, Filter(deals, HasWon))
    ensures L.WonTotal(sc, deals).sales == |Filter(deals, HasWon)|
  {
    if |deals| > 0 {
      WonTotalOfWins(sc, Front(deals));
      var wins := Filter(Front(deals), HasWon);
      assert Front(wins + [Last(deals)]) == wins;
      RevenueIsWorth(sc, Last(deals));
    }
  }

  /** The contacts' summed outcome, as counts of contacts and of won deals. */
  lemma {:induction false} OutcomeOfContacts(sc: Scope, deals: seq<C.Deal>, contacts: seq<ContactId>)
    requires Distinct(contacts)
    ensures var sum, wins := ContactSum(contacts, QualifiedContacts(deals), WinsOf(sc, deals)),
                             Filter(DealsOfContacts(deals, contacts), HasWon);
            sum == Totals(0.0, 0, 0, 0, |QualifiedOf(contacts, deals)|, |wins|, A.Revenue(sc, wins))
  {
    var own, qualified := DealsOfContacts(deals, contacts), QualifiedContacts(deals);
    ContactSumOfOwnDeals(sc, contacts, qualified, deals, contacts);
    R.WinsPerContact(sc, contacts, own);
    R.ContactSumIsWins(contacts, contacts, qualified, WinsOf(sc, own));
    QualifiedCounted(contacts, qualified, WinsOf(sc, own));
    WonTotalOfWins(sc, own);
    NoImpressions(contacts, qualified, WinsOf(sc, own));
  }

  lemma {:induction false} NoImpressions(order: seq<ContactId>, qualified: set<ContactId>, won: Wins)
    ensures ContactSum(order, qualified, won).impressions == ContactSum(order, qualified, won).clicks == 0
  {
    if |order| > 0 { NoImpressions(Front(order), qualified, won); }
  }

  lemma {:induction false} OnlySpend(sc: Scope, rows: seq<Insight>)
    ensures SpendSum(sc, rows) == ZERO.(spend := SpendOf(sc, rows))
  {
    if |rows| > 0 {
      OnlySpend(sc, Front(rows));
      ConvertIsLinear(sc, Last(rows).spend, 0.0, Last(rows).currency);
    }
  }

  // ---- The rows ----

  /** The row is the sum of the three loops' parts. */
  lemma {:induction false} RowOfParts(sc: Scope, q: Rows, v: Vintages, w: int)
    requires v == VintagesOf(q.leads) && VintagesListed(v)
    ensures At(TableOf(sc, q), w)
         == Plus(Plus(LeadCount(|LeadsOfWeek(q.leads, w)|),
                      ContactSum(ContactsOfWeek(v, w), QualifiedContacts(q.deals), WinsOf(sc, q.deals))),
                 SpendSum(sc, InsightsOfWeek(q.insights, w)))
  {
    var qualified, won := QualifiedContacts(q.deals), WinsOf(sc, q.deals);
    assert forall i :: 0 <= i < |v.order| ==> v.order[i] in v.order;
    var leads, contacts := LeadEntries(q.leads), ContactEntries(v, v.order, qualified, won);
    TableIsEntries(sc, q, v);
    AllAdded(NO_WEEKS, leads, w);
    AllAdded(AddAll(NO_WEEKS, leads), contacts, w);
    AllAdded(AddAll(AddAll(NO_WEEKS, leads), contacts), SpendEntries(sc, q.insights), w);
    PlusZero(SumFor(leads, w));
    LeadsOfOneWeek(q.leads, w);
    ContactsOfOneWeek(v, v.order, qualified, won, w);
    SpendOfOneWeek(sc, q.insights, w);
  }

  lemma {:induction false} RowsOfTable(sc: Scope, q: Rows, w: int)
    requires SortedBy(q.leads, (l: M.Lead) => l.createdAt as real)
    ensures w in TableOf(sc, q).rows <==> Busy(q, w)
  {
    var v, qualified, won := VintagesOf(q.leads), QualifiedContacts(q.deals), WinsOf(sc, q.deals);
    VintagesAreListed(q.leads);
    assert forall i :: 0 <= i < |v.order| ==> v.order[i] in v.order;
    var leads, contacts := LeadEntries(q.leads), ContactEntries(v, v.order, qualified, won);
    TableIsEntries(sc, q, v);
    RowsAdded(NO_WEEKS, leads, w);
    RowsAdded(AddAll(NO_WEEKS, leads), contacts, w);
    RowsAdded(AddAll(AddAll(NO_WEEKS, leads), contacts), SpendEntries(sc, q.insights), w);
    LeadsOfOneWeek(q.leads, w);
    SpendOfOneWeek(sc, q.insights, w);
    if HasEntry(contacts, w) {
      ContactsHitWeeks(v, v.order, qualified, won, w);
      ContactWeeksAreLeadWeeks(q.leads, w);
    }
  }

  lemma {:induction false} RowIsWeek(sc: Scope, q: Rows, w: int)
    ensures At(TableOf(sc, q), w) == WeekTotals(sc, q, w)
  {
    var v := VintagesOf(q.leads);
    VintagesAreListed(q.leads);
    RowOfParts(sc, q, v, w);
    PartsAreWeek(sc, q, v, w);
  }

  lemma {:induction false} PartsAreWeek(sc: Scope, q: Rows, v: Vintages, w: int)
    requires v == VintagesOf(q.leads) && Distinct(v.order)
    ensures WeekTotals(sc, q, w)
         == Plus(Plus(LeadCount(|LeadsOfWeek(q.leads, w)|),
                      ContactSum(ContactsOfWeek(v, w), QualifiedContacts(q.deals), WinsOf(sc, q.deals))),
                 SpendSum(sc, InsightsOfWeek(q.insights, w)))
  {
    var contacts := ContactsOfWeek(v, w);
    FilterDistinct(v.order, (c: ContactId) => InWeek(v, c, w));
    OutcomeOfContacts(sc, q.deals, contacts);
    OnlySpend(sc, InsightsOfWeek(q.insights, w));
    AddParts(|LeadsOfWeek(q.leads, w)|, ContactSum(contacts, QualifiedContacts(q.deals), WinsOf(sc, q.deals)),
             SpendSum(sc, InsightsOfWeek(q.insights, w)));
  }

  lemma {:induction false} AddParts(n: nat, outcome: Totals, spend: Totals)
    requires outcome == Totals(0.0, 0, 0, 0, outcome.qualified, outcome.sales, outcome.revenue)
    requires spend == ZERO.(spend := spend.spend)
    ensures Plus(Plus(LeadCount(n), outcome), spend)
         == Totals(spend.spend, 0, 0, n, outcome.qualified, outcome.sales, outcome.revenue)
  {
  }

  lemma {:induction false} TableIsEntries(sc: Scope, q: Rows, v: Vintages)
    requires v == VintagesOf(q.leads) && VintagesListed(v)
    requires forall i :: 0 <= i < |v.order| ==> v.order[i] in v.week
    ensures TableOf(sc, q)
         == AddAll(AddAll(AddAll(NO_WEEKS, LeadEntries(q.leads)),
                          ContactEntries(v, v.order, QualifiedContacts(q.deals), WinsOf(sc, q.deals))),
                   SpendEntries(sc, q.insights))
  {
    var weeks1 := CountLeads(NO_WEEKS, q.leads);
    LeadsAreEntries(NO_WEEKS, q.leads);
    ContactsAreEntries(weeks1, v, v.order, QualifiedContacts(q.deals), WinsOf(sc, q.deals));
    SpendIsEntries(sc, CountContacts(weeks1, v.week, v.order, QualifiedContacts(q.deals), WinsOf(sc, q.deals)), q.insights);
  }

  lemma {:induction false} ContactWeeksAreLeadWeeks(leads: seq<M.Lead>, w: int)
    requires SortedBy(leads, (l: M.Lead) => l.createdAt as real)
    ensures ContactsOfWeek(VintagesOf(leads), w) != [] ==> LeadsOfWeek(leads, w) != []
  {
    var contacts := ContactsOfWeek(VintagesOf(leads), w);
    if contacts != [] {
      var c := contacts[0];
      assert c in contacts;
      VintageOfSorted(leads, c);
      var l :| EarliestOf(leads, c, l) && MondayOf(l.createdAt) == w;
      assert l in LeadsOfWeek(leads, w);
    }
  }

  /**
   * The row law: the table has a row for week w exactly if some lead or insight falls in w, and the row holds the
   * week's own leads and spend and the outcome of the contacts whose earliest lead falls in w.
   */
  lemma {:induction false} WeekRow(db: Db, range: Range, w: int)
    ensures var sc := ScopeOf(db, range);
            var q, weeks := QueryRows(sc, db), CohortTable(db, range);
            && (w in weeks.rows <==> Busy(q, w))
            && (w in weeks.rows ==> weeks.rows[w] == WeekTotals(sc, q, w))
  {
    var sc := ScopeOf(db, range);
    SortSorts(CohortRows(sc, db.leads), (l: M.Lead) => l.createdAt as real);
    RowsOfTable(sc, QueryRows(sc, db), w);
    RowIsWeek(sc, QueryRows(sc, db), w);
  }

  lemma {:induction false} SortedRowsList(weeks: Weeks)
    requires Listed(weeks)
    ensures var r := SortedRows(weeks);
            && (forall i :: 0 <= i < |r| ==> r[i].week in weeks.rows && r[i] == RowOf(r[i].week, weeks.rows[r[i].week]))
            && forall w :: w in weeks.rows ==> HasWeek(r, w)
  {
    SortSorts(weeks.order, WeekKey);
    var s, r := SortBy(weeks.order, WeekKey), SortedRows(weeks);
    assert r == RowsOf(weeks, s);
    assert forall i :: 0 <= i < |s| ==> s[i] in s && r[i] == RowOf(s[i], weeks.rows[s[i]]);
    forall w | w in weeks.rows
      ensures HasWeek(r, w)
    {
      var i :| 0 <= i < |s| && s[i] == w;
      assert r[i].week == w;
    }
  }

  ghost predicate HasWeek(r: seq<Row>, w: int) {
    exists i :: 0 <= i < |r| && r[i].week == w
  }

  /** The report lists exactly the busy weeks, each with the totals of that week. */
  lemma {:induction false} ReportedWeeks(db: Db, range: Range, w: int)
    ensures var sc := ScopeOf(db, range);
            var q, r := QueryRows(sc, db), Report(db, range);
            && (HasWeek(r, w) <==> Busy(q, w))
            && forall i :: 0 <= i < |r| && r[i].week == w ==> r[i] == RowOf(w, WeekTotals(sc, q, w))
  {
    TableSums(db, range);
    SortedRowsList(CohortTable(db, range));
    WeekRow(db, range, w);
  }
}
