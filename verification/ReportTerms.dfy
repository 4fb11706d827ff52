/**
 * What the reports' queries, names and tags mean in terms of the tables alone: calendar days, connection dates,
 * the ads' own rows (apps/api/src/metrics/metrics.service.ts).
 */
module ReportTerms {
  import opened Common
  import opened Accumulators
  import opened MetricsData
  import M = Matching
  import D = MatchDecision
  import C = CrmSync
  import P = Performance
  import H = Cohorts
  import I = CreativeInsights

  // ---- Days ----

  /** The platform was connected on or before the day of this instant, or never. */
  ghost predicate Since(dates: seq<Instant>, at: Instant) {
    |dates| == 0 || exists i :: 0 <= i < |dates| && DayOf(dates[i]) <= DayOf(at)
  }

  predicate InDays(range: Range, at: Instant) {
    range.from <= DayOf(at) <= range.to
  }

  lemma {:induction false} EarliestExact(dates: seq<Instant>)
    ensures Earliest(dates).None? <==> |dates| == 0
    ensures Earliest(dates).Some? ==> exists i :: 0 <= i < |dates| && dates[i] == Earliest(dates).value
    ensures Earliest(dates).Some? ==> forall i :: 0 <= i < |dates| ==> Earliest(dates).value <= dates[i]
  {
    if |dates| > 0 {
      EarliestExact(Front(dates));
      assert forall i :: 0 <= i < |dates| - 1 ==> dates[i] == Front(dates)[i];
      assert Last(dates) == dates[|dates| - 1];
    }
  }

  lemma {:induction false} DayOrder(a: Instant, b: Instant)
    ensures Midnight(a) <= b <==> DayOf(a) <= DayOf(b)
    ensures a <= b ==> DayOf(a) <= DayOf(b)
    ensures forall d: int :: d * DAY <= a <==> d <= DayOf(a)
  {
  }

  /** The floor is the day of the earliest connection. */
  lemma {:induction false} FloorExact(dates: seq<Instant>, at: Instant)
    ensures NotBefore(FloorOf(dates), at) <==> Since(dates, at)
  {
    EarliestExact(dates);
    if |dates| > 0 {
      var first := Earliest(dates).value;
      DayOrder(first, at);
      if i :| 0 <= i < |dates| && DayOf(dates[i]) <= DayOf(at) {
        DayOrder(first, dates[i]);
      }
    }
  }

  /** A range counts the days from its first to its last, both whole, but none before the connection. */
  lemma {:induction false} RangeExact(range: Range, dates: seq<Instant>, at: Instant)
    ensures LaterOf(StartOf(range), FloorOf(dates)) <= at <= EndOf(range) <==> InDays(range, at) && Since(dates, at)
  {
    FloorExact(dates, at);
    DayOrder(at, at);
  }

  // ---- The rows of the reports ----

  ghost predicate IsLeadRow(db: Db, range: Range, l: M.Lead) {
    l.edge.status == D.Matched && InDays(range, l.createdAt) && Since(db.crmDates, l.createdAt)
  }

  ghost predicate IsInsightRow(db: Db, range: Range, r: Insight) {
    InDays(range, r.date) && Since(db.accountDates, r.date)
  }

  /** A matched lead with an ad and a contact, whatever the range. */
  ghost predicate IsTouchRow(db: Db, l: M.Lead) {
    l.edge.status == D.Matched && l.edge.adId.Some? && l.contactId.Some? && Since(db.crmDates, l.createdAt)
  }

  /** A deal since the connection of a contact that has one of these leads. */
  ghost predicate IsDealRow(db: Db, leads: seq<M.Lead>, d: C.Deal) {
    d.contactId.Some? && (exists l :: l in leads && l.contactId == d.contactId) && Since(db.crmDates, d.createdAt)
  }

  lemma {:induction false} InsightRows(db: Db, range: Range)
    ensures InsightsInRange(ScopeOf(db, range), db.insights) == Filter(db.insights, (r: Insight) => IsInsightRow(db, range, r))
  {
    var sc := ScopeOf(db, range);
    forall r: Insight
      ensures (sc.spendFrom <= r.date <= sc.until) == IsInsightRow(db, range, r)
    {
      RangeExact(range, db.accountDates, r.date);
    }
    FilterSame(db.insights, (r: Insight) => sc.spendFrom <= r.date <= sc.until, (r: Insight) => IsInsightRow(db, range, r));
  }

  lemma {:induction false} DealRows(db: Db, range: Range, leads: seq<M.Lead>, contacts: set<ContactId>)
    requires forall c :: c in contacts <==> exists l :: l in leads && l.contactId == Some(c)
    ensures DealsOf(ScopeOf(db, range), db.deals, contacts) == Filter(db.deals, (d: C.Deal) => IsDealRow(db, leads, d))
  {
    var sc := ScopeOf(db, range);
    var p := (d: C.Deal) => d.contactId.Some? && d.contactId.value in contacts && NotBefore(sc.crmFloor, d.createdAt);
    forall d: C.Deal
      ensures p(d) == IsDealRow(db, leads, d)
    {
      FloorExact(db.crmDates, d.createdAt);
    }
    FilterSame(db.deals, p, (d: C.Deal) => IsDealRow(db, leads, d));
    FirstIsMember(Filter(db.deals, p));
  }

  lemma {:induction false} LeadRows(db: Db, range: Range)
    ensures var sc := ScopeOf(db, range);
            && LeadsInRange(sc, db.leads) == Filter(db.leads, (l: M.Lead) => IsLeadRow(db, range, l) && l.edge.adId.Some?)
            && H.CohortRows(sc, db.leads) == Filter(db.leads, (l: M.Lead) => IsLeadRow(db, range, l))
  {
    var sc := ScopeOf(db, range);
    forall l: M.Lead
      ensures (sc.leadFrom <= l.createdAt <= sc.until) == (InDays(range, l.createdAt) && Since(db.crmDates, l.createdAt))
    {
      RangeExact(range, db.crmDates, l.createdAt);
    }
    FilterSame(db.leads, (l: M.Lead) => Attributed(l) && sc.leadFrom <= l.createdAt <= sc.until,
               (l: M.Lead) => IsLeadRow(db, range, l) && l.edge.adId.Some?);
    FilterSame(db.leads, (l: M.Lead) => l.edge.status == D.Matched && sc.leadFrom <= l.createdAt <= sc.until,
               (l: M.Lead) => IsLeadRow(db, range, l));
  }

  ghost predicate OldestFirst(leads: seq<M.Lead>) {
    forall i, j :: 0 <= i < j < |leads| ==> leads[i].createdAt <= leads[j].createdAt
  }

  lemma {:induction false} SortedByAge(leads: seq<M.Lead>)
    ensures var r := SortBy(leads, (l: M.Lead) => l.createdAt as real);
            OldestFirst(r) && multiset(r) == multiset(leads) && forall l :: l in r <==> l in leads
  {
    var key := (l: M.Lead) => l.createdAt as real;
    SortSorts(leads, key);
    var r := SortBy(leads, key);
    assert forall i, j :: 0 <= i < j < |r| ==> key(r[i]) <= key(r[j]);
  }

  lemma {:induction false} TouchRows(db: Db, range: Range)
    ensures var touches := TouchLeads(ScopeOf(db, range), db.leads);
            OldestFirst(touches) && multiset(touches) == multiset(Filter(db.leads, (l: M.Lead) => IsTouchRow(db, l)))
  {
    var sc := ScopeOf(db, range);
    var p := (l: M.Lead) => Attributed(l) && l.contactId.Some? && NotBefore(sc.crmFloor, l.createdAt);
    forall l: M.Lead
      ensures p(l) == IsTouchRow(db, l)
    {
      FloorExact(db.crmDates, l.createdAt);
    }
    FilterSame(db.leads, p, (l: M.Lead) => IsTouchRow(db, l));
    SortedByAge(Filter(db.leads, p));
  }

  /** The rows the performance report works on. */
  lemma {:induction false} PerformanceRows(db: Db, range: Range)
    ensures var q := P.QueryRows(ScopeOf(db, range), db);
            && q.insights == Filter(db.insights, (r: Insight) => IsInsightRow(db, range, r))
            && q.leads == Filter(db.leads, (l: M.Lead) => IsLeadRow(db, range, l) && l.edge.adId.Some?)
            && q.deals == Filter(db.deals, (d: C.Deal) => IsDealRow(db, q.leads, d))
            && OldestFirst(q.touches) && multiset(q.touches) == multiset(Filter(db.leads, (l: M.Lead) => IsTouchRow(db, l)))
  {
    var sc := ScopeOf(db, range);
    InsightRows(db, range);
    LeadRows(db, range);
    TouchRows(db, range);
    DealRows(db, range, LeadsInRange(sc, db.leads), ContactsOf(LeadsInRange(sc, db.leads)));
  }

  /** The rows the cohort report works on. */
  lemma {:induction false} CohortRows(db: Db, range: Range)
    ensures var q := H.QueryRows(ScopeOf(db, range), db);
            && q.insights == Filter(db.insights, (r: Insight) => IsInsightRow(db, range, r))
            && OldestFirst(q.leads) && multiset(q.leads) == multiset(Filter(db.leads, (l: M.Lead) => IsLeadRow(db, range, l)))
            && q.deals == Filter(db.deals, (d: C.Deal) => IsDealRow(db, q.leads, d))
  {
    var sc := ScopeOf(db, range);
    var leads := H.CohortLeads(sc, db.leads);
    InsightRows(db, range);
    LeadRows(db, range);
    SortedByAge(H.CohortRows(sc, db.leads));
    SortSorts(H.CohortRows(sc, db.leads), (l: M.Lead) => l.createdAt as real);
    forall c
      ensures c in H.ContactsIn(H.VintagesOf(leads)) <==> exists l :: l in leads && l.contactId == Some(c)
    {
      H.VintagesAreListed(leads);
      H.VintageOfSorted(leads, c);
    }
    DealRows(db, range, leads, H.ContactsIn(H.VintagesOf(leads)));
  }

  // ---- Nodes ----

  /** What the report says of a node that comes from this ad. */
  function InfoFrom(n: P.Node, ad: Ad): P.Info {
    match n
    case AdNode(_) => P.Info(ad.name, Some(P.AdSetNode(ad.adSet.id)))
    case AdSetNode(_) => P.Info(ad.adSet.name, Some(P.CampaignNode(ad.adSet.campaign.id)))
    case CampaignNode(_) => P.Info(ad.adSet.campaign.name, None)
  }

  ghost predicate IsInfoOf(n: P.Node, info: P.Info, ads: seq<Ad>) {
    exists i :: 0 <= i < |ads| && P.IsNodeOf(n, ads[i]) && info == InfoFrom(n, ads[i])
  }

  lemma {:induction false} InfoStays(n: P.Node, info: P.Info, ads: seq<Ad>)
    requires |ads| > 0 && IsInfoOf(n, info, Front(ads))
    ensures IsInfoOf(n, info, ads)
  {
    var i :| 0 <= i < |Front(ads)| && P.IsNodeOf(n, Front(ads)[i]) && info == InfoFrom(n, Front(ads)[i]);
    assert ads[i] == Front(ads)[i];
  }

  lemma {:induction false} AddedInfo(t: P.Tree, ad: Ad, n: P.Node)
    requires n in P.AddAd(t, ad).info
    ensures n in t.info ==> P.AddAd(t, ad).info[n] == t.info[n]
    ensures n !in t.info ==> P.IsNodeOf(n, ad) && P.AddAd(t, ad).info[n] == InfoFrom(n, ad)
  {
    P.AddAdExact(t, ad);
  }

  /** Every node carries the name and the parent of an ad, ad set or campaign of the query. */
  lemma {:induction false} NodeInfo(ads: seq<Ad>, n: P.Node)
    requires n in P.BuildTree(ads).info
    ensures IsInfoOf(n, P.BuildTree(ads).info[n], ads)
  {
    var t := P.BuildTree(Front(ads));
    AddedInfo(t, Last(ads), n);
    if n in t.info {
      NodeInfo(Front(ads), n);
      InfoStays(n, t.info[n], ads);
    } else {
      assert Last(ads) == ads[|ads| - 1];
    }
  }

  // ---- Tags ----

  /** tag is the value of this dimension in the ad's creative; without creative, value or text it is "(untagged)". */
  ghost predicate IsTag(ad: Ad, dimension: Dimension, tag: string) {
    if ad.creative.None? || dimension !in ad.creative.value || ad.creative.value[dimension] == "" then tag == "(untagged)"
    else tag == ad.creative.value[dimension]
  }

  /** Each ad is grouped by its own creative's value of the requested dimension. */
  lemma {:induction false} GroupIsTag(ads: seq<Ad>, dimension: Dimension, i: int)
    requires 0 <= i < |ads| && forall j :: 0 <= j < |ads| && ads[j].id == ads[i].id ==> j == i
    ensures IsTag(ads[i], dimension, I.GroupName(I.DimensionByAd(ads, dimension), ads[i].id))
  {
    if i < |ads| - 1 {
      assert forall j :: 0 <= j < |ads| - 1 ==> ads[j] == Front(ads)[j];
      GroupIsTag(Front(ads), dimension, i);
      assert ads[|ads| - 1].id != ads[i].id;
    }
  }

  // ---- Rounding ----

  predicate InCents(r: real) {
    (r * 100.0).Floor as real == r * 100.0
  }

  lemma {:induction false} NearestInt(x: real, j: int)
    ensures j == (x + 0.5).Floor <==> x - 0.5 < j as real <= x + 0.5
  {
  }

  lemma {:induction false} Hundredfold(n: real, r: real)
    ensures n - 0.005 < r <= n + 0.005 <==> n * 100.0 - 0.5 < r * 100.0 <= n * 100.0 + 0.5
    ensures r == (r * 100.0) / 100.0
  {
  }

  /** Rounding gives the nearest amount in whole cents, the upper one of two. */
  lemma {:induction false} RoundExact(n: real, r: real)
    ensures r == Round(n) <==> InCents(r) && n - 0.005 < r <= n + 0.005
  {
    Hundredfold(n, r);
    NearestInt(n * 100.0, (r * 100.0).Floor);
    var k := (n * 100.0 + 0.5).Floor as real;
    assert (k / 100.0) * 100.0 == k;
  }

  /** A reported row keeps every count, rounds both amounts and shows the return on the unrounded spend, if there is spend. */
  ghost predicate Shows(totals: Totals, roas: Option<real>, t: Totals) {
    && totals == Totals(Round(t.spend), t.impressions, t.clicks, t.leads, t.qualified, t.sales, Round(t.revenue))
    && (roas.Some? <==> t.spend != 0.0)
    && (roas.Some? ==> roas.value * t.spend == t.revenue)
  }

  lemma {:induction false} RowsShow(t: Totals, week: int, value: string)
    ensures H.RowOf(week, t).week == week && Shows(H.RowOf(week, t).totals, H.RowOf(week, t).roas, t)
    ensures I.RowOf(value, t).value == value && Shows(I.RowOf(value, t).totals, I.RowOf(value, t).roas, t)
  {
    if t.spend != 0.0 { assert (t.revenue / t.spend) * t.spend == t.revenue; }
  }
}
