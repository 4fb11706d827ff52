/**
 * The performance and cohort reports are two computations over the same rows. Before rounding they agree on
 * leads, sales, revenue and spend.
 */
module Reconciliation {
  import opened Common
  import opened Accumulators
  import opened MetricsData
  import opened PerformanceLaws
  import M = Matching
  import D = MatchDecision
  import S = MatchingSafety
  import C = CrmSync
  import P = Performance
  import H = Cohorts

  /** Every matched lead has an ad, and it is one of the tenant's. */
  ghost predicate MatchedHaveAds(db: Db) {
    forall l :: l in db.leads && l.edge.status == D.Matched ==>
      l.edge.adId.Some? && exists ad :: ad in db.ads && ad.id == l.edge.adId.value
  }

  /** Every insight is of an ad of the tenant and in the currency of that ad's account. */
  ghost predicate InsightsOwned(db: Db) {
    forall r :: r in db.insights ==> exists ad :: ad in db.ads && ad.id == r.adId && ad.adSet.campaign.currency == r.currency
  }

  /** The matching engine's invariant provides the first condition. */
  lemma {:induction false} SafeMatchingHasAds(db: Db, cat: M.Catalog, world: M.Db, t: TenantId)
    requires S.Safe(cat, world)
    requires forall l :: l in db.leads ==> exists k :: k in world.leads && k.tenant == t && world.leads[k] == l
    requires forall a :: a in cat.ads && a.tenant == t ==> exists ad :: ad in db.ads && ad.id == a.id
    ensures MatchedHaveAds(db)
  {
    forall l | l in db.leads && l.edge.status == D.Matched
      ensures l.edge.adId.Some? && exists ad :: ad in db.ads && ad.id == l.edge.adId.value
    {
      var k :| k in world.leads && k.tenant == t && world.leads[k] == l;
      assert S.SafeLead(cat, world.audits, k, l);
      assert S.IsAdOf(cat.ads, t, l.edge.adId.value);
    }
  }

  // ---- The same leads, contacts and deals ----

  lemma {:induction false} SameLeads(sc: Scope, db: Db)
    requires MatchedHaveAds(db)
    ensures H.CohortLeads(sc, db.leads) == SortBy(LeadsInRange(sc, db.leads), (l: M.Lead) => l.createdAt as real)
    ensures multiset(H.CohortLeads(sc, db.leads)) == multiset(LeadsInRange(sc, db.leads))
    ensures |H.CohortLeads(sc, db.leads)| == |LeadsInRange(sc, db.leads)|
    ensures forall l :: l in H.CohortLeads(sc, db.leads) <==> l in LeadsInRange(sc, db.leads)
  {
    FilterSame(db.leads, (l: M.Lead) => l.edge.status == D.Matched && sc.leadFrom <= l.createdAt <= sc.until,
               (l: M.Lead) => Attributed(l) && sc.leadFrom <= l.createdAt <= sc.until);
    SortSorts(LeadsInRange(sc, db.leads), (l: M.Lead) => l.createdAt as real);
  }

  lemma {:induction false} SameContacts(sc: Scope, db: Db)
    requires MatchedHaveAds(db)
    ensures H.ContactsIn(H.VintagesOf(H.CohortLeads(sc, db.leads))) == ContactsOf(LeadsInRange(sc, db.leads))
  {
    var leads := H.CohortLeads(sc, db.leads);
    SameLeads(sc, db);
    SortSorts(LeadsInRange(sc, db.leads), (l: M.Lead) => l.createdAt as real);
    H.VintagesAreListed(leads);
    forall c: ContactId
      ensures c in H.VintagesOf(leads).order <==> c in ContactsOf(LeadsInRange(sc, db.leads))
    {
      H.VintageOfSorted(leads, c);
    }
  }

  lemma {:induction false} PerformanceDeals(sc: Scope, db: Db, contacts: set<ContactId>)
    requires contacts == ContactsOf(LeadsInRange(sc, db.leads))
    ensures P.QueryRows(sc, db).deals == DealsOf(sc, db.deals, contacts)
  {
  }

  lemma {:induction false} CohortDeals(sc: Scope, db: Db, contacts: set<ContactId>)
    requires contacts == H.ContactsIn(H.VintagesOf(H.CohortLeads(sc, db.leads)))
    ensures H.QueryRows(sc, db).deals == DealsOf(sc, db.deals, contacts)
  {
  }

  lemma {:induction false} SameDeals(sc: Scope, db: Db)
    requires MatchedHaveAds(db)
    ensures H.QueryRows(sc, db).deals == P.QueryRows(sc, db).deals
  {
    var contacts := ContactsOf(LeadsInRange(sc, db.leads));
    SameContacts(sc, db);
    PerformanceDeals(sc, db, contacts);
    CohortDeals(sc, db, contacts);
  }

  lemma {:induction false} DealsHaveVintages(sc: Scope, db: Db)
    ensures forall d :: d in H.QueryRows(sc, db).deals ==>
              d.contactId.Some? && d.contactId.value in H.VintagesOf(H.QueryRows(sc, db).leads).order
  {
    DealsAreOfContacts(sc, db.deals, H.ContactsIn(H.VintagesOf(H.CohortLeads(sc, db.leads))));
  }

  // ---- Sales and revenue: per contact and per deal ----

  /** The wins of the listed contacts. */
  function WinTable(order: seq<ContactId>, won: H.Wins): map<ContactId, Totals> {
    map c | c in order :: H.WinsOfContact(won, c)
  }

  lemma {:induction false} AddWinExact(sc: Scope, won: H.Wins, d: C.Deal, c: ContactId)
    ensures H.WinsOfContact(H.AddWin(sc, won, d), c)
         == if IsWon(d) && d.contactId == Some(c) then Plus(H.WinsOfContact(won, c), P.DealDelta(sc, d)) else H.WinsOfContact(won, c)
  {
  }

  lemma {:induction false} WinRaisesItsContact(sc: Scope, order: seq<ContactId>, won: H.Wins, d: C.Deal)
    requires Distinct(order) && d.contactId.Some? && d.contactId.value in order
    ensures SumOver(order, WinTable(order, H.AddWin(sc, won, d)))
         == if IsWon(d) then Plus(SumOver(order, WinTable(order, won)), P.DealDelta(sc, d)) else SumOver(order, WinTable(order, won))
  {
    if IsWon(d) {
      var won1 := H.AddWin(sc, won, d);
      var before, after := WinTable(order, won), WinTable(order, won1);
      var delta := P.DealDelta(sc, d);
      forall c | c in order
        ensures after[c] == if c == d.contactId.value then Plus(before[c], delta) else before[c]
      {
        AddWinExact(sc, won, d, c);
      }
      SumBumped(order, before, after, d.contactId.value, delta);
    }
  }

  /** Summing each contact's wins gives every won deal once. */
  lemma {:induction false} WinsPerContact(sc: Scope, order: seq<ContactId>, deals: seq<C.Deal>)
    requires Distinct(order)
    requires forall d :: d in deals ==> d.contactId.Some? && d.contactId.value in order
    ensures SumOver(order, WinTable(order, H.WinsOf(sc, deals))) == WonTotal(sc, deals)
  {
    if |deals| == 0 {
      SumOfZeros(order, WinTable(order, map[]));
    } else {
      assert deals == Front(deals) + [Last(deals)];
      WinsPerContact(sc, order, Front(deals));
      WinRaisesItsContact(sc, order, H.WinsOf(sc, Front(deals)), Last(deals));
    }
  }

  lemma {:induction false} ContactSumIsWins(order: seq<ContactId>, all: seq<ContactId>, qualified: set<ContactId>, won: H.Wins)
    requires forall c :: c in order ==> c in all
    ensures var sum, wins := H.ContactSum(order, qualified, won), SumOver(order, WinTable(all, won));
            sum.sales == wins.sales && sum.revenue == wins.revenue && sum.leads == 0 && sum.spend == 0.0
  {
    if |order| > 0 {
      assert order == Front(order) + [Last(order)];
      ContactSumIsWins(Front(order), all, qualified, won);
    }
  }

  // ---- Leads and qualified leads ----

  lemma {:induction false} LeadTotalCounts(leads: seq<M.Lead>, qualified: set<ContactId>)
    ensures LeadTotal(leads, qualified) == ZERO.(leads := |leads|, qualified := LeadTotal(leads, qualified).qualified)
  {
    if |leads| > 0 { LeadTotalCounts(Front(leads), qualified); }
  }

  lemma {:induction false} LeadTotalInserted(leads: seq<M.Lead>, x: M.Lead, key: M.Lead -> real, qualified: set<ContactId>)
    ensures LeadTotal(InsertBy(leads, x, key), qualified).qualified
         == LeadTotal(leads, qualified).qualified + P.LeadDelta(x, qualified).qualified
  {
    if |leads| == 0 || key(Last(leads)) <= key(x) {
      assert Front(leads + [x]) == leads;
    } else {
      LeadTotalInserted(Front(leads), x, key, qualified);
      assert Front(InsertBy(leads, x, key)) == InsertBy(Front(leads), x, key);
    }
  }

  lemma {:induction false} LeadTotalSorted(leads: seq<M.Lead>, key: M.Lead -> real, qualified: set<ContactId>)
    ensures LeadTotal(SortBy(leads, key), qualified).qualified == LeadTotal(leads, qualified).qualified
  {
    if |leads| > 0 {
      LeadTotalSorted(Front(leads), key, qualified);
      LeadTotalInserted(SortBy(Front(leads), key), Last(leads), key, qualified);
    }
  }

  /** A qualified contact is counted once, but each of its leads counts as a qualified lead. */
  lemma {:induction false} QualifiedContactsWithinLeads(leads: seq<M.Lead>, qualified: set<ContactId>, won: H.Wins)
    ensures H.ContactSum(H.VintagesOf(leads).order, qualified, won).qualified <= LeadTotal(leads, qualified).qualified
  {
    if |leads| > 0 {
      QualifiedContactsWithinLeads(Front(leads), qualified, won);
      var v := H.VintagesOf(Front(leads));
      var l := Last(leads);
      if l.contactId.Some? && l.contactId.value !in v.week {
        assert Front(v.order + [l.contactId.value]) == v.order;
      }
    }
  }

  // ---- Spend: grouped then converted, or converted then summed ----

  function RowDelta(sc: Scope, meta: map<AdId, P.Meta>, r: Insight): Totals
    requires r.adId in meta
  {
    Totals(Convert(sc, r.spend, meta[r.adId].currency), r.impressions, r.clicks, 0, 0, 0, 0.0)
  }

  function GroupDelta(sc: Scope, meta: map<AdId, P.Meta>, g: Group): Totals
    requires g.adId in meta
  {
    Totals(Convert(sc, g.spend, meta[g.adId].currency), g.impressions, g.clicks, 0, 0, 0, 0.0)
  }

  function RowTotal(sc: Scope, meta: map<AdId, P.Meta>, rows: seq<Insight>): Totals
    requires forall r :: r in rows ==> r.adId in meta
  {
    if |rows| == 0 then ZERO
    else
      assert rows == Front(rows) + [Last(rows)];
      Plus(RowTotal(sc, meta, Front(rows)), RowDelta(sc, meta, Last(rows)))
  }

  function GroupTable(sc: Scope, meta: map<AdId, P.Meta>, rows: seq<Insight>, ads: seq<AdId>): map<AdId, Totals>
    requires forall a :: a in ads ==> a in meta
  {
    map a | a in ads :: GroupDelta(sc, meta, GroupFor(rows, a))
  }

  lemma {:induction false} GroupIsOfAd(rows: seq<Insight>, ad: AdId)
    ensures ad !in AdsOf(rows) ==> GroupFor(rows, ad) == Group(ad, 0.0, 0, 0)
    ensures forall r :: r in rows ==> r.adId in AdsOf(rows)
    ensures forall a :: a in AdsOf(rows) ==> exists r :: r in rows && r.adId == a
  {
    if |rows| > 0 {
      assert rows == Front(rows) + [Last(rows)];
      GroupIsOfAd(Front(rows), ad);
    }
  }

  lemma {:induction false} GroupGrows(sc: Scope, meta: map<AdId, P.Meta>, rows: seq<Insight>, ad: AdId)
    requires |rows| > 0 && ad in meta && Last(rows).adId in meta
    ensures GroupDelta(sc, meta, GroupFor(rows, ad))
         == if Last(rows).adId == ad then Plus(GroupDelta(sc, meta, GroupFor(Front(rows), ad)), RowDelta(sc, meta, Last(rows)))
            else GroupDelta(sc, meta, GroupFor(Front(rows), ad))
  {
    if Last(rows).adId == ad {
      ConvertIsLinear(sc, GroupFor(Front(rows), ad).spend, Last(rows).spend, meta[ad].currency);
    }
  }

  /** Converting each ad's summed spend gives the sum of the converted rows. */
  lemma {:induction false} GroupsSumRows(sc: Scope, meta: map<AdId, P.Meta>, rows: seq<Insight>)
    requires forall r :: r in rows ==> r.adId in meta
    ensures forall a :: a in AdsOf(rows) ==> a in meta
    ensures SumOver(AdsOf(rows), GroupTable(sc, meta, rows, AdsOf(rows))) == RowTotal(sc, meta, rows)
  {
    if |rows| > 0 {
      assert rows == Front(rows) + [Last(rows)];
      GroupsSumRows(sc, meta, Front(rows));
      GroupsSumStep(sc, meta, rows);
    }
  }

  lemma {:induction false} GroupsSumStep(sc: Scope, meta: map<AdId, P.Meta>, rows: seq<Insight>)
    requires |rows| > 0 && forall r :: r in rows ==> r.adId in meta
    requires forall a :: a in AdsOf(Front(rows)) ==> a in meta
    requires forall r :: r in Front(rows) ==> r.adId in meta
    requires SumOver(AdsOf(Front(rows)), GroupTable(sc, meta, Front(rows), AdsOf(Front(rows)))) == RowTotal(sc, meta, Front(rows))
    ensures forall a :: a in AdsOf(rows) ==> a in meta
    ensures SumOver(AdsOf(rows), GroupTable(sc, meta, rows, AdsOf(rows))) == RowTotal(sc, meta, rows)
  {
    var r, ads := Last(rows), AdsOf(Front(rows));
    assert rows == Front(rows) + [r];
    assert r.adId in meta;
    forall a | a in AdsOf(rows)
      ensures a in meta
    {
      GroupIsOfAd(rows, a);
    }
    var before, after := GroupTable(sc, meta, Front(rows), ads), GroupTable(sc, meta, rows, AdsOf(rows));
    forall a | a in ads
      ensures after[a] == if r.adId == a then Plus(before[a], RowDelta(sc, meta, r)) else before[a]
    {
      GroupGrows(sc, meta, rows, a);
    }
    if r.adId in ads {
      SumBumped(ads, before, after, r.adId, RowDelta(sc, meta, r));
    } else {
      SumUnchanged(ads, before, after);
      GroupIsOfAd(Front(rows), r.adId);
      GroupGrows(sc, meta, rows, r.adId);
      assert Front(ads + [r.adId]) == ads;
      ConvertIsLinear(sc, 0.0, 0.0, meta[r.adId].currency);
      PlusZero(RowDelta(sc, meta, r));
    }
  }

  function GroupsFor(rows: seq<Insight>, ads: seq<AdId>): seq<Group> {
    seq(|ads|, i requires 0 <= i < |ads| => GroupFor(rows, ads[i]))
  }

  lemma {:induction false} KnownGroups(sc: Scope, meta: map<AdId, P.Meta>, rows: seq<Insight>, ads: seq<AdId>, all: seq<AdId>)
    requires forall a :: a in all ==> a in meta
    requires forall a :: a in ads ==> a in all
    ensures P.Known(meta, P.InsightCredits(sc, meta, GroupsFor(rows, ads))) == SumOver(ads, GroupTable(sc, meta, rows, all))
  {
    if |ads| > 0 {
      assert ads == Front(ads) + [Last(ads)];
      KnownGroups(sc, meta, rows, Front(ads), all);
      var groups := GroupsFor(rows, ads);
      assert Front(groups) == GroupsFor(rows, Front(ads)) && Last(groups) == GroupFor(rows, Last(ads));
      P.KnownSnoc(meta, P.InsightCredits(sc, meta, Front(groups)), Last(P.InsightCredits(sc, meta, groups)));
    }
  }

  lemma {:induction false} RowsAreSpend(sc: Scope, meta: map<AdId, P.Meta>, rows: seq<Insight>)
    requires forall r :: r in rows ==> r.adId in meta && meta[r.adId].currency == r.currency
    ensures RowTotal(sc, meta, rows).spend == H.SpendSum(sc, rows).spend
    ensures RowTotal(sc, meta, rows).leads == RowTotal(sc, meta, rows).qualified == RowTotal(sc, meta, rows).sales == 0
    ensures RowTotal(sc, meta, rows).revenue == 0.0
    ensures H.SpendSum(sc, rows) == ZERO.(spend := H.SpendSum(sc, rows).spend)
  {
    if |rows| > 0 {
      assert rows == Front(rows) + [Last(rows)];
      RowsAreSpend(sc, meta, Front(rows));
    }
  }

  /** Spend credited to ads, grouped and converted per ad, equals the spend of the cohort weeks. */
  lemma {:induction false} SpendAgrees(sc: Scope, meta: map<AdId, P.Meta>, rows: seq<Insight>)
    requires forall r :: r in rows ==> r.adId in meta && meta[r.adId].currency == r.currency
    ensures var known := P.Known(meta, P.InsightCredits(sc, meta, GroupByAd(rows)));
            && known.spend == H.SpendSum(sc, rows).spend
            && known.leads == known.qualified == known.sales == 0 && known.revenue == 0.0
  {
    GroupsSumRows(sc, meta, rows);
    KnownGroups(sc, meta, rows, AdsOf(rows), AdsOf(rows));
    assert GroupsFor(rows, AdsOf(rows)) == GroupByAd(rows);
    RowsAreSpend(sc, meta, rows);
  }

  // ---- The two reports ----

  predicate Agree(ads: Totals, weeks: Totals) {
    && ads.leads == weeks.leads && ads.sales == weeks.sales && ads.revenue == weeks.revenue && ads.spend == weeks.spend
    && weeks.qualified <= ads.qualified
  }

  lemma {:induction false} WonTotalShape(sc: Scope, deals: seq<C.Deal>)
    ensures WonTotal(sc, deals) == ZERO.(sales := WonTotal(sc, deals).sales, revenue := WonTotal(sc, deals).revenue)
  {
    if |deals| > 0 { WonTotalShape(sc, Front(deals)); }
  }

  lemma {:induction false} TotalsAgree(sc: Scope, db: Db, meta: map<AdId, P.Meta>)
    requires MatchedHaveAds(db)
    requires forall r :: r in InsightsInRange(sc, db.insights) ==> r.adId in meta && meta[r.adId].currency == r.currency
    ensures Agree(ReportTotal(sc, meta, P.QueryRows(sc, db)), H.CohortTotal(sc, H.QueryRows(sc, db)))
  {
    var q, h := P.QueryRows(sc, db), H.QueryRows(sc, db);
    var order := H.VintagesOf(h.leads).order;
    var qualified, won := QualifiedContacts(q.deals), H.WinsOf(sc, q.deals);
    SameLeads(sc, db);
    SameDeals(sc, db);
    DealsHaveVintages(sc, db);
    H.VintagesAreListed(h.leads);
    WinsPerContact(sc, order, q.deals);
    ContactSumIsWins(order, order, qualified, won);
    LeadTotalCounts(q.leads, qualified);
    LeadTotalSorted(q.leads, (l: M.Lead) => l.createdAt as real, qualified);
    QualifiedContactsWithinLeads(h.leads, qualified, won);
    SpendAgrees(sc, meta, q.insights);
    RowsAreSpend(sc, meta, q.insights);
    WonTotalShape(sc, q.deals);
  }

  lemma {:induction false} OwnedInsightsKnown(sc: Scope, db: Db, t: P.Tree)
    requires InsightsOwned(db) && P.Covers(t, db.ads)
    ensures forall r :: r in InsightsInRange(sc, db.insights) ==> r.adId in t.meta && t.meta[r.adId].currency == r.currency
  {
    forall r | r in InsightsInRange(sc, db.insights)
      ensures r.adId in t.meta && t.meta[r.adId].currency == r.currency
    {
      var ad :| ad in db.ads && ad.id == r.adId && ad.adSet.campaign.currency == r.currency;
      assert P.Describes(t, ad);
    }
  }

  /**
   * Reconciliation: under either model the ad rows of the performance report and the weeks of the cohort report
   * sum to the same leads, sales, revenue and spend, and no more contacts qualify than leads.
   */
  lemma {:induction false} ReportsReconcile(db: Db, range: Range, model: Model)
    requires Joined(db.ads) && MatchedHaveAds(db) && InsightsOwned(db)
    ensures var t := P.BuildTree(db.ads);
            && P.AdsHaveNodes(t, P.Accumulated(db, range, model)) && Listed(H.CohortTable(db, range))
            && Agree(P.AdTotal(t, P.Accumulated(db, range, model)), H.Total(H.CohortTable(db, range)))
  {
    var sc, t := ScopeOf(db, range), P.BuildTree(db.ads);
    AdRowsTotal(db, range, model);
    H.TableSums(db, range);
    TreeHasAds(db.ads);
    OwnedInsightsKnown(sc, db, t);
    TotalsAgree(sc, db, t.meta);
  }

  // ---- Connection floors ----

  /** Rows from before a connection never show in the cohort report either. */
  lemma {:induction false} FloorsHideOldCohortRows(db: Db, range: Range)
    ensures H.Report(Trimmed(db), range) == H.Report(db, range)
  {
    var sc := ScopeOf(db, range);
    TrimmedQueries(db, range);
    FilterFiltered(db.leads, (l: M.Lead) => NotBefore(sc.crmFloor, l.createdAt),
                   (l: M.Lead) => l.edge.status == D.Matched && sc.leadFrom <= l.createdAt <= sc.until);
    TrimmedDeals(sc, db.deals, H.ContactsIn(H.VintagesOf(H.CohortLeads(sc, db.leads))));
  }
}
