/** What one ad's row of the performance report holds (apps/api/src/metrics/metrics.service.ts). */
module AdRows {
  import opened Common
  import opened Accumulators
  import opened MetricsData
  import opened PerformanceLaws
  import Canon = CanonicalStatus
  import M = Matching
  import C = CrmSync
  import P = Performance
  import R = Reconciliation

  // ---- What an ad's row should hold ----

  predicate IsOfAd(r: Insight, ad: AdId) { r.adId == ad }

  function OwnInsights(rows: seq<Insight>, ad: AdId): seq<Insight> {
    Filter(rows, (r: Insight) => IsOfAd(r, ad))
  }

  predicate IsLeadOf(l: M.Lead, ad: AdId) { l.edge.adId == Some(ad) }

  function OwnLeads(leads: seq<M.Lead>, ad: AdId): seq<M.Lead> {
    Filter(leads, (l: M.Lead) => IsLeadOf(l, ad))
  }

  predicate IsQualifiedLead(l: M.Lead, qualified: set<ContactId>) {
    l.contactId.Some? && l.contactId.value in qualified
  }

  function QualifiedLeads(leads: seq<M.Lead>, qualified: set<ContactId>): seq<M.Lead> {
    Filter(leads, (l: M.Lead) => IsQualifiedLead(l, qualified))
  }

  /** A won deal whose contact's touch ad is this one. */
  predicate IsWinOf(touch: P.Touch, d: C.Deal, ad: AdId) {
    d.canonical == Canon.Won && d.contactId.Some? && AdOf(touch, d.contactId.value) == Some(ad)
  }

  function OwnWins(touch: P.Touch, deals: seq<C.Deal>, ad: AdId): seq<C.Deal> {
    Filter(deals, (d: C.Deal) => IsWinOf(touch, d, ad))
  }

  function Spend(sc: Scope, currency: string, rows: seq<Insight>): real {
    if |rows| == 0 then 0.0 else Spend(sc, currency, Front(rows)) + Last(rows).spend * Rate(sc, currency)
  }

  function Impressions(rows: seq<Insight>): int {
    if |rows| == 0 then 0 else Impressions(Front(rows)) + Last(rows).impressions
  }

  function Clicks(rows: seq<Insight>): int {
    if |rows| == 0 then 0 else Clicks(Front(rows)) + Last(rows).clicks
  }

  function Revenue(sc: Scope, deals: seq<C.Deal>): real {
    if |deals| == 0 then 0.0 else Revenue(sc, Front(deals)) + Worth(sc, Last(deals).amount, Last(deals).currency)
  }

  function OfInsights(sc: Scope, currency: string, rows: seq<Insight>): Totals {
    Totals(Spend(sc, currency, rows), Impressions(rows), Clicks(rows), 0, 0, 0, 0.0)
  }

  function OfLeads(leads: seq<M.Lead>, qualified: set<ContactId>): Totals {
    ZERO.(leads := |leads|, qualified := |QualifiedLeads(leads, qualified)|)
  }

  function OfWins(sc: Scope, wins: seq<C.Deal>): Totals {
    ZERO.(sales := |wins|, revenue := Revenue(sc, wins))
  }

  // ---- Credits to one ad ----

  lemma {:induction false} CreditedToConcat(a: seq<P.Credit>, b: seq<P.Credit>, ad: AdId)
    ensures P.CreditedTo(a + b, ad) == Plus(P.CreditedTo(a, ad), P.CreditedTo(b, ad))
  {
    if |b| == 0 {
      assert a + b == a;
      PlusZero(P.CreditedTo(a, ad));
    } else {
      CreditedToConcat(a, Front(b), ad);
      assert Front(a + b) == a + Front(b);
      PlusAssoc(P.CreditedTo(a, ad), P.CreditedTo(Front(b), ad), Last(b).delta);
    }
  }

  lemma {:induction false} CreditedToSnoc(cs: seq<P.Credit>, c: P.Credit, ad: AdId)
    ensures P.CreditedTo(cs + [c], ad) == if c.ad == ad then Plus(P.CreditedTo(cs, ad), c.delta) else P.CreditedTo(cs, ad)
  {
    assert Front(cs + [c]) == cs;
  }

  /** Of the groups of distinct ads, only the ad's own is credited to it. */
  lemma {:induction false} OwnGroup(sc: Scope, meta: map<AdId, P.Meta>, rows: seq<Insight>, ads: seq<AdId>, ad: AdId)
    requires Distinct(ads) && ad in meta
    ensures P.CreditedTo(P.InsightCredits(sc, meta, R.GroupsFor(rows, ads)), ad)
         == if ad in ads then R.GroupDelta(sc, meta, GroupFor(rows, ad)) else ZERO
  {
    if |ads| > 0 {
      var front, groups := Front(ads), R.GroupsFor(rows, ads);
      assert ads == front + [Last(ads)];
      OwnGroup(sc, meta, rows, front, ad);
      assert Front(groups) == R.GroupsFor(rows, front) && Last(groups) == GroupFor(rows, Last(ads));
      CreditedToSnoc(P.InsightCredits(sc, meta, Front(groups)), Last(P.InsightCredits(sc, meta, groups)), ad);
      assert Last(ads) !in front;
      PlusZero(R.GroupDelta(sc, meta, GroupFor(rows, ad)));
    }
  }

  lemma {:induction false} GroupOfOwnInsights(sc: Scope, meta: map<AdId, P.Meta>, rows: seq<Insight>, ad: AdId)
    requires ad in meta
    ensures R.GroupDelta(sc, meta, GroupFor(rows, ad)) == OfInsights(sc, meta[ad].currency, OwnInsights(rows, ad))
  {
    var currency := meta[ad].currency;
    if |rows| == 0 {
      ConvertIsLinear(sc, 0.0, 0.0, currency);
    } else {
      GroupOfOwnInsights(sc, meta, Front(rows), ad);
      var own, r := OwnInsights(Front(rows), ad), Last(rows);
      if IsOfAd(r, ad) {
        ConvertIsLinear(sc, GroupFor(Front(rows), ad).spend, r.spend, currency);
        ConvertIsLinear(sc, r.spend, 0.0, currency);
        assert Front(own + [r]) == own;
        assert OwnInsights(rows, ad) == own + [r];
      } else {
        assert OwnInsights(rows, ad) == own;
      }
    }
  }

  lemma {:induction false} InsightsOfAd(sc: Scope, meta: map<AdId, P.Meta>, rows: seq<Insight>, ad: AdId)
    requires ad in meta
    ensures P.CreditedTo(P.InsightCredits(sc, meta, GroupByAd(rows)), ad)
         == OfInsights(sc, meta[ad].currency, OwnInsights(rows, ad))
  {
    assert GroupByAd(rows) == R.GroupsFor(rows, AdsOf(rows));
    OwnGroup(sc, meta, rows, AdsOf(rows), ad);
    GroupOfOwnInsights(sc, meta, rows, ad);
    R.GroupIsOfAd(rows, ad);
    ConvertIsLinear(sc, 0.0, 0.0, meta[ad].currency);
  }

  lemma {:induction false} LeadsOfAd(leads: seq<M.Lead>, qualified: set<ContactId>, ad: AdId)
    requires forall l :: l in leads ==> Attributed(l)
    ensures P.CreditedTo(P.LeadCredits(leads, qualified), ad) == LeadTotal(OwnLeads(leads, ad), qualified)
  {
    if |leads| > 0 {
      var front, l := Front(leads), Last(leads);
      assert leads == front + [l];
      assert l in leads && Attributed(l);
      LeadsOfAd(front, qualified, ad);
      CreditedToSnoc(P.LeadCredits(front, qualified), P.Credit(l.edge.adId.value, P.LeadDelta(l, qualified)), ad);
      var own := OwnLeads(front, ad);
      if IsLeadOf(l, ad) {
        assert Front(own + [l]) == own;
        assert OwnLeads(leads, ad) == own + [l];
      } else {
        assert OwnLeads(leads, ad) == own;
      }
    }
  }

  lemma {:induction false} LeadTotalIsCounts(leads: seq<M.Lead>, qualified: set<ContactId>)
    ensures LeadTotal(leads, qualified) == OfLeads(leads, qualified)
  {
    if |leads| > 0 { LeadTotalIsCounts(Front(leads), qualified); }
  }

  lemma {:induction false} WinsOfAd(sc: Scope, touch: P.Touch, deals: seq<C.Deal>, ad: AdId)
    ensures P.CreditedTo(P.DealCredits(sc, touch, deals), ad) == OfWins(sc, OwnWins(touch, deals, ad))
  {
    if |deals| > 0 {
      var d, own := Last(deals), OwnWins(touch, Front(deals), ad);
      WinsOfAd(sc, touch, Front(deals), ad);
      LastDealCredited(sc, touch, deals, ad);
      if IsWinOf(touch, d, ad) {
        assert OwnWins(touch, deals, ad) == own + [d];
        OneMoreWin(sc, own, d);
      } else {
        assert OwnWins(touch, deals, ad) == own;
      }
    }
  }

  lemma {:induction false} LastDealCredited(sc: Scope, touch: P.Touch, deals: seq<C.Deal>, ad: AdId)
    requires |deals| > 0
    ensures var before := P.CreditedTo(P.DealCredits(sc, touch, Front(deals)), ad);
            P.CreditedTo(P.DealCredits(sc, touch, deals), ad)
            == if IsWinOf(touch, Last(deals), ad) then Plus(before, P.DealDelta(sc, Last(deals))) else before
  {
    var d, before := Last(deals), P.DealCredits(sc, touch, Front(deals));
    if IsWon(d) && d.contactId.value in touch {
      CreditedToSnoc(before, P.Credit(touch[d.contactId.value], P.DealDelta(sc, d)), ad);
    } else {
      assert before + [] == before;
    }
  }

  lemma {:induction false} OneMoreWin(sc: Scope, wins: seq<C.Deal>, d: C.Deal)
    ensures OfWins(sc, wins + [d]) == Plus(OfWins(sc, wins), P.DealDelta(sc, d))
  {
    assert Front(wins + [d]) == wins;
    RevenueIsWorth(sc, d);
  }

  /**
   * An ad's row before rounding: its own in-range insights converted from its account's currency, the in-range
   * leads matched to it and those of them whose contact qualified, and the won deals whose touch ad it is.
   */
  lemma {:induction false} AdRow(db: Db, range: Range, model: Model, ad: Ad)
    requires Joined(db.ads) && ad in db.ads
    ensures var sc := ScopeOf(db, range);
            var q := P.QueryRows(sc, db);
            var leads := OwnLeads(q.leads, ad.id);
            var insights := OwnInsights(q.insights, ad.id);
            var wins := OwnWins(P.TouchAds(model, q.touches), q.deals, ad.id);
            && P.AdNode(ad.id) in P.Accumulated(db, range, model)
            && P.Accumulated(db, range, model)[P.AdNode(ad.id)]
            == Totals(Spend(sc, ad.adSet.campaign.currency, insights), Impressions(insights), Clicks(insights), |leads|,
                      |QualifiedLeads(leads, QualifiedContacts(q.deals))|, |wins|, Revenue(sc, wins))
  {
    var sc, t := ScopeOf(db, range), P.BuildTree(db.ads);
    AdRowIsItsCredits(db, range, model, ad);
    CurrencyOfAd(db.ads, ad);
    CreditsOfAd(sc, t.meta, model, P.QueryRows(sc, db), ad.id);
  }

  lemma {:induction false} CurrencyOfAd(ads: seq<Ad>, ad: Ad)
    requires Joined(ads) && ad in ads
    ensures ad.id in P.BuildTree(ads).meta && P.BuildTree(ads).meta[ad.id].currency == ad.adSet.campaign.currency
  {
    P.TreeOfJoin(ads);
    assert P.Describes(P.BuildTree(ads), ad);
  }

  lemma {:induction false} CreditsOfAd(sc: Scope, meta: map<AdId, P.Meta>, model: Model, q: P.Rows, ad: AdId)
    requires P.Queried(q) && ad in meta
    ensures var leads := OwnLeads(q.leads, ad);
            var insights := OwnInsights(q.insights, ad);
            var wins := OwnWins(P.TouchAds(model, q.touches), q.deals, ad);
            P.CreditedTo(P.Credits(sc, meta, model, q), ad)
            == Totals(Spend(sc, meta[ad].currency, insights), Impressions(insights), Clicks(insights), |leads|,
                      |QualifiedLeads(leads, QualifiedContacts(q.deals))|, |wins|, Revenue(sc, wins))
  {
    var touch := P.TouchAds(model, q.touches);
    var a := P.InsightCredits(sc, meta, GroupByAd(q.insights));
    var b := P.LeadCredits(q.leads, QualifiedContacts(q.deals));
    var c := P.DealCredits(sc, touch, q.deals);
    CreditedToConcat(a + b, c, ad);
    CreditedToConcat(a, b, ad);
    InsightsOfAd(sc, meta, q.insights, ad);
    LeadsOfAd(q.leads, QualifiedContacts(q.deals), ad);
    LeadTotalIsCounts(OwnLeads(q.leads, ad), QualifiedContacts(q.deals));
    WinsOfAd(sc, touch, q.deals, ad);
    AddThree(sc, meta[ad].currency, OwnInsights(q.insights, ad), OwnLeads(q.leads, ad), QualifiedContacts(q.deals),
             OwnWins(touch, q.deals, ad));
  }

  lemma {:induction false} AddThree(sc: Scope, currency: string, insights: seq<Insight>, leads: seq<M.Lead>,
                                     qualified: set<ContactId>, wins: seq<C.Deal>)
    ensures Plus(Plus(OfInsights(sc, currency, insights), OfLeads(leads, qualified)), OfWins(sc, wins))
         == Totals(Spend(sc, currency, insights), Impressions(insights), Clicks(insights), |leads|,
                   |QualifiedLeads(leads, qualified)|, |wins|, Revenue(sc, wins))
  {
  }
}
