/** What the performance report promises: nothing is lost or counted twice, whatever the attribution model. */
module PerformanceLaws {
  import opened Common
  import opened Accumulators
  import opened MetricsData
  import opened Performance
  import M = Matching
  import C = CrmSync

  // ---- Roll-up ----

  /** Before rounding, each parent equals the sum of its children and each campaign the sum of its ads. */
  lemma {:induction false} RollUpConserves(db: Db, range: Range, model: Model)
    requires Joined(db.ads)
    ensures Conserved(BuildTree(db.ads), Accumulated(db, range, model))
  {
    var t := BuildTree(db.ads);
    TreeOfJoin(db.ads);
    ZeroConserved(t);
    var sc := ScopeOf(db, range);
    CreditsConserve(t, ZeroAcc(t), Credits(sc, t.meta, model, QueryRows(sc, db)));
  }

  /** The accumulators as reported. */
  function Reported(acc: Acc): Acc {
    map n | n in acc :: Rounded(acc[n])
  }

  /** A sum as reported agrees with the reported parts: counts exactly, money within half a cent per amount. */
  ghost predicate ReportsSum(reported: Acc, p: Node, parts: seq<Node>) {
    && p in reported && (forall n :: n in parts ==> n in reported)
    && var whole, sum := reported[p], SumOver(parts, reported);
       && Near(whole.spend, sum.spend, |parts| + 1) && Near(whole.revenue, sum.revenue, |parts| + 1)
       && whole == sum.(spend := whole.spend, revenue := whole.revenue)
  }

  lemma {:induction false} RoundedPartsReport(acc: Acc, p: Node, parts: seq<Node>)
    requires HoldsSum(acc, p, parts)
    ensures ReportsSum(Reported(acc), p, parts)
  {
    RoundedSum(parts, acc, Reported(acc));
  }

  /** After rounding, a parent's money is within 0.005 (n + 1) of the sum of its n reported children or ads. */
  lemma {:induction false} ReportedRollUp(db: Db, range: Range, model: Model, p: Node)
    requires Joined(db.ads) && p in BuildTree(db.ads).info && !p.AdNode?
    ensures var t := BuildTree(db.ads);
            var reported := Reported(Accumulated(db, range, model));
            && ReportsSum(reported, p, Children(t, p))
            && (p.CampaignNode? ==> ReportsSum(reported, p, AdsUnder(t, p.campaign)))
  {
    var t := BuildTree(db.ads);
    var acc := Accumulated(db, range, model);
    RollUpConserves(db, range, model);
    RoundedPartsReport(acc, p, Children(t, p));
    if p.CampaignNode? { RoundedPartsReport(acc, p, AdsUnder(t, p.campaign)); }
  }

  // ---- Qualified leads ----

  predicate Sane(t: Totals) {
    0 <= t.qualified <= t.leads && 0 <= t.sales
  }

  lemma {:induction false} CreditsSane(meta: map<AdId, Meta>, acc: Acc, cs: seq<Credit>)
    requires (forall c :: c in cs ==> Sane(c.delta)) && forall n :: n in acc ==> Sane(acc[n])
    ensures forall n :: n in AddUpAll(acc, meta, cs) ==> Sane(AddUpAll(acc, meta, cs)[n])
  {
    if |cs| > 0 {
      assert cs == Front(cs) + [Last(cs)];
      CreditsSane(meta, acc, Front(cs));
    }
  }

  lemma {:induction false} InsightCreditsSane(sc: Scope, meta: map<AdId, Meta>, groups: seq<Group>)
    ensures forall c :: c in InsightCredits(sc, meta, groups) ==> Sane(c.delta)
  {
    if |groups| > 0 { InsightCreditsSane(sc, meta, Front(groups)); }
  }

  lemma {:induction false} LeadCreditsSane(leads: seq<M.Lead>, qualified: set<ContactId>)
    requires forall l :: l in leads ==> Attributed(l)
    ensures forall c :: c in LeadCredits(leads, qualified) ==> Sane(c.delta)
  {
    if |leads| > 0 { LeadCreditsSane(Front(leads), qualified); }
  }

  lemma {:induction false} DealCreditsSane(sc: Scope, touch: Touch, deals: seq<C.Deal>)
    ensures forall c :: c in DealCredits(sc, touch, deals) ==> Sane(c.delta)
  {
    if |deals| > 0 { DealCreditsSane(sc, touch, Front(deals)); }
  }

  /** At every node 0 <= qualified leads <= leads. */
  lemma {:induction false} QualifiedWithinLeads(db: Db, range: Range, model: Model)
    ensures var acc := Accumulated(db, range, model); forall n :: n in acc ==> Sane(acc[n])
  {
    var sc, t := ScopeOf(db, range), BuildTree(db.ads);
    var q := QueryRows(sc, db);
    InsightCreditsSane(sc, t.meta, GroupByAd(q.insights));
    LeadCreditsSane(q.leads, QualifiedContacts(q.deals));
    DealCreditsSane(sc, TouchAds(model, q.touches), q.deals);
    CreditsSane(t.meta, ZeroAcc(t), Credits(sc, t.meta, model, q));
  }

  // ---- Attribution of wins ----

  ghost predicate IsTouch(model: Model, leads: seq<M.Lead>, c: ContactId, l: M.Lead) {
    && l in leads && l.contactId == Some(c)
    && forall o :: o in leads && o.contactId == Some(c) ==>
                     if model.FirstTouch? then l.createdAt <= o.createdAt else o.createdAt <= l.createdAt
  }

  /** ad is that of one of c's extremal leads, and there is one exactly when c has a lead. */
  ghost predicate TouchExact(model: Model, leads: seq<M.Lead>, c: ContactId, ad: Option<AdId>) {
    && (ad.Some? <==> exists l :: l in leads && l.contactId == Some(c))
    && (ad.Some? ==> exists l :: IsTouch(model, leads, c, l) && l.edge.adId == ad)
  }

  function AdOf(touch: Touch, c: ContactId): Option<AdId> {
    if c in touch then Some(touch[c]) else None
  }

  /** Over leads in order of age, a contact's ad is that of its earliest or latest lead. */
  lemma {:induction false} TouchIsExtremal(model: Model, leads: seq<M.Lead>, c: ContactId)
    requires forall l :: l in leads ==> Attributed(l) && l.contactId.Some?
    requires SortedBy(leads, (l: M.Lead) => l.createdAt as real)
    ensures TouchExact(model, leads, c, AdOf(TouchAds(model, leads), c))
  {
    if |leads| > 0 {
      FrontOfTouches(leads);
      TouchIsExtremal(model, Front(leads), c);
      var before := AdOf(TouchAds(model, Front(leads)), c);
      if Last(leads).contactId != Some(c) || (model.FirstTouch? && before.Some?) {
        TouchKept(model, leads, c, before);
      } else {
        TouchReplaced(model, leads, c);
      }
    }
  }

  lemma {:induction false} FrontOfTouches(leads: seq<M.Lead>)
    requires |leads| > 0 && SortedBy(leads, (l: M.Lead) => l.createdAt as real)
    requires forall l :: l in leads ==> Attributed(l) && l.contactId.Some?
    ensures SortedBy(Front(leads), (l: M.Lead) => l.createdAt as real) && Attributed(Last(leads)) && Last(leads).contactId.Some?
    ensures forall o :: o in Front(leads) ==> Attributed(o) && o.contactId.Some? && o.createdAt <= Last(leads).createdAt
  {
    assert leads == Front(leads) + [Last(leads)];
    forall o | o in Front(leads)
      ensures o.createdAt <= Last(leads).createdAt
    {
      LastIsGreatest(leads, (l: M.Lead) => l.createdAt as real, o);
    }
  }

  /** A younger lead of another contact, or under first touch of any contact, changes nothing. */
  lemma {:induction false} TouchKept(model: Model, leads: seq<M.Lead>, c: ContactId, ad: Option<AdId>)
    requires |leads| > 0 && TouchExact(model, Front(leads), c, ad)
    requires forall o :: o in Front(leads) ==> o.createdAt <= Last(leads).createdAt
    requires Last(leads).contactId != Some(c) || (model.FirstTouch? && ad.Some?)
    ensures TouchExact(model, leads, c, ad)
  {
    assert leads == Front(leads) + [Last(leads)];
    if ad.Some? {
      var l :| IsTouch(model, Front(leads), c, l) && l.edge.adId == ad;
      TouchStays(model, leads, c, l);
    }
  }

  /** The first lead of a contact sets its ad, and under last touch every younger one does. */
  lemma {:induction false} TouchReplaced(model: Model, leads: seq<M.Lead>, c: ContactId)
    requires |leads| > 0 && Last(leads).contactId == Some(c) && Attributed(Last(leads))
    requires forall o :: o in Front(leads) ==> o.createdAt <= Last(leads).createdAt
    requires model.FirstTouch? ==> forall o :: o in Front(leads) ==> o.contactId != Some(c)
    ensures TouchExact(model, leads, c, Last(leads).edge.adId)
  {
    assert leads == Front(leads) + [Last(leads)];
    assert IsTouch(model, leads, c, Last(leads));
  }

  lemma {:induction false} TouchStays(model: Model, leads: seq<M.Lead>, c: ContactId, l: M.Lead)
    requires |leads| > 0 && IsTouch(model, Front(leads), c, l)
    requires Last(leads).contactId != Some(c) || (model.FirstTouch? && l.createdAt <= Last(leads).createdAt)
    ensures IsTouch(model, leads, c, l)
  {
    assert leads == Front(leads) + [Last(leads)];
  }

  /** Every contact with a won deal in the report has a touch ad: the guard before crediting never skips. */
  lemma {:induction false} EveryWinHasTouch(db: Db, range: Range, model: Model)
    ensures var sc := ScopeOf(db, range);
            var q := QueryRows(sc, db);
            forall d :: d in q.deals ==> d.contactId.Some? && d.contactId.value in TouchAds(model, q.touches)
  {
    var sc := ScopeOf(db, range);
    var q := QueryRows(sc, db);
    forall d | d in q.deals
      ensures d.contactId.Some? && d.contactId.value in TouchAds(model, q.touches)
    {
      var c := d.contactId.value;
      var l :| l in q.leads && l.contactId == Some(c);
      LaterOfRespects(StartOf(range), sc.crmFloor, l.createdAt);
      TouchLeadsExact(sc, db.leads);
      assert l in q.touches;
      TouchIsExtremal(model, q.touches, c);
    }
  }

  lemma {:induction false} TouchLeadsExact(sc: Scope, rows: seq<M.Lead>)
    ensures SortedBy(TouchLeads(sc, rows), (l: M.Lead) => l.createdAt as real)
    ensures forall l :: l in TouchLeads(sc, rows) <==>
                        l in rows && Attributed(l) && l.contactId.Some? && NotBefore(sc.crmFloor, l.createdAt)
  {
    SortSorts(Filter(rows, (l: M.Lead) => Attributed(l) && l.contactId.Some? && NotBefore(sc.crmFloor, l.createdAt)),
              (l: M.Lead) => l.createdAt as real);
  }

  /** The won deals, each credited once to its contact's touch ad. */
  function WinCredits(sc: Scope, touch: Touch, wins: seq<C.Deal>): seq<Credit>
    requires forall d :: d in wins ==> d.contactId.Some? && d.contactId.value in touch
  {
    seq(|wins|, i requires 0 <= i < |wins| =>
      assert wins[i] in wins;
      Credit(touch[wins[i].contactId.value], DealDelta(sc, wins[i])))
  }

  lemma {:induction false} EachWinOnce(sc: Scope, touch: Touch, deals: seq<C.Deal>)
    requires forall d :: d in deals ==> d.contactId.Some? && d.contactId.value in touch
    ensures forall d :: d in Filter(deals, IsWon) ==> d.contactId.Some? && d.contactId.value in touch
    ensures DealCredits(sc, touch, deals) == WinCredits(sc, touch, Filter(deals, IsWon))
  {
    if |deals| > 0 {
      assert deals == Front(deals) + [Last(deals)];
      EachWinOnce(sc, touch, Front(deals));
    }
  }

  /**
   * Exactly-once crediting: the sales credits of a report are its won deals, one each and in order, each to
   * the ad of the contact's earliest or latest matched lead since the CRM was connected.
   */
  lemma {:induction false} WinsCreditedOnce(db: Db, range: Range, model: Model)
    ensures var sc := ScopeOf(db, range);
            var q := QueryRows(sc, db);
            var touch := TouchAds(model, q.touches);
            var wins := Filter(q.deals, IsWon);
            var credits := DealCredits(sc, touch, q.deals);
            && |credits| == |wins|
            && forall i :: 0 <= i < |wins| ==>
                 && credits[i].delta == ZERO.(sales := 1, revenue := Worth(sc, wins[i].amount, wins[i].currency))
                 && wins[i].contactId.Some?
                 && exists l :: IsTouch(model, q.touches, wins[i].contactId.value, l) && l.edge.adId == Some(credits[i].ad)
  {
    var sc := ScopeOf(db, range);
    var q := QueryRows(sc, db);
    var touch := TouchAds(model, q.touches);
    var wins := Filter(q.deals, IsWon);
    EveryWinHasTouch(db, range, model);
    EachWinOnce(sc, touch, q.deals);
    TouchLeadsExact(sc, db.leads);
    forall i | 0 <= i < |wins|
      ensures exists l :: IsTouch(model, q.touches, wins[i].contactId.value, l)
                          && l.edge.adId == Some(WinCredits(sc, touch, wins)[i].ad)
    {
      assert wins[i] in wins;
      TouchIsExtremal(model, q.touches, wins[i].contactId.value);
    }
    forall i | 0 <= i < |wins|
      ensures DealDelta(sc, wins[i]) == ZERO.(sales := 1, revenue := Worth(sc, wins[i].amount, wins[i].currency))
    {
      RevenueIsWorth(sc, wins[i]);
    }
  }

  // ---- Tenant-wide totals ----

  /** Every matched lead names an ad of the report's hierarchy. */
  ghost predicate AdsKnown(db: Db) {
    forall l :: l in db.leads && Attributed(l) ==> exists ad :: ad in db.ads && ad.id == l.edge.adId.value
  }

  function LeadTotal(leads: seq<M.Lead>, qualified: set<ContactId>): Totals {
    if |leads| == 0 then ZERO else Plus(LeadTotal(Front(leads), qualified), LeadDelta(Last(leads), qualified))
  }

  function WonTotal(sc: Scope, deals: seq<C.Deal>): Totals {
    if |deals| == 0 then ZERO
    else if IsWon(Last(deals)) then Plus(WonTotal(sc, Front(deals)), DealDelta(sc, Last(deals))) else WonTotal(sc, Front(deals))
  }

  lemma {:induction false} KnownLeads(meta: map<AdId, Meta>, leads: seq<M.Lead>, qualified: set<ContactId>)
    requires forall l :: l in leads ==> Attributed(l) && l.edge.adId.value in meta
    ensures Known(meta, LeadCredits(leads, qualified)) == LeadTotal(leads, qualified)
  {
    if |leads| > 0 {
      assert leads == Front(leads) + [Last(leads)];
      KnownLeads(meta, Front(leads), qualified);
      KnownSnoc(meta, LeadCredits(Front(leads), qualified),
                Credit(Last(leads).edge.adId.value, LeadDelta(Last(leads), qualified)));
    }
  }

  lemma {:induction false} KnownWins(sc: Scope, meta: map<AdId, Meta>, touch: Touch, deals: seq<C.Deal>)
    requires forall c :: c in touch ==> touch[c] in meta
    requires forall d :: d in deals ==> d.contactId.Some? && d.contactId.value in touch
    ensures Known(meta, DealCredits(sc, touch, deals)) == WonTotal(sc, deals)
  {
    if |deals| > 0 {
      assert deals == Front(deals) + [Last(deals)];
      KnownWins(sc, meta, touch, Front(deals));
      var d := Last(deals);
      if IsWon(d) {
        KnownSnoc(meta, DealCredits(sc, touch, Front(deals)), Credit(touch[d.contactId.value], DealDelta(sc, d)));
      } else {
        assert DealCredits(sc, touch, deals) == DealCredits(sc, touch, Front(deals));
      }
    }
  }

  lemma {:induction false} TouchAdsAreLeadAds(model: Model, leads: seq<M.Lead>)
    requires forall l :: l in leads ==> Attributed(l) && l.contactId.Some?
    ensures forall c :: c in TouchAds(model, leads) ==> exists l :: l in leads && l.edge.adId == Some(TouchAds(model, leads)[c])
  {
    if |leads| > 0 {
      assert leads == Front(leads) + [Last(leads)];
      TouchAdsAreLeadAds(model, Front(leads));
    }
  }

  lemma {:induction false} AdsInTree(db: Db, t: Tree)
    requires AdsKnown(db) && Covers(t, db.ads)
    ensures forall l :: l in db.leads && Attributed(l) ==> l.edge.adId.value in t.meta
  {
    forall l | l in db.leads && Attributed(l)
      ensures l.edge.adId.value in t.meta
    {
      var ad :| ad in db.ads && ad.id == l.edge.adId.value;
      assert Describes(t, ad);
    }
  }

  /** What the credits of a report add up to. */
  ghost function ReportTotal(sc: Scope, meta: map<AdId, Meta>, q: Rows): Totals {
    Plus(Plus(Known(meta, InsightCredits(sc, meta, GroupByAd(q.insights))),
              LeadTotal(q.leads, QualifiedContacts(q.deals))),
         WonTotal(sc, q.deals))
  }

  lemma {:induction false} CreditsTotal(sc: Scope, meta: map<AdId, Meta>, model: Model, q: Rows)
    requires Queried(q)
    requires forall l :: l in q.leads || l in q.touches ==> Attributed(l) && l.edge.adId.value in meta
    requires forall d :: d in q.deals ==> d.contactId.Some? && d.contactId.value in TouchAds(model, q.touches)
    ensures Known(meta, Credits(sc, meta, model, q)) == ReportTotal(sc, meta, q)
  {
    var a := InsightCredits(sc, meta, GroupByAd(q.insights));
    var b := LeadCredits(q.leads, QualifiedContacts(q.deals));
    var c := DealCredits(sc, TouchAds(model, q.touches), q.deals);
    KnownConcat(meta, a + b, c);
    KnownConcat(meta, a, b);
    KnownLeads(meta, q.leads, QualifiedContacts(q.deals));
    TouchAdsAreLeadAds(model, q.touches);
    KnownWins(sc, meta, TouchAds(model, q.touches), q.deals);
  }

  lemma {:induction false} TreeHasAds(ads: seq<Ad>)
    requires Joined(ads)
    ensures AdsHaveNodes(BuildTree(ads), ZeroAcc(BuildTree(ads))) && Covers(BuildTree(ads), ads)
  {
    TreeOfJoin(ads);
    HangingAdsHaveNodes(BuildTree(ads), ZeroAcc(BuildTree(ads)));
  }

  lemma {:induction false} QueriedLeadsAreRows(sc: Scope, db: Db)
    ensures forall l :: l in QueryRows(sc, db).leads || l in QueryRows(sc, db).touches ==> l in db.leads && Attributed(l)
  {
    TouchLeadsExact(sc, db.leads);
  }

  /** The ad rows of a report sum to its spend, its leads and its won deals, under either model. */
  lemma {:induction false} AdRowsTotal(db: Db, range: Range, model: Model)
    requires Joined(db.ads) && AdsKnown(db)
    ensures var sc, t := ScopeOf(db, range), BuildTree(db.ads);
            && AdsHaveNodes(t, Accumulated(db, range, model))
            && AdTotal(t, Accumulated(db, range, model)) == ReportTotal(sc, t.meta, QueryRows(sc, db))
  {
    var sc, t := ScopeOf(db, range), BuildTree(db.ads);
    var q := QueryRows(sc, db);
    TreeHasAds(db.ads);
    AdsInTree(db, t);
    QueriedLeadsAreRows(sc, db);
    EveryWinHasTouch(db, range, model);
    CreditsTotal(sc, t.meta, model, q);
    FromZero(t, Credits(sc, t.meta, model, q));
  }

  lemma {:induction false} FromZero(t: Tree, cs: seq<Credit>)
    requires AdsHaveNodes(t, ZeroAcc(t))
    ensures AdsHaveNodes(t, AddUpAll(ZeroAcc(t), t.meta, cs))
    ensures AdTotal(t, AddUpAll(ZeroAcc(t), t.meta, cs)) == Known(t.meta, cs)
  {
    AdRowsSum(t, ZeroAcc(t), cs);
    SumOfZeros(AdNodes(t), ZeroAcc(t));
    PlusZero(Known(t.meta, cs));
  }

  /** First and last touch move sales between ads but agree on every tenant-wide total. */
  lemma {:induction false} ModelsAgree(db: Db, range: Range)
    requires Joined(db.ads) && AdsKnown(db)
    ensures var t := BuildTree(db.ads);
            && AdsHaveNodes(t, Accumulated(db, range, FirstTouch)) && AdsHaveNodes(t, Accumulated(db, range, LastTouch))
            && AdTotal(t, Accumulated(db, range, FirstTouch)) == AdTotal(t, Accumulated(db, range, LastTouch))
  {
    AdRowsTotal(db, range, FirstTouch);
    AdRowsTotal(db, range, LastTouch);
  }

  lemma {:induction false} AdRowFromZero(t: Tree, cs: seq<Credit>, ad: AdId)
    requires ad in t.meta && AdNode(ad) in t.info
    ensures AdNode(ad) in AddUpAll(ZeroAcc(t), t.meta, cs)
    ensures AddUpAll(ZeroAcc(t), t.meta, cs)[AdNode(ad)] == CreditedTo(cs, ad)
  {
    AdRowExact(t, ZeroAcc(t), cs, ad);
    PlusZero(CreditedTo(cs, ad));
  }

  /** One ad's row holds exactly its own credits. */
  lemma {:induction false} AdRowIsItsCredits(db: Db, range: Range, model: Model, ad: Ad)
    requires Joined(db.ads) && ad in db.ads
    ensures var sc, t := ScopeOf(db, range), BuildTree(db.ads);
            && AdNode(ad.id) in Accumulated(db, range, model)
            && Accumulated(db, range, model)[AdNode(ad.id)]
            == CreditedTo(Credits(sc, t.meta, model, QueryRows(sc, db)), ad.id)
  {
    var sc, t := ScopeOf(db, range), BuildTree(db.ads);
    TreeOfJoin(db.ads);
    assert Describes(t, ad);
    assert PathOf(t, ad.id);
    AdRowFromZero(t, Credits(sc, t.meta, model, QueryRows(sc, db)), ad.id);
  }

  // ---- Connection floors ----

  /** The database without the insights before the Meta floor and the leads and deals before the CRM floor. */
  function Trimmed(db: Db): Db {
    var metaFloor, crmFloor := FloorOf(db.accountDates), FloorOf(db.crmDates);
    db.(insights := Filter(db.insights, (r: Insight) => NotBefore(metaFloor, r.date)),
        leads := Filter(db.leads, (l: M.Lead) => NotBefore(crmFloor, l.createdAt)),
        deals := Filter(db.deals, (d: C.Deal) => NotBefore(crmFloor, d.createdAt)))
  }

  lemma {:induction false} TrimmedQueries(db: Db, range: Range)
    ensures ScopeOf(Trimmed(db), range) == ScopeOf(db, range)
    ensures QueryRows(ScopeOf(db, range), Trimmed(db)) == QueryRows(ScopeOf(db, range), db)
  {
    var sc := ScopeOf(db, range);
    FilterFiltered(db.insights, (r: Insight) => NotBefore(sc.metaFloor, r.date),
                   (r: Insight) => sc.spendFrom <= r.date <= sc.until);
    FilterFiltered(db.leads, (l: M.Lead) => NotBefore(sc.crmFloor, l.createdAt),
                   (l: M.Lead) => Attributed(l) && sc.leadFrom <= l.createdAt <= sc.until);
    FilterFiltered(db.leads, (l: M.Lead) => NotBefore(sc.crmFloor, l.createdAt),
                   (l: M.Lead) => Attributed(l) && l.contactId.Some? && NotBefore(sc.crmFloor, l.createdAt));
    TrimmedDeals(sc, db.deals, ContactsOf(LeadsInRange(sc, db.leads)));
  }

  lemma {:induction false} TrimmedDeals(sc: Scope, rows: seq<C.Deal>, contacts: set<ContactId>)
    ensures DealsOf(sc, Filter(rows, (d: C.Deal) => NotBefore(sc.crmFloor, d.createdAt)), contacts) == DealsOf(sc, rows, contacts)
  {
    FilterFiltered(rows, (d: C.Deal) => NotBefore(sc.crmFloor, d.createdAt),
                   (d: C.Deal) => d.contactId.Some? && d.contactId.value in contacts && NotBefore(sc.crmFloor, d.createdAt));
  }

  /** Rows from before a connection never show: without them the report is the same, for any range and model. */
  lemma {:induction false} FloorsHideOldRows(db: Db, range: Range, model: Model)
    ensures Report(Trimmed(db), range, model) == Report(db, range, model)
  {
    TrimmedQueries(db, range);
  }
}
