/** The metrics service (apps/api/src/metrics/metrics.service.ts): the reports as loops over the queried rows. */
module MetricsService {
  import opened Common
  import opened Accumulators
  import opened MetricsData
  import M = Matching
  import C = CrmSync
  import P = Performance
  import H = Cohorts
  import I = CreativeInsights

  class MetricsService {
    const db: Db

    constructor (db: Db)
      ensures this.db == db
    {
      this.db := db;
    }

    method LoadFx() returns (fx: Fx)
      ensures fx == FirstRates(RatesNewestFirst(db.rates))
    {
      var rates := RatesNewestFirst(db.rates);
      fx := map[];
      for i := 0 to |rates|
        invariant fx == FirstRates(rates[..i])
      {
        assert Front(rates[..i + 1]) == rates[..i];
        var key := (rates[i].base, rates[i].quote);
        if key !in fx {
          fx := fx[key := rates[i].rate];
        }
      }
      assert rates[..|rates|] == rates;
    }

    method ReadScope(range: Range) returns (sc: Scope)
      ensures sc == ScopeOf(db, range)
    {
      var fx := LoadFx();
      var metaFloor, crmFloor := FloorOf(db.accountDates), FloorOf(db.crmDates);
      sc := Scope(ReportCurrency(db), fx, metaFloor, crmFloor,
                  LaterOf(StartOf(range), metaFloor), LaterOf(StartOf(range), crmFloor), EndOf(range));
    }

    method EnsureNode(tree: P.Tree, acc: P.Acc, n: P.Node, i: P.Info) returns (tree': P.Tree, acc': P.Acc)
      requires acc == P.ZeroAcc(tree) && forall m :: m in tree.order <==> m in tree.info
      ensures tree' == P.Ensure(tree, n, i) && acc' == P.ZeroAcc(tree')
      ensures forall m :: m in tree'.order <==> m in tree'.info
    {
      tree', acc' := tree, acc;
      if n !in acc {
        tree' := P.Tree(tree.order + [n], tree.info[n := i], tree.meta);
        acc' := acc[n := ZERO];
      }
      assert tree'.info == map[n := i] + tree.info;
    }

    method AddAdNodes(tree: P.Tree, acc: P.Acc, ad: Ad) returns (tree': P.Tree, acc': P.Acc)
      requires acc == P.ZeroAcc(tree) && forall m :: m in tree.order <==> m in tree.info
      ensures tree' == P.AddAd(tree, ad) && acc' == P.ZeroAcc(tree')
      ensures forall m :: m in tree'.order <==> m in tree'.info
    {
      tree', acc' := EnsureNode(tree, acc, P.AdNode(ad.id), P.Info(ad.name, Some(P.AdSetNode(ad.adSet.id))));
      tree', acc' := EnsureNode(tree', acc', P.AdSetNode(ad.adSet.id),
        P.Info(ad.adSet.name, Some(P.CampaignNode(ad.adSet.campaign.id))));
      tree', acc' := EnsureNode(tree', acc', P.CampaignNode(ad.adSet.campaign.id), P.Info(ad.adSet.campaign.name, None));
      tree' := tree'.(meta := tree'.meta[ad.id := P.Meta(ad.adSet.id, ad.adSet.campaign.id, ad.adSet.campaign.currency)]);
    }

    method BuildHierarchy() returns (tree: P.Tree, acc: P.Acc)
      ensures tree == P.BuildTree(db.ads) && acc == P.ZeroAcc(tree)
    {
      tree, acc := P.Tree([], map[], map[]), map[];
      for i := 0 to |db.ads|
        invariant tree == P.BuildTree(db.ads[..i]) && acc == P.ZeroAcc(tree)
        invariant forall m :: m in tree.order <==> m in tree.info
      {
        assert Front(db.ads[..i + 1]) == db.ads[..i];
        tree, acc := AddAdNodes(tree, acc, db.ads[i]);
      }
      assert db.ads[..|db.ads|] == db.ads;
    }

    /** addUp: the same amount on the ad, its ad set and its campaign. */
    method AddUp(acc: P.Acc, meta: map<AdId, P.Meta>, ad: AdId, delta: Totals) returns (acc': P.Acc)
      ensures acc' == P.AddUp(acc, meta, P.Credit(ad, delta))
    {
      acc' := acc;
      if ad !in meta {
        return;
      }
      var path := [P.AdNode(ad), P.AdSetNode(meta[ad].adSet), P.CampaignNode(meta[ad].campaign)];
      for i := 0 to 3
        invariant acc'.Keys == acc.Keys
        invariant forall n :: n in acc ==> acc'[n] == if n in path[..i] then Plus(acc[n], delta) else acc[n]
      {
        if path[i] in acc' {
          acc' := acc'[path[i] := Plus(acc'[path[i]], delta)];
        }
      }
      assert path[..3] == path;
    }

    method CreditInsights(sc: Scope, meta: map<AdId, P.Meta>, acc: P.Acc, rows: seq<Insight>) returns (acc': P.Acc)
      ensures acc' == P.AddUpAll(acc, meta, P.InsightCredits(sc, meta, GroupByAd(rows)))
    {
      var groups := GroupByAd(rows);
      acc' := acc;
      for i := 0 to |groups|
        invariant acc' == P.AddUpAll(acc, meta, P.InsightCredits(sc, meta, groups[..i]))
      {
        CreditGroupStep(sc, meta, acc, groups, i);
        var g := groups[i];
        var currency := if g.adId in meta then meta[g.adId].currency else sc.currency;
        var delta := Totals(Convert(sc, g.spend, currency), g.impressions, g.clicks, 0, 0, 0, 0.0);
        acc' := AddUp(acc', meta, g.adId, delta);
      }
      assert groups[..|groups|] == groups;
    }

    method AttributeContacts(model: Model, leads: seq<M.Lead>) returns (contactAd: P.Touch)
      requires forall l :: l in leads ==> Attributed(l) && l.contactId.Some?
      ensures contactAd == P.TouchAds(model, leads)
    {
      contactAd := map[];
      for i := 0 to |leads|
        invariant contactAd == P.TouchAds(model, leads[..i])
      {
        assert Front(leads[..i + 1]) == leads[..i] && leads[i] in leads;
        var c, ad := leads[i].contactId.value, leads[i].edge.adId.value;
        if model.FirstTouch? {
          if c !in contactAd {
            contactAd := contactAd[c := ad];
          }
        } else {
          contactAd := contactAd[c := ad];
        }
      }
      assert leads[..|leads|] == leads;
    }

    method FindQualified(deals: seq<C.Deal>) returns (qualified: set<ContactId>)
      ensures qualified == QualifiedContacts(deals)
    {
      qualified := {};
      for i := 0 to |deals|
        invariant qualified == QualifiedContacts(deals[..i])
      {
        QualifiedSnoc(deals[..i], deals[i]);
        assert deals[..i + 1] == deals[..i] + [deals[i]];
        if Qualifies(deals[i]) {
          qualified := qualified + {deals[i].contactId.value};
        }
      }
      assert deals[..|deals|] == deals;
    }

    method CreditLeads(meta: map<AdId, P.Meta>, acc: P.Acc, leads: seq<M.Lead>, qualified: set<ContactId>) returns (acc': P.Acc)
      requires forall l :: l in leads ==> Attributed(l)
      ensures acc' == P.AddUpAll(acc, meta, P.LeadCredits(leads, qualified))
    {
      acc' := acc;
      for i := 0 to |leads|
        invariant acc' == P.AddUpAll(acc, meta, P.LeadCredits(leads[..i], qualified))
      {
        assert Front(leads[..i + 1]) == leads[..i] && leads[i] in leads;
        var delta := P.LeadDelta(leads[i], qualified);
        ghost var before := P.LeadCredits(leads[..i], qualified);
        assert Front(before + [P.Credit(leads[i].edge.adId.value, delta)]) == before;
        acc' := AddUp(acc', meta, leads[i].edge.adId.value, delta);
      }
      assert leads[..|leads|] == leads;
    }

    method CreditDeals(sc: Scope, meta: map<AdId, P.Meta>, acc: P.Acc, contactAd: P.Touch, deals: seq<C.Deal>) returns (acc': P.Acc)
      ensures acc' == P.AddUpAll(acc, meta, P.DealCredits(sc, contactAd, deals))
    {
      acc' := acc;
      for i := 0 to |deals|
        invariant acc' == P.AddUpAll(acc, meta, P.DealCredits(sc, contactAd, deals[..i]))
      {
        assert Front(deals[..i + 1]) == deals[..i];
        var d := deals[i];
        ghost var before := P.DealCredits(sc, contactAd, deals[..i]);
        if !IsWon(d) || d.contactId.value !in contactAd {
          assert before + [] == before;
          continue;
        }
        var adId, delta := contactAd[d.contactId.value], ZERO.(sales := 1, revenue := RevenueOf(sc, d));
        assert Front(before + [P.Credit(adId, delta)]) == before;
        acc' := AddUp(acc', meta, adId, delta);
      }
      assert deals[..|deals|] == deals;
    }

    method Performance(range: Range, model: Model) returns (rows: seq<P.Row>)
      ensures rows == P.Report(db, range, model)
    {
      var sc := ReadScope(range);
      var tree, acc0 := BuildHierarchy();
      var acc1 := CreditInsights(sc, tree.meta, acc0, InsightsInRange(sc, db.insights));
      ghost var q := P.QueryRows(sc, db);
      var touches := TouchLeads(sc, db.leads);
      var contactAd := AttributeContacts(model, touches);
      var leads := LeadsInRange(sc, db.leads);
      var deals := DealsOf(sc, db.deals, ContactsOf(leads));
      var qualified := FindQualified(deals);
      var acc2 := CreditLeads(tree.meta, acc1, leads, qualified);
      var acc3 := CreditDeals(sc, tree.meta, acc2, contactAd, deals);
      CreditsInOrder(sc, tree.meta, model, q, acc0);
      P.OrderIsInfo(db.ads);
      P.AccumulatedNodes(db, range, model);
      rows := P.RowsOf(tree, acc3, tree.order);
    }

    method CohortReport(range: Range) returns (rows: seq<H.Row>)
      ensures rows == H.Report(db, range)
    {
      var sc := ReadScope(range);
      var weeks := FillWeeks(sc, H.CohortLeads(sc, db.leads));
      H.TableSums(db, range);
      rows := SortedWeeks(weeks);
    }

    method FillWeeks(sc: Scope, leads: seq<M.Lead>) returns (weeks: H.Weeks)
      requires leads == H.CohortLeads(sc, db.leads)
      ensures weeks == H.TableOf(sc, H.QueryRows(sc, db))
    {
      var v;
      weeks, v := CountLeads(leads);
      H.VintagesAreListed(leads);
      var deals := DealsOf(sc, db.deals, H.ContactsIn(v));
      var qualified, won := CollectOutcomes(sc, deals);
      weeks := CountContacts(weeks, v.week, v.order, qualified, won);
      weeks := CountSpend(sc, weeks, InsightsInRange(sc, db.insights));
    }

    method SortedWeeks(weeks: H.Weeks) returns (rows: seq<H.Row>)
      requires forall w :: w in weeks.order ==> w in weeks.rows
      ensures rows == H.SortedRows(weeks)
    {
      SortSorts(weeks.order, H.WeekKey);
      rows := H.RowsOf(weeks, SortBy(weeks.order, H.WeekKey));
    }

    method CountLeads(leads: seq<M.Lead>) returns (weeks: H.Weeks, v: H.Vintages)
      ensures weeks == H.CountLeads(H.NO_WEEKS, leads) && v == H.VintagesOf(leads)
    {
      weeks, v := H.NO_WEEKS, H.Vintages([], map[]);
      for i := 0 to |leads|
        invariant weeks == H.CountLeads(H.NO_WEEKS, leads[..i]) && v == H.VintagesOf(leads[..i])
      {
        assert Front(leads[..i + 1]) == leads[..i];
        var w := MondayOf(leads[i].createdAt);
        weeks := AddTo(weeks, w, ZERO.(leads := 1));
        if leads[i].contactId.Some? && leads[i].contactId.value !in v.week {
          v := H.Vintages(v.order + [leads[i].contactId.value], v.week[leads[i].contactId.value := w]);
        }
      }
      assert leads[..|leads|] == leads;
    }

    method RecordWin(won: H.Wins, c: ContactId, revenue: real) returns (won': H.Wins)
      ensures won' == won[c := Plus(H.WinsOfContact(won, c), ZERO.(sales := 1, revenue := revenue))]
    {
      var cur := if c in won then won[c] else ZERO;
      won' := won[c := cur.(sales := cur.sales + 1, revenue := cur.revenue + revenue)];
    }

    method CollectOutcomes(sc: Scope, deals: seq<C.Deal>) returns (qualified: set<ContactId>, won: H.Wins)
      ensures qualified == QualifiedContacts(deals) && won == H.WinsOf(sc, deals)
    {
      qualified, won := {}, map[];
      for i := 0 to |deals|
        invariant qualified == QualifiedContacts(deals[..i]) && won == H.WinsOf(sc, deals[..i])
      {
        var d := deals[i];
        QualifiedSnoc(deals[..i], d);
        WinsSnoc(sc, deals[..i], d);
        assert deals[..i + 1] == deals[..i] + [d];
        if Qualifies(d) {
          qualified := qualified + {d.contactId.value};
        }
        if IsWon(d) {
          won := RecordWin(won, d.contactId.value, RevenueOf(sc, d));
        }
      }
      assert deals[..|deals|] == deals;
    }

    method CountContact(weeks: H.Weeks, w: int, c: ContactId, qualified: set<ContactId>, won: H.Wins) returns (weeks': H.Weeks)
      ensures weeks' == AddTo(weeks, w, H.ContactDelta(c, qualified, won))
    {
      var row := if w in weeks.rows then weeks.rows[w] else ZERO;
      var wins := if c in won then won[c] else ZERO;
      ContactAdds(row, c in qualified, wins);
      AddsRow(weeks, w, H.ContactDelta(c, qualified, won));
      row := WithOutcomes(row, c in qualified, wins);
      weeks' := Table(if w in weeks.rows then weeks.order else weeks.order + [w], weeks.rows[w := row]);
    }

    method CountContacts(weeks: H.Weeks, week: map<ContactId, int>, order: seq<ContactId>, qualified: set<ContactId>, won: H.Wins)
      returns (weeks': H.Weeks)
      requires forall c :: c in order ==> c in week
      ensures weeks' == H.CountContacts(weeks, week, order, qualified, won)
    {
      weeks' := weeks;
      for i := 0 to |order|
        invariant weeks' == H.CountContacts(weeks, week, order[..i], qualified, won)
      {
        assert order[..i + 1] == order[..i] + [order[i]];
        CountContactsSnoc(weeks, week, order[..i], order[i], qualified, won);
        weeks' := CountContact(weeks', week[order[i]], order[i], qualified, won);
      }
      assert order[..|order|] == order;
    }

    method CountSpend(sc: Scope, weeks: H.Weeks, rows: seq<Insight>) returns (weeks': H.Weeks)
      ensures weeks' == H.CountSpend(sc, weeks, rows)
    {
      weeks' := weeks;
      for i := 0 to |rows|
        invariant weeks' == H.CountSpend(sc, weeks, rows[..i])
      {
        assert Front(rows[..i + 1]) == rows[..i];
        weeks' := AddTo(weeks', MondayOf(rows[i].date), ZERO.(spend := Convert(sc, rows[i].spend, rows[i].currency)));
      }
      assert rows[..|rows|] == rows;
    }

    method CreativeReport(range: Range, dimension: Dimension, model: Model) returns (out: seq<I.Row>)
      ensures out == I.Report(db, range, dimension, model)
    {
      var rows := Performance(range, model);
      var dims := I.DimensionByAd(db.ads, dimension);
      var groups := I.NO_GROUPS;
      for i := 0 to |rows|
        invariant groups == I.GroupRows(dims, rows[..i])
      {
        assert Front(rows[..i + 1]) == rows[..i];
        if !rows[i].node.AdNode? {
          continue;
        }
        var value := I.GroupName(dims, rows[i].node.ad);
        groups := AddTo(groups, value, rows[i].totals);
      }
      assert rows[..|rows|] == rows;
      I.GroupsListed(dims, rows);
      out := SortBy(I.RowsOf(groups, groups.order), I.RoasKey);
    }
  }

  lemma {:induction false} CreditGroupStep(sc: Scope, meta: map<AdId, P.Meta>, acc: P.Acc, groups: seq<Group>, i: nat)
    requires i < |groups|
    ensures var g := groups[i];
            var currency := if g.adId in meta then meta[g.adId].currency else sc.currency;
            P.AddUpAll(acc, meta, P.InsightCredits(sc, meta, groups[..i + 1]))
            == P.AddUp(P.AddUpAll(acc, meta, P.InsightCredits(sc, meta, groups[..i])), meta,
                       P.Credit(g.adId, Totals(Convert(sc, g.spend, currency), g.impressions, g.clicks, 0, 0, 0, 0.0)))
  {
    assert Front(groups[..i + 1]) == groups[..i];
    var before := P.InsightCredits(sc, meta, groups[..i]);
    var credit := Last(P.InsightCredits(sc, meta, groups[..i + 1]));
    assert Front(before + [credit]) == before;
  }

  lemma {:induction false} QualifiedSnoc(deals: seq<C.Deal>, d: C.Deal)
    ensures QualifiedContacts(deals + [d]) == QualifiedContacts(deals) + (if Qualifies(d) then {d.contactId.value} else {})
  {
  }

  function WithOutcomes(t: Totals, qualified: bool, wins: Totals): Totals {
    t.(qualified := t.qualified + (if qualified then 1 else 0), sales := t.sales + wins.sales, revenue := t.revenue + wins.revenue)
  }

  lemma {:induction false} ContactAdds(t: Totals, qualified: bool, wins: Totals)
    ensures WithOutcomes(t, qualified, wins)
         == Plus(t, ZERO.(qualified := if qualified then 1 else 0, sales := wins.sales, revenue := wins.revenue))
  {
  }

  lemma {:induction false} AddsRow(weeks: H.Weeks, w: int, d: Totals)
    ensures var row := Plus(if w in weeks.rows then weeks.rows[w] else ZERO, d);
            AddTo(weeks, w, d) == Table(if w in weeks.rows then weeks.order else weeks.order + [w], weeks.rows[w := row])
  {
  }

  lemma {:induction false} WinsSnoc(sc: Scope, deals: seq<C.Deal>, d: C.Deal)
    ensures H.WinsOf(sc, deals + [d]) == H.AddWin(sc, H.WinsOf(sc, deals), d)
  {
    assert Front(deals + [d]) == deals;
  }

  lemma {:induction false} CountContactsSnoc(weeks: H.Weeks, week: map<ContactId, int>, order: seq<ContactId>, c: ContactId,
                                             qualified: set<ContactId>, won: H.Wins)
    requires c in week && forall o :: o in order ==> o in week
    ensures forall o :: o in order + [c] ==> o in week
    ensures H.CountContacts(weeks, week, order + [c], qualified, won)
         == AddTo(H.CountContacts(weeks, week, order, qualified, won), week[c], H.ContactDelta(c, qualified, won))
  {
    assert Front(order + [c]) == order;
  }

  /** Crediting insights, leads and deals one after the other is crediting their concatenation. */
  lemma {:induction false} CreditsInOrder(sc: Scope, meta: map<AdId, P.Meta>, model: Model, q: P.Rows, acc: P.Acc)
    requires P.Queried(q)
    ensures P.AddUpAll(P.AddUpAll(P.AddUpAll(acc, meta, P.InsightCredits(sc, meta, GroupByAd(q.insights))), meta,
                                  P.LeadCredits(q.leads, QualifiedContacts(q.deals))), meta,
                       P.DealCredits(sc, P.TouchAds(model, q.touches), q.deals))
         == P.AddUpAll(acc, meta, P.Credits(sc, meta, model, q))
  {
    var a := P.InsightCredits(sc, meta, GroupByAd(q.insights));
    var b := P.LeadCredits(q.leads, QualifiedContacts(q.deals));
    var c := P.DealCredits(sc, P.TouchAds(model, q.touches), q.deals);
    P.AddUpConcat(acc, meta, a, b);
    P.AddUpConcat(acc, meta, a + b, c);
  }
}
