/**
 * What every run of lead ingestion, matching and manual resolution keeps: a matched lead has an ad of its own
 * tenant, a method, enough confidence, and an audit row that says the same.
 */
module MatchingSafety {
  import opened Common
  import opened MatchDecision
  import opened Matching
  import opened MatchingConvergence
  import CrmSync
  import UpsertTable

  datatype World = World(cat: Catalog, db: Db)

  datatype Event =
    | LeadStored(t: TenantId, raw: CrmSync.RawLead, contactId: Option<ContactId>)
    | RunMade(t: TenantId, order: seq<LeadKey>)
    | ResolvedByHand(t: TenantId, k: LeadKey, ad: AdId, user: string)
    | AdsStored(ads: seq<Ad>)
    | SpendStored(insights: seq<DaySpend>)

  /** What upsertLead does to the lead table once the record's contact is known. */
  function LeadsAfter(ads: seq<Ad>, leads: map<LeadKey, Lead>, t: TenantId, raw: CrmSync.RawLead, c: Option<ContactId>): map<LeadKey, Lead> {
    if !Truthy(raw.externalId) then leads
    else UpsertTable.Upsert(leads, CrmSync.RecordOf(ads, t, raw, c), CrmSync.KeyOfLead, CrmSync.MakeLead, CrmSync.WriteLead)
  }

  /** An ingest of ads adds and rewrites rows, but an ad's id and tenant never change and no ad goes. */
  ghost predicate KeepsAds(ads: seq<Ad>, later: seq<Ad>) {
    forall a :: a in ads ==> IsAdOf(later, a.tenant, a.id)
  }

  ghost predicate Next(w: World, e: Event, w': World) {
    match e
    case LeadStored(t, raw, c) => w' == w.(db := w.db.(leads := LeadsAfter(w.cat.ads, w.db.leads, t, raw, c)))
    case RunMade(t, order) => w'.cat == w.cat && MatchRun(w.cat, t, w.db, order, w'.db)
    case ResolvedByHand(t, k, ad, user) =>
      var r := ResolveManual(w.cat, w.db, t, k, ad, user);
      w' == if r.Ok? then w.(db := r.value) else w
    case AdsStored(ads) => KeepsAds(w.cat.ads, ads) && w' == w.(cat := w.cat.(ads := ads))
    case SpendStored(insights) => w' == w.(cat := w.cat.(insights := insights))
  }

  /** worlds lists a whole history: each event leads from one world to the next. */
  ghost predicate History(worlds: seq<World>, es: seq<Event>) {
    && |worlds| == |es| + 1
    && forall i :: 0 <= i < |es| ==> Next(worlds[i], es[i], worlds[i + 1])
  }

  function LatestAudit(audits: seq<Audit>, k: LeadKey): Option<Audit> {
    if |audits| == 0 then None
    else if Last(audits).lead == k then Some(Last(audits)) else LatestAudit(Front(audits), k)
  }

  predicate IsAdOf(ads: seq<Ad>, t: TenantId, ad: AdId) {
    exists a | a in ads :: a.id == ad && a.tenant == t
  }

  ghost predicate SafeLead(cat: Catalog, audits: seq<Audit>, k: LeadKey, lead: Lead) {
    var e := lead.edge;
    && (e.adId.Some? ==> IsAdOf(cat.ads, k.tenant, e.adId.value))
    && (e.status == Matched ==>
          && e.adId.Some? && e.via.Some? && e.confidence.Some? && e.confidence.value >= REVIEW_THRESHOLD
          && LatestAudit(audits, k).Some?
          && LatestAudit(audits, k).value.via == e.via.value
          && LatestAudit(audits, k).value.confidence == e.confidence.value)
    && (e.status == Review ==> e.adId.Some? && e.confidence.Some? && e.confidence.value < REVIEW_THRESHOLD)
  }

  ghost predicate Safe(cat: Catalog, db: Db) {
    forall k :: k in db.leads ==> SafeLead(cat, db.audits, k, db.leads[k])
  }

  /** An ad chosen from safe leads and the tenant's ads is an ad of the tenant. */
  lemma {:induction false} DecidedAdIsOfTenant(cat: Catalog, t: TenantId, db: Db, k: LeadKey, sibling: Option<AdId>)
    requires Safe(cat, db) && k in db.leads && k.tenant == t && SiblingChoice(db.leads, t, k, sibling)
    ensures var d := Decide(cat, t, db.leads[k], sibling); d.adId.Some? ==> IsAdOf(cat.ads, t, d.adId.value)
  {
    var lead := db.leads[k];
    DecisionShape(cat, t, lead, sibling);
    assert SafeLead(cat, db.audits, k, lead);
    if SelfEvidence(lead) {
    } else if sibling.Some? {
      var k2 :| k2 in db.leads && IsSibling(db.leads, t, k, k2) && db.leads[k2].edge.adId == sibling;
      assert SafeLead(cat, db.audits, k2, db.leads[k2]);
    } else {
      UtmAdIsOfTenant(cat, t, lead);
    }
  }

  lemma {:induction false} UtmAdIsOfTenant(cat: Catalog, t: TenantId, lead: Lead)
    ensures var c := UtmCandidate(cat, t, lead); c.Some? ==> IsAdOf(cat.ads, t, c.value.adId)
  {
    var c := UtmCandidate(cat, t, lead);
    if c.Some? {
      var content := lead.signals.utmContent.value;
      if AdByExternalId(cat.ads, t, content).None? {
        var byName := Filter(cat.ads, (a: Ad) => a.tenant == t && a.name == content);
        assert byName[0] in byName;
        assert forall a :: a in byName ==> a in cat.ads && a.tenant == t;
      }
    }
  }

  lemma {:induction false} AuditAppended(audits: seq<Audit>, a: Audit, k: LeadKey)
    ensures LatestAudit(audits + [a], k) == if a.lead == k then Some(a) else LatestAudit(audits, k)
  {
    assert Front(audits + [a]) == audits;
  }

  lemma {:induction false} StepKeepsSafe(cat: Catalog, t: TenantId, s: Db, k: LeadKey, s': Db)
    requires Safe(cat, s) && Step(cat, t, s, k, s') && k.tenant == t
    ensures Safe(cat, s')
  {
    var sibling :| SiblingChoice(s.leads, t, k, sibling) && s' == Apply(t, s, k, Decide(cat, t, s.leads[k], sibling));
    var d := Decide(cat, t, s.leads[k], sibling);
    DecidedAdIsOfTenant(cat, t, s, k, sibling);
    DecisionAgrees(cat, t, s.leads[k], sibling);
    DecidedRowIsSafe(cat, t, s, k, d);
  }

  lemma {:induction false} DecidedRowIsSafe(cat: Catalog, t: TenantId, s: Db, k: LeadKey, d: Decision)
    requires Safe(cat, s) && k in s.leads && k.tenant == t
    requires d.adId.Some? ==> IsAdOf(cat.ads, t, d.adId.value)
    requires d.via.Some? <==> d.adId.Some?
    requires d.status in {Matched, Review} ==> d.adId.Some?
    requires d.status == Matched ==> d.confidence >= REVIEW_THRESHOLD
    requires d.status == Review ==> d.confidence < REVIEW_THRESHOLD
    ensures Safe(cat, Apply(t, s, k, d))
  {
    var s' := Apply(t, s, k, d);
    forall j | j in s'.leads
      ensures SafeLead(cat, s'.audits, j, s'.leads[j])
    {
      if d.adId.Some? {
        AuditAppended(s.audits, Audit(t, k, d.via.value, d.confidence, "engine"), j);
      } else {
        assert s'.audits == s.audits;
      }
      assert j != k ==> SafeLead(cat, s.audits, j, s.leads[j]);
    }
  }

  lemma {:induction false} BeforeLastStep(cat: Catalog, t: TenantId, s: Db, order: seq<LeadKey>, s': Db) returns (m: Db)
    requires Run(cat, t, s, order, s') && |order| > 0
    ensures Run(cat, t, s, Front(order), m) && Step(cat, t, m, Last(order), s')
  {
    m :| Run(cat, t, s, Front(order), m) && Step(cat, t, m, Last(order), s');
  }

  lemma {:induction false} RunKeepsSafe(cat: Catalog, t: TenantId, s: Db, order: seq<LeadKey>, s': Db)
    requires Safe(cat, s) && Run(cat, t, s, order, s')
    requires forall i :: 0 <= i < |order| ==> order[i].tenant == t
    ensures Safe(cat, s')
  {
    if |order| > 0 {
      var m := BeforeLastStep(cat, t, s, order, s');
      RunKeepsSafe(cat, t, s, Front(order), m);
      StepKeepsSafe(cat, t, m, Last(order), s');
    }
  }

  lemma {:induction false} StoredLeadIsSafe(w: World, t: TenantId, raw: CrmSync.RawLead, c: Option<ContactId>)
    requires Safe(w.cat, w.db)
    ensures Safe(w.cat, w.db.(leads := LeadsAfter(w.cat.ads, w.db.leads, t, raw, c)))
  {
    var leads := LeadsAfter(w.cat.ads, w.db.leads, t, raw, c);
    forall k | k in leads
      ensures SafeLead(w.cat, w.db.audits, k, leads[k])
    {
      if k in w.db.leads { assert SafeLead(w.cat, w.db.audits, k, w.db.leads[k]); }
    }
  }

  lemma {:induction false} ResolvedLeadIsSafe(w: World, t: TenantId, k: LeadKey, ad: AdId, user: string)
    requires Safe(w.cat, w.db)
    ensures var r := ResolveManual(w.cat, w.db, t, k, ad, user); r.Ok? ==> Safe(w.cat, r.value)
  {
    var r := ResolveManual(w.cat, w.db, t, k, ad, user);
    if r.Ok? {
      forall j | j in r.value.leads
        ensures SafeLead(w.cat, r.value.audits, j, r.value.leads[j])
      {
        AuditAppended(w.db.audits, Audit(t, k, Manual, 1.0, user), j);
        assert SafeLead(w.cat, w.db.audits, j, w.db.leads[j]);
      }
    }
  }

  lemma {:induction false} NextKeepsSafe(w: World, e: Event, w': World)
    requires Safe(w.cat, w.db) && Next(w, e, w')
    ensures Safe(w'.cat, w'.db)
  {
    match e
    case LeadStored(t, raw, c) => StoredLeadIsSafe(w, t, raw, c);
    case RunMade(t, order) =>
      assert forall i :: 0 <= i < |order| ==> order[i] in order;
      RunKeepsSafe(w.cat, t, w.db, order, w'.db);
    case ResolvedByHand(t, k, ad, user) => ResolvedLeadIsSafe(w, t, k, ad, user);
    case AdsStored(_) =>
      forall k | k in w'.db.leads
        ensures SafeLead(w'.cat, w'.db.audits, k, w'.db.leads[k])
      {
        assert SafeLead(w.cat, w.db.audits, k, w.db.leads[k]);
      }
    case SpendStored(_) =>
      forall k | k in w'.db.leads
        ensures SafeLead(w'.cat, w'.db.audits, k, w'.db.leads[k])
      {
        assert SafeLead(w.cat, w.db.audits, k, w.db.leads[k]);
      }
  }

  /** Match-state safety in every world of every history that starts with no lead. */
  lemma {:induction false} AlwaysSafe(worlds: seq<World>, es: seq<Event>, i: nat)
    requires History(worlds, es) && worlds[0].db.leads == map[] && i < |worlds|
    ensures Safe(worlds[i].cat, worlds[i].db)
  {
    if i > 0 {
      AlwaysSafe(worlds, es, i - 1);
      NextKeepsSafe(worlds[i - 1], es[i - 1], worlds[i]);
    }
  }

  /** Only a manual resolution of that lead changes the edge of a matched lead. */
  lemma {:induction false} MatchedEdgeIsKept(w: World, e: Event, w': World, k: LeadKey)
    requires Next(w, e, w')
    requires k in w.db.leads && w.db.leads[k].edge.status == Matched
    requires e.ResolvedByHand? ==> e.k != k
    ensures k in w'.db.leads && w'.db.leads[k].edge == w.db.leads[k].edge
  {
    if e.RunMade? {
      RunFrame(w.cat, e.t, w.db, e.order, w'.db);
    }
  }

  /** Over a stretch of history without a manual resolution of k, a matched lead k keeps its edge. */
  lemma {:induction false} MatchedStaysMatched(worlds: seq<World>, es: seq<Event>, k: LeadKey, i: nat, j: nat)
    requires History(worlds, es) && i <= j < |worlds|
    requires k in worlds[i].db.leads && worlds[i].db.leads[k].edge.status == Matched
    requires forall n :: i <= n < j && es[n].ResolvedByHand? ==> es[n].k != k
    ensures k in worlds[j].db.leads && worlds[j].db.leads[k].edge == worlds[i].db.leads[k].edge
  {
    if i < j {
      MatchedStaysMatched(worlds, es, k, i, j - 1);
      MatchedEdgeIsKept(worlds[j - 1], es[j - 1], worlds[j], k);
    }
  }
}
