/** The matching engine (apps/api/src/matching/matching.service.ts): linking each lead to the ad that produced it. */
module Matching {
  import opened Common
  import opened MatchDecision

  datatype Source = MetaLeadAd | Website | Dm | Crm

  /** The unique key of a lead row. */
  datatype LeadKey = LeadKey(tenant: TenantId, source: Source, externalId: string)

  datatype Signals = Signals(leadgenId: Option<string>, fbclid: Option<string>, utmSource: Option<string>,
                             utmMedium: Option<string>, utmCampaign: Option<string>, utmContent: Option<string>,
                             utmTerm: Option<string>)

  /** The four columns the matching engine writes. */
  datatype Edge = Edge(adId: Option<AdId>, via: Option<Method>, confidence: Option<real>, status: Status)

  datatype Lead = Lead(contactId: Option<ContactId>, createdAt: Instant, signals: Signals, edge: Edge)

  datatype Ad = Ad(id: AdId, tenant: TenantId, externalId: string, name: string)

  /** One row of daily insights, as far as matching reads it. */
  datatype DaySpend = DaySpend(adId: AdId, date: Instant, spend: real)

  /** The tables matching only reads, each in the order the database returns its rows. */
  datatype Catalog = Catalog(ads: seq<Ad>, insights: seq<DaySpend>)

  datatype Audit = Audit(tenant: TenantId, lead: LeadKey, via: Method, confidence: real, resolvedBy: string)

  /** The tables matching writes. */
  datatype Db = Db(leads: map<LeadKey, Lead>, audits: seq<Audit>)

  datatype MatchError = LeadNotFound | AdNotFound

  // ---- Breaking a tie between ads of the same name ----

  function TopSpender(rows: seq<DaySpend>): (top: DaySpend)
    requires |rows| > 0
    ensures top in rows
    ensures forall r :: r in rows ==> r.spend <= top.spend
  {
    if |rows| == 1 then rows[0]
    else
      var best := TopSpender(rows[1..]);
      assert rows == [rows[0]] + rows[1..];
      if rows[0].spend >= best.spend then rows[0] else best
  }

  function DisambiguateBySpend(insights: seq<DaySpend>, adIds: set<AdId>, leadAt: Instant): (winner: Option<AdId>)
    ensures winner.Some? ==> winner.value in adIds
  {
    var day := Midnight(leadAt);
    var sameDay := Filter(insights, (r: DaySpend) => r.adId in adIds && r.date == day && r.spend > 0.0);
    if |sameDay| > 0 then Some(TopSpender(sameDay).adId)
    else
      var ever := Filter(insights, (r: DaySpend) => r.adId in adIds && r.spend > 0.0);
      if |ever| > 0 && (forall r | r in ever :: r.adId == ever[0].adId) then
        assert ever[0] in ever;
        Some(ever[0].adId)
      else None
  }

  ghost predicate Spends(insights: seq<DaySpend>, ad: AdId) {
    exists r :: r in insights && r.adId == ad && r.spend > 0.0
  }

  ghost predicate SpendsOn(insights: seq<DaySpend>, ad: AdId, day: Instant) {
    exists r :: r in insights && r.adId == ad && r.date == day && r.spend > 0.0
  }

  ghost predicate IsTopSpender(insights: seq<DaySpend>, adIds: set<AdId>, day: Instant, top: DaySpend) {
    && top in insights && top.adId in adIds && top.date == day
    && forall r :: r in insights && r.adId in adIds && r.date == day ==> r.spend <= top.spend
  }

  /**
   * The tie is broken exactly when one of the ads spent on the lead's own day, or exactly one of them
   * ever spent; a same-day winner has that day's largest spend.
   */
  lemma {:induction false} TieBreak(insights: seq<DaySpend>, adIds: set<AdId>, leadAt: Instant)
    ensures var winner := DisambiguateBySpend(insights, adIds, leadAt);
            var day := Midnight(leadAt);
            var live := exists a :: a in adIds && SpendsOn(insights, a, day);
            && (live ==> winner.Some? && SpendsOn(insights, winner.value, day))
            && (live ==> exists top :: IsTopSpender(insights, adIds, day, top) && top.adId == winner.value)
            && (!live ==> (winner.Some? <==> exists a ::
                  a in adIds && Spends(insights, a) && forall b :: b in adIds && Spends(insights, b) ==> b == a))
            && (!live && winner.Some? ==> Spends(insights, winner.value))
  {
    var day := Midnight(leadAt);
    var sameDay := Filter(insights, (r: DaySpend) => r.adId in adIds && r.date == day && r.spend > 0.0);
    var ever := Filter(insights, (r: DaySpend) => r.adId in adIds && r.spend > 0.0);
    var winner := DisambiguateBySpend(insights, adIds, leadAt);
    if |sameDay| > 0 {
      var top := TopSpender(sameDay);
      assert top in insights && SpendsOn(insights, top.adId, day);
      forall r | r in insights && r.adId in adIds && r.date == day
        ensures r.spend <= top.spend
      {
        if r.spend > 0.0 { assert r in sameDay; }
      }
      assert IsTopSpender(insights, adIds, day, top);
    } else {
      assert forall r :: r in insights && r.adId in adIds && r.date == day && r.spend > 0.0 ==> r in sameDay;
      forall a | a in adIds && Spends(insights, a)
        ensures exists r :: r in ever && r.adId == a
      {
        var r :| r in insights && r.adId == a && r.spend > 0.0;
        assert r in ever;
      }
      if |ever| > 0 {
        assert ever[0] in ever;
        forall r | r in ever
          ensures Spends(insights, r.adId)
        {
        }
      }
    }
  }

  // ---- Signals of one lead ----

  function AdByExternalId(ads: seq<Ad>, t: TenantId, externalId: string): (r: Option<Ad>)
    ensures r.Some? ==> r.value in ads && r.value.tenant == t
  {
    var hits := Filter(ads, (a: Ad) => a.tenant == t && a.externalId == externalId);
    if |hits| == 0 then None else assert hits[0] in hits; Some(hits[0])
  }

  /** What utm_content says: an ad id, a unique ad name, a shared name the spend decides, or a guess. */
  function UtmCandidate(cat: Catalog, t: TenantId, lead: Lead): (r: Option<Candidate>)
    ensures r.Some? ==> r.value.via == Utm
  {
    if !Truthy(lead.signals.utmContent) then None
    else
      var content := lead.signals.utmContent.value;
      var byId := AdByExternalId(cat.ads, t, content);
      if byId.Some? then Some(Candidate(Utm, byId.value.id, Some(0.95)))
      else
        var byName := Filter(cat.ads, (a: Ad) => a.tenant == t && a.name == content);
        if |byName| == 0 then None
        else if |byName| == 1 then Some(Candidate(Utm, byName[0].id, Some(0.9)))
        else
          var winner := DisambiguateBySpend(cat.insights, set a | a in byName :: a.id, lead.createdAt);
          if winner.Some? then Some(Candidate(Utm, winner.value, Some(0.8)))
          else Some(Candidate(Utm, byName[0].id, None))
  }

  /** k2 is another lead of k's contact, in the tenant, that carries an ad. */
  predicate IsSibling(leads: map<LeadKey, Lead>, t: TenantId, k: LeadKey, k2: LeadKey)
    requires k in leads
  {
    && k2 in leads && k2 != k && k2.tenant == t
    && leads[k].contactId.Some? && leads[k2].contactId == leads[k].contactId
    && leads[k2].edge.adId.Some?
  }

  /** The ad the unordered sibling query may report: that of any sibling, or none when there is none. */
  ghost predicate SiblingChoice(leads: map<LeadKey, Lead>, t: TenantId, k: LeadKey, ad: Option<AdId>)
    requires k in leads
  {
    match ad
    case None => forall k2 :: k2 in leads ==> !IsSibling(leads, t, k, k2)
    case Some(_) => exists k2 :: k2 in leads && IsSibling(leads, t, k, k2) && leads[k2].edge.adId == ad
  }

  function Candidates(cat: Catalog, t: TenantId, lead: Lead, sibling: Option<AdId>): seq<Candidate> {
    (if Truthy(lead.signals.leadgenId) && lead.edge.adId.Some?
     then [Candidate(LeadgenId, lead.edge.adId.value, None)] else [])
    + (if sibling.Some? then [Candidate(Phone, sibling.value, None)] else [])
    + (var utm := UtmCandidate(cat, t, lead); if utm.Some? then [utm.value] else [])
  }

  function Decide(cat: Catalog, t: TenantId, lead: Lead, sibling: Option<AdId>): Decision {
    DecideMatch(Candidates(cat, t, lead, sibling))
  }

  function EdgeOf(d: Decision): Edge {
    Edge(d.adId, d.via, Some(d.confidence), d.status)
  }

  function AuditRows(t: TenantId, k: LeadKey, d: Decision): seq<Audit> {
    if d.adId.Some? && d.via.Some? then [Audit(t, k, d.via.value, d.confidence, "engine")] else []
  }

  function Apply(t: TenantId, s: Db, k: LeadKey, d: Decision): Db
    requires k in s.leads
  {
    Db(s.leads[k := s.leads[k].(edge := EdgeOf(d))], s.audits + AuditRows(t, k, d))
  }

  /**
   * One call of matchLead with the row of k its caller read, however long ago. The sibling query and the update
   * see the table as it is; the decision is made on the row that was read.
   */
  ghost predicate Decides(cat: Catalog, t: TenantId, s: Db, k: LeadKey, read: Lead, d: Decision, s': Db) {
    && k in s.leads
    && s' == Apply(t, s, k, d)
    && exists sibling :: SiblingChoice(s.leads[k := read], t, k, sibling) && d == Decide(cat, t, read, sibling)
  }

  /** One call of matchLead on the current row of k, for some answer of the sibling query. */
  ghost predicate Step(cat: Catalog, t: TenantId, s: Db, k: LeadKey, s': Db) {
    && k in s.leads
    && exists sibling :: SiblingChoice(s.leads, t, k, sibling)
                         && s' == Apply(t, s, k, Decide(cat, t, s.leads[k], sibling))
  }

  /** The loop of matchUnmatched over the rows in the given order. */
  ghost predicate Run(cat: Catalog, t: TenantId, s: Db, order: seq<LeadKey>, s': Db) {
    if |order| == 0 then s == s'
    else
      exists m :: Run(cat, t, s, Front(order), m) && Step(cat, t, m, Last(order), s')
  }

  predicate Live(leads: map<LeadKey, Lead>, t: TenantId, k: LeadKey) {
    k in leads && k.tenant == t && leads[k].edge.status in {Unmatched, Review}
  }

  /** order lists exactly the tenant's unmatched and review leads, each once: any answer of the pending query. */
  ghost predicate Pending(leads: map<LeadKey, Lead>, t: TenantId, order: seq<LeadKey>) {
    && Distinct(order)
    && forall k :: k in order <==> Live(leads, t, k)
  }

  /** One whole matchUnmatched(t), for some order of its rows and some sibling answers. */
  ghost predicate MatchRun(cat: Catalog, t: TenantId, s: Db, order: seq<LeadKey>, s': Db) {
    Pending(s.leads, t, order) && Run(cat, t, s, order, s')
  }

  /** What a caller of matchUnmatched learns: some run was made, over so many rows with so many of them matched. */
  ghost predicate RunMade(cat: Catalog, t: TenantId, s: Db, s': Db, processed: nat, matched: nat) {
    exists order :: MatchRun(cat, t, s, order, s') && processed == |order| && matched == CountMatched(s'.leads, order)
  }

  function CountMatched(leads: map<LeadKey, Lead>, order: seq<LeadKey>): nat {
    if |order| == 0 then 0
    else
      var k := Last(order);
      CountMatched(leads, Front(order)) + (if k in leads && leads[k].edge.status == Matched then 1 else 0)
  }

  lemma {:induction false} CountUnchanged(leads: map<LeadKey, Lead>, order: seq<LeadKey>, k: LeadKey, row: Lead)
    requires k !in order
    ensures CountMatched(leads[k := row], order) == CountMatched(leads, order)
  {
    if |order| > 0 {
      assert Last(order) in order;
      CountUnchanged(leads, Front(order), k, row);
    }
  }

  /** The leads from position i on still have the rows the pending query read. */
  predicate Unvisited(leads: map<LeadKey, Lead>, rows: map<LeadKey, Lead>, order: seq<LeadKey>, i: nat) {
    forall j :: i <= j < |order| ==> order[j] in rows && order[j] in leads && leads[order[j]] == rows[order[j]]
  }

  /** One round of the loop of matchUnmatched on a row that is still current. */
  lemma {:induction false} RoundMade(cat: Catalog, t: TenantId, s: Db, rows: map<LeadKey, Lead>, order: seq<LeadKey>, i: nat,
                                      m: Db, d: Decision, s': Db)
    requires Distinct(order) && i < |order| && Run(cat, t, s, order[..i], m)
    requires Unvisited(m.leads, rows, order, i) && Decides(cat, t, m, order[i], rows[order[i]], d, s')
    ensures Run(cat, t, s, order[..i + 1], s') && Unvisited(s'.leads, rows, order, i + 1)
    ensures CountMatched(s'.leads, order[..i + 1]) == CountMatched(m.leads, order[..i]) + (if d.status == Matched then 1 else 0)
  {
    var k := order[i];
    assert Front(order[..i + 1]) == order[..i] && Last(order[..i + 1]) == k;
    assert m.leads[k := m.leads[k]] == m.leads;
    assert Step(cat, t, m, k, s');
    CountUnchanged(m.leads, order[..i], k, s'.leads[k]);
  }

  /** resolveManual as a function of the tables. */
  function ResolveManual(cat: Catalog, s: Db, t: TenantId, k: LeadKey, ad: AdId, user: string): Result<Db, MatchError> {
    if !(k in s.leads && k.tenant == t) then Err(LeadNotFound)
    else if !(exists a :: a in cat.ads && a.id == ad && a.tenant == t) then Err(AdNotFound)
    else Ok(Db(s.leads[k := s.leads[k].(edge := Edge(Some(ad), Some(Manual), Some(1.0), Matched))],
               s.audits + [Audit(t, k, Manual, 1.0, user)]))
  }

  class MatchingService {
    var leads: map<LeadKey, Lead>
    var audits: seq<Audit>
    const catalog: Catalog

    constructor (catalog: Catalog, leads: map<LeadKey, Lead>, audits: seq<Audit>)
      ensures this.catalog == catalog && this.leads == leads && this.audits == audits
    {
      this.catalog, this.leads, this.audits := catalog, leads, audits;
    }

    ghost function State(): Db
      reads this
    {
      Db(leads, audits)
    }

    /** lead is k's row as the caller read it. */
    method MatchLead(t: TenantId, k: LeadKey, lead: Lead) returns (d: Decision)
      requires k in leads
      modifies this
      ensures Decides(catalog, t, old(State()), k, lead, d, State())
    {
      ghost var seen := leads[k := lead];
      var candidates: seq<Candidate> := [];
      if Truthy(lead.signals.leadgenId) && lead.edge.adId.Some? {
        candidates := candidates + [Candidate(LeadgenId, lead.edge.adId.value, None)];
      }
      var sibling: Option<AdId> := None;
      if lead.contactId.Some? {
        var siblings := set k2 | k2 in leads && k2 != k && k2.tenant == t && leads[k2].contactId == lead.contactId
                                 && leads[k2].edge.adId.Some?;
        assert forall k2 :: k2 in seen ==> (IsSibling(seen, t, k, k2) <==> k2 in siblings);
        if siblings != {} {
          var k2 :| k2 in siblings;
          sibling := leads[k2].edge.adId;
        }
        if sibling.Some? {
          candidates := candidates + [Candidate(Phone, sibling.value, None)];
        }
      }
      var utm := UtmCandidate(catalog, t, lead);
      if utm.Some? {
        candidates := candidates + [utm.value];
      }
      assert SiblingChoice(seen, t, k, sibling);
      assert candidates == Candidates(catalog, t, lead, sibling);
      d := DecideMatch(candidates);
      leads := leads[k := leads[k].(edge := Edge(d.adId, d.via, Some(d.confidence), d.status))];
      if d.adId.Some? && d.via.Some? {
        audits := audits + [Audit(t, k, d.via.value, d.confidence, "engine")];
      }
      assert d == Decide(catalog, t, lead, sibling);
    }

    /** The pending query: its rows in an arbitrary order. */
    method FindPending(t: TenantId) returns (order: seq<LeadKey>)
      ensures Pending(leads, t, order)
    {
      var todo := set k | k in leads && Live(leads, t, k);
      order := [];
      while todo != {}
        invariant Distinct(order)
        invariant forall k :: k in todo ==> k !in order && Live(leads, t, k)
        invariant forall k :: k in order ==> Live(leads, t, k)
        invariant forall k :: Live(leads, t, k) ==> k in todo || k in order
        decreases todo
      {
        var k :| k in todo;
        todo := todo - {k};
        order := order + [k];
      }
    }

    method MatchUnmatched(t: TenantId) returns (processed: nat, matched: nat)
      modifies this
      ensures RunMade(catalog, t, old(State()), State(), processed, matched)
    {
      var order := FindPending(t);
      var rows := leads;
      matched := 0;
      assert forall j :: 0 <= j < |order| ==> order[j] in order;
      for i := 0 to |order|
        invariant Run(catalog, t, old(State()), order[..i], State())
        invariant matched == CountMatched(leads, order[..i])
        invariant Unvisited(leads, rows, order, i)
      {
        ghost var mid := State();
        var d := MatchLead(t, order[i], rows[order[i]]);
        RoundMade(catalog, t, old(State()), rows, order, i, mid, d, State());
        if d.status == Matched {
          matched := matched + 1;
        }
      }
      assert order[..|order|] == order;
      processed := |order|;
    }

    method Resolve(t: TenantId, k: LeadKey, ad: AdId, user: string) returns (r: Result<(), MatchError>)
      modifies this
      ensures var spec := ResolveManual(catalog, old(State()), t, k, ad, user);
              if spec.Ok? then r == Ok(()) && State() == spec.value else r == Err(spec.error) && State() == old(State())
      ensures r.Ok? <==> k in old(leads) && k.tenant == t && exists a :: a in catalog.ads && a.id == ad && a.tenant == t
      ensures r.Ok? ==> leads == old(leads)[k := old(leads[k]).(edge := Edge(Some(ad), Some(Manual), Some(1.0), Matched))]
                        && audits == old(audits) + [Audit(t, k, Manual, 1.0, user)]
    {
      if !(k in leads && k.tenant == t) {
        return Err(LeadNotFound);
      }
      if !exists a | a in catalog.ads :: a.id == ad && a.tenant == t {
        return Err(AdNotFound);
      }
      leads := leads[k := leads[k].(edge := Edge(Some(ad), Some(Manual), Some(1.0), Matched))];
      audits := audits + [Audit(t, k, Manual, 1.0, user)];
      return Ok(());
    }
  }
}
