/**
 * What one generation of conversion events leaves in the event table, in terms of the leads, deals, ads and accounts
 * it reads (apps/api/src/conversions/conversions.service.ts).
 */
module Feedback {
  import opened Common
  import opened Conversions
  import Canon = CanonicalStatus
  import D = MatchDecision

  // ---- Ads and leads ----

  /** The ad is the tenant's, in this account, and the account shares its feedback. */
  ghost predicate IsAccountOf(src: Source, t: TenantId, ad: AdId, account: string) {
    && (exists a :: a in src.ads && a.id == ad && a.tenant == t && a.account == account)
    && account in src.accounts && src.accounts[account].tenant == t && src.accounts[account].optIn
  }

  lemma {:induction false} AccountsExact(src: Source, t: TenantId, ads: seq<Ad>, ad: AdId)
    ensures ad in AccountByAd(src, t, ads) ==>
              exists a :: a in ads && a.id == ad && a.tenant == t && a.account == AccountByAd(src, t, ads)[ad] && OptedIn(src, t, a.account)
    ensures (exists a :: a in ads && a.id == ad && a.tenant == t && OptedIn(src, t, a.account)) ==> ad in AccountByAd(src, t, ads)
  {
    if |ads| > 0 {
      assert ads == Front(ads) + [Last(ads)];
      AccountsExact(src, t, Front(ads), ad);
    }
  }

  lemma {:induction false} AccountOfAd(src: Source, t: TenantId, ad: AdId)
    ensures ad in AccountByAd(src, t, src.ads) <==> exists account :: IsAccountOf(src, t, ad, account)
    ensures ad in AccountByAd(src, t, src.ads) ==> IsAccountOf(src, t, ad, AccountByAd(src, t, src.ads)[ad])
  {
    AccountsExact(src, t, src.ads, ad);
    var byAd := AccountByAd(src, t, src.ads);
    if ad in byAd { assert IsAccountOf(src, t, ad, byAd[ad]); }
    if account :| IsAccountOf(src, t, ad, account) {
      var a :| a in src.ads && a.id == ad && a.tenant == t && a.account == account;
      assert OptedIn(src, t, a.account);
    }
  }

  /** A lead that can carry feedback: matched to an ad that shares it, with a contact, since the CRM was connected. */
  ghost predicate CarriesFeedback(src: Source, t: TenantId, l: Lead) {
    && l in src.leads && l.tenant == t && l.status == D.Matched && l.contactId.Some?
    && (src.floor.Some? ==> src.floor.value <= l.createdAt)
    && l.adId.Some? && exists account :: IsAccountOf(src, t, l.adId.value, account)
  }

  /** l is c's youngest lead of that kind. */
  ghost predicate IsYoungest(src: Source, t: TenantId, c: ContactId, l: Lead) {
    && CarriesFeedback(src, t, l) && l.contactId == Some(c)
    && forall o :: CarriesFeedback(src, t, o) && o.contactId == Some(c) ==> o.createdAt <= l.createdAt
  }

  lemma {:induction false} EligibleExact(src: Source, t: TenantId, l: Lead)
    ensures CarriesFeedback(src, t, l) <==> l in src.leads && Eligible(src, t, AccountByAd(src, t, src.ads), l)
  {
    if l.adId.Some? { AccountOfAd(src, t, l.adId.value); }
  }

  lemma {:induction false} YoungestIsLastTouch(src: Source, t: TenantId, c: ContactId, l: Lead)
    ensures IsYoungest(src, t, c, l) <==> IsLastTouch(src, t, c, l)
  {
    forall o
      ensures CarriesFeedback(src, t, o) <==> o in src.leads && Eligible(src, t, AccountByAd(src, t, src.ads), o)
    {
      EligibleExact(src, t, o);
    }
  }

  /** The kept lead is one of the youngest, and its account that of its ad. */
  lemma {:induction false} KeptIsYoungest(src: Source, t: TenantId, c: ContactId)
    ensures var kept := KeptTouch(src, t, c);
            && (kept.Some? <==> exists l :: IsYoungest(src, t, c, l))
            && (kept.Some? ==> IsYoungest(src, t, c, kept.value.0) && IsAccountOf(src, t, kept.value.0.adId.value, kept.value.1))
  {
    KeptTouchExact(src, t, c);
    forall l
      ensures IsYoungest(src, t, c, l) <==> IsLastTouch(src, t, c, l)
    {
      YoungestIsLastTouch(src, t, c, l);
    }
    var kept := KeptTouch(src, t, c);
    if kept.Some? { AccountOfAd(src, t, kept.value.0.adId.value); }
  }

  // ---- Deals and their events ----

  /** A deal of the tenant since the CRM was connected, of a contact with a lead to carry its feedback. */
  ghost predicate Counts(src: Source, t: TenantId, d: Deal) {
    && d in src.deals && d.tenant == t && (src.floor.Some? ==> src.floor.value <= d.createdAt)
    && d.contactId.Some? && exists l :: IsYoungest(src, t, d.contactId.value, l)
  }

  lemma {:induction false} CountsExact(src: Source, t: TenantId, d: Deal)
    ensures Counts(src, t, d) <==> IsOutcome(src, t, d)
  {
    if d.contactId.Some? { KeptIsYoungest(src, t, d.contactId.value); }
  }

  function PurchaseId(d: Deal): string { "PUR:" + d.id }
  function LeadId(l: Lead): string { "QL:" + l.id }

  /** e reports the purchase behind d, field by field, with l the lead that carries it. */
  ghost predicate IsPurchaseOf(src: Source, t: TenantId, d: Deal, l: Lead, e: Event) {
    && e.tenant == t && e.kind == Purchase && e.eventId == "PUR:" + d.id && e.state == Pending
    && e.value == Some(if d.amount.Some? then d.amount.value else 0.0) && e.currency == d.currency
    && d.contactId.Some? && IsYoungest(src, t, d.contactId.value, l) && e.leadgenId == l.leadgenId
    && IsAccountOf(src, t, l.adId.value, e.account)
  }

  /** e reports that the contact of lead l qualified. */
  ghost predicate IsQualifiedOf(src: Source, t: TenantId, c: ContactId, l: Lead, e: Event) {
    && e.tenant == t && e.kind == QualifiedLead && e.eventId == "QL:" + l.id && e.state == Pending
    && e.value.None? && e.currency.None?
    && IsYoungest(src, t, c, l) && e.leadgenId == l.leadgenId
    && IsAccountOf(src, t, l.adId.value, e.account)
  }

  /** Every purchase requested is that of a won deal that counts. */
  lemma {:induction false} PurchaseFields(src: Source, t: TenantId, d: Deal, e: Event)
    requires WantsPurchase(src, t, d, e)
    ensures Counts(src, t, d) && d.canonical == Canon.Won
    ensures exists l :: IsPurchaseOf(src, t, d, l, e)
  {
    CountsExact(src, t, d);
    KeptIsYoungest(src, t, d.contactId.value);
    assert IsPurchaseOf(src, t, d, KeptTouch(src, t, d.contactId.value).value.0, e);
  }

  lemma {:induction false} LeadFields(src: Source, t: TenantId, d: Deal, e: Event)
    requires WantsLead(src, t, d, e)
    ensures Counts(src, t, d) && d.canonical in {Canon.Qualified, Canon.Won}
    ensures exists l :: IsQualifiedOf(src, t, d.contactId.value, l, e)
  {
    CountsExact(src, t, d);
    KeptIsYoungest(src, t, d.contactId.value);
    assert IsQualifiedOf(src, t, d.contactId.value, KeptTouch(src, t, d.contactId.value).value.0, e);
  }

  // ---- One generation ----

  /** Every event a generation adds is the purchase of a won deal or the qualified lead of a qualified or won deal's contact. */
  lemma {:induction false} CreatedFields(events: seq<Event>, src: Source, t: TenantId, i: int)
    requires UniqueIds(events) && |events| <= i < |Generated(events, src, t)|
    ensures var e := Generated(events, src, t)[i];
            || (exists d, l :: Counts(src, t, d) && d.canonical == Canon.Won && IsPurchaseOf(src, t, d, l, e))
            || (exists d, l :: Counts(src, t, d) && d.canonical in {Canon.Qualified, Canon.Won}
                               && IsQualifiedOf(src, t, d.contactId.value, l, e))
  {
    var e := Generated(events, src, t)[i];
    CreateAllExact(events, Requests(src, t));
    RequestsExact(src, t, e);
    if d :| WantsPurchase(src, t, d, e) {
      PurchaseFields(src, t, d, e);
    } else {
      var d :| WantsLead(src, t, d, e);
      LeadFields(src, t, d, e);
    }
  }

  /** Deal ids are primary keys. */
  ghost predicate KeyedDeals(src: Source) {
    forall i, j :: 0 <= i < j < |src.deals| ==> src.deals[i].id != src.deals[j].id
  }

  lemma {:induction false} SamePurchaseId(src: Source, d: Deal, o: Deal)
    requires KeyedDeals(src) && d in src.deals && o in src.deals && PurchaseId(d) == PurchaseId(o)
    ensures d == o
  {
    assert PurchaseId(d)[4..] == d.id && PurchaseId(o)[4..] == o.id;
  }

  /**
   * After a generation every won deal that counts has an event "PUR:" and its own id; if that event is new, it says
   * what the deal and the youngest lead of its contact say.
   */
  lemma {:induction false} PurchaseGenerated(events: seq<Event>, src: Source, t: TenantId, d: Deal)
    requires UniqueIds(events) && KeyedDeals(src)
    requires Counts(src, t, d) && d.canonical == Canon.Won
    ensures var r := Generated(events, src, t);
            exists i :: 0 <= i < |r| && r[i].eventId == "PUR:" + d.id
                        && (|events| <= i ==> exists l :: IsPurchaseOf(src, t, d, l, r[i]))
  {
    var r := Generated(events, src, t);
    CountsExact(src, t, d);
    var touch := KeptTouch(src, t, d.contactId.value).value;
    var e := DealEvent(t, touch.1, touch.0, d);
    assert WantsPurchase(src, t, d, e);
    RequestsExact(src, t, e);
    CreateAllExact(events, Requests(src, t));
    PurchaseFields(src, t, d, e);
    assert Exists(r, e.eventId);
    var i :| 0 <= i < |r| && r[i].eventId == e.eventId;
    if |events| <= i {
      NewPurchase(src, t, d, r[i]);
    }
  }

  lemma {:induction false} IdsDiffer(l: Lead, d: Deal)
    ensures LeadId(l) != PurchaseId(d)
  {
    assert LeadId(l)[0] == 'Q' && PurchaseId(d)[0] == 'P';
  }

  lemma {:induction false} NewPurchase(src: Source, t: TenantId, d: Deal, e: Event)
    requires KeyedDeals(src) && d in src.deals && e in Requests(src, t) && e.eventId == PurchaseId(d)
    ensures exists l :: IsPurchaseOf(src, t, d, l, e)
  {
    RequestsExact(src, t, e);
    forall o
      ensures !WantsLead(src, t, o, e)
    {
      if IsOutcome(src, t, o) { IdsDiffer(KeptTouch(src, t, o.contactId.value).value.0, d); }
    }
    var o :| WantsPurchase(src, t, o, e);
    PurchaseFields(src, t, o, e);
    SamePurchaseId(src, d, o);
  }

  /** Lead ids are primary keys. */
  ghost predicate KeyedLeads(src: Source) {
    forall i, j :: 0 <= i < j < |src.leads| ==> src.leads[i].id != src.leads[j].id
  }

  lemma {:induction false} SameLeadId(src: Source, l: Lead, o: Lead)
    requires KeyedLeads(src) && l in src.leads && o in src.leads && LeadId(l) == LeadId(o)
    ensures l == o
  {
    assert LeadId(l)[3..] == l.id && LeadId(o)[3..] == o.id;
  }

  /** After a generation the contact of every qualified or won deal that counts has an event for one of its youngest leads. */
  lemma {:induction false} QualifiedGenerated(events: seq<Event>, src: Source, t: TenantId, d: Deal)
    requires UniqueIds(events) && KeyedLeads(src)
    requires Counts(src, t, d) && d.canonical in {Canon.Qualified, Canon.Won}
    ensures var r, c := Generated(events, src, t), d.contactId.value;
            exists i, l :: 0 <= i < |r| && IsYoungest(src, t, c, l) && r[i].eventId == "QL:" + l.id
                           && (|events| <= i ==> IsQualifiedOf(src, t, c, l, r[i]))
  {
    var r, c := Generated(events, src, t), d.contactId.value;
    CountsExact(src, t, d);
    KeptIsYoungest(src, t, c);
    var touch := KeptTouch(src, t, c).value;
    var e := LeadEvent(t, touch.1, touch.0);
    assert WantsLead(src, t, d, e);
    RequestsExact(src, t, e);
    CreateAllExact(events, Requests(src, t));
    assert Exists(r, e.eventId);
    var i :| 0 <= i < |r| && r[i].eventId == e.eventId;
    assert IsYoungest(src, t, c, touch.0) && r[i].eventId == "QL:" + touch.0.id by {
      LeadFields(src, t, d, e);
      assert e.eventId == LeadId(touch.0);
    }
    if |events| <= i {
      NewLeadEvent(src, t, c, touch.0, r[i]);
    }
  }

  lemma {:induction false} NewLeadEvent(src: Source, t: TenantId, c: ContactId, l: Lead, e: Event)
    requires KeyedLeads(src) && IsYoungest(src, t, c, l) && e in Requests(src, t) && e.eventId == LeadId(l)
    ensures IsQualifiedOf(src, t, c, l, e)
  {
    RequestsExact(src, t, e);
    forall o
      ensures !WantsPurchase(src, t, o, e)
    {
      IdsDiffer(l, o);
    }
    var o :| WantsLead(src, t, o, e);
    LeadFields(src, t, o, e);
    var m :| IsQualifiedOf(src, t, o.contactId.value, m, e);
    SameLeadId(src, l, m);
  }

  // ---- How many purchases ----

  function Purchases(events: seq<Event>): nat {
    if |events| == 0 then 0 else Purchases(Front(events)) + (if Last(events).kind == Purchase then 1 else 0)
  }

  lemma {:induction false} PurchasesSnoc(events: seq<Event>, e: Event)
    ensures Purchases(events + [e]) == Purchases(events) + (if e.kind == Purchase then 1 else 0)
  {
    assert Front(events + [e]) == events;
  }

  lemma {:induction false} ExistsSnoc(events: seq<Event>, e: Event, id: string)
    ensures Exists(Create(events, e), id) <==> Exists(events, id) || e.eventId == id
  {
    ExistsAfterCreate(events, e);
    assert forall x :: x in events + [e] <==> x in events || x == e;
  }

  lemma {:induction false} LeadRequestsCreateNoPurchase(events: seq<Event>, t: TenantId, byAd: map<AdId, string>,
                                                        contactLead: map<ContactId, Lead>, contacts: seq<ContactId>, d: Deal)
    ensures var r := CreateAll(events, LeadRequests(t, byAd, contactLead, contacts));
            Purchases(r) == Purchases(events) && (Exists(r, PurchaseId(d)) <==> Exists(events, PurchaseId(d)))
  {
    if |contacts| > 0 {
      LeadRequestsCreateNoPurchase(events, t, byAd, contactLead, Front(contacts), d);
      var touch := TouchOf(byAd, contactLead, Last(contacts));
      var requests := LeadRequests(t, byAd, contactLead, Front(contacts));
      if touch.Some? {
        var e := LeadEvent(t, touch.value.1, touch.value.0);
        assert Front(requests + [e]) == requests;
        assert e.eventId[0] == 'Q' && PurchaseId(d)[0] == 'P';
        ExistsSnoc(CreateAll(events, requests), e, PurchaseId(d));
        PurchasesSnoc(CreateAll(events, requests), e);
      } else {
        assert requests + [] == requests;
      }
    }
  }

  /** Of these deals, those that ask for a purchase event nobody has made yet. */
  predicate AsksNew(events: seq<Event>, byAd: map<AdId, string>, contactLead: map<ContactId, Lead>, d: Deal) {
    && d.canonical == Canon.Won && d.contactId.Some? && TouchOf(byAd, contactLead, d.contactId.value).Some?
    && !Exists(events, PurchaseId(d))
  }

  lemma {:induction false} DealRequestsCreate(events: seq<Event>, t: TenantId, byAd: map<AdId, string>, contactLead: map<ContactId, Lead>,
                                              deals: seq<Deal>, id: string)
    requires forall i, j :: 0 <= i < j < |deals| ==> deals[i].id != deals[j].id
    ensures var r := CreateAll(events, DealRequests(t, byAd, contactLead, deals));
            Purchases(r) == Purchases(events) + |Filter(deals, (d: Deal) => AsksNew(events, byAd, contactLead, d))|
    ensures Exists(CreateAll(events, DealRequests(t, byAd, contactLead, deals)), "PUR:" + id) ==>
              Exists(events, "PUR:" + id) || exists i :: 0 <= i < |deals| && deals[i].id == id
  {
    if |deals| > 0 {
      var front, d := Front(deals), Last(deals);
      assert forall i :: 0 <= i < |front| ==> deals[i] == front[i] && deals[i].id != deals[|deals| - 1].id;
      DealRequestsCreate(events, t, byAd, contactLead, front, id);
      DealRequestsCreate(events, t, byAd, contactLead, front, d.id);
      OneMoreRequest(events, t, byAd, contactLead, deals, id);
    }
  }

  lemma {:induction false} OneMoreRequest(events: seq<Event>, t: TenantId, byAd: map<AdId, string>, contactLead: map<ContactId, Lead>,
                                          deals: seq<Deal>, id: string)
    requires |deals| > 0
    requires var before := CreateAll(events, DealRequests(t, byAd, contactLead, Front(deals)));
             Exists(before, PurchaseId(Last(deals))) ==> Exists(events, PurchaseId(Last(deals)))
    ensures var before := CreateAll(events, DealRequests(t, byAd, contactLead, Front(deals)));
            var r := CreateAll(events, DealRequests(t, byAd, contactLead, deals));
            && Purchases(r) == Purchases(before) + (if AsksNew(events, byAd, contactLead, Last(deals)) then 1 else 0)
            && (Exists(r, "PUR:" + id) ==> Exists(before, "PUR:" + id) || Last(deals).id == id)
  {
    var d, requests := Last(deals), DealRequests(t, byAd, contactLead, Front(deals));
    var before := CreateAll(events, requests);
    var touch := if d.contactId.Some? then TouchOf(byAd, contactLead, d.contactId.value) else None;
    if d.canonical == Canon.Won && touch.Some? {
      var e := DealEvent(t, touch.value.1, touch.value.0, d);
      assert Front(requests + [e]) == requests;
      ExistsSnoc(before, e, "PUR:" + id);
      PurchasesSnoc(before, e);
      if Exists(events, PurchaseId(d)) { CreationsKeep(events, requests, PurchaseId(d)); }
      assert e.eventId == PurchaseId(d) && PurchaseId(d)[4..] == d.id && ("PUR:" + id)[4..] == id;
    } else {
      assert requests + [] == requests;
    }
  }

  lemma {:induction false} CreationsKeep(events: seq<Event>, requests: seq<Event>, id: string)
    requires Exists(events, id)
    ensures Exists(CreateAll(events, requests), id)
  {
    if |requests| > 0 {
      CreationsKeep(events, Front(requests), id);
      ExistsAfterCreate(CreateAll(events, Front(requests)), Last(requests));
    }
  }

  /** A won deal that counts and has no purchase event yet. */
  ghost predicate LacksPurchase(events: seq<Event>, src: Source, t: TenantId, d: Deal) {
    Counts(src, t, d) && d.canonical == Canon.Won && !Exists(events, "PUR:" + d.id)
  }

  lemma {:induction false} SameCount(deals: seq<Deal>, p: Deal -> bool, q: Deal -> bool)
    requires forall d :: d in deals ==> p(d) == q(d)
    ensures |Filter(deals, p)| == |Filter(deals, q)|
  {
    FilterSame(deals, p, q);
  }

  /** Among all deals, those that ask for a new purchase event are the won ones that count and lack one. */
  lemma {:induction false} AskingDeals(events: seq<Event>, src: Source, t: TenantId)
    ensures var byAd := AccountByAd(src, t, src.ads);
            var contactLead := LastLeads(LeadsOf(src, t, byAd));
            Filter(DealsOf(src, t, contactLead.Keys), (d: Deal) => AsksNew(events, byAd, contactLead, d))
            == Filter(src.deals, (d: Deal) => LacksPurchase(events, src, t, d))
  {
    var byAd := AccountByAd(src, t, src.ads);
    var contactLead := LastLeads(LeadsOf(src, t, byAd));
    var asks := (d: Deal) => d in src.deals && AsksNew(events, byAd, contactLead, d) && IsOutcome(src, t, d);
    var deals := DealsOf(src, t, contactLead.Keys);
    forall d | d in deals
      ensures AsksNew(events, byAd, contactLead, d) == asks(d)
    {
      OutcomesAreDeals(src, t, d);
    }
    FilterSame(deals, (d: Deal) => AsksNew(events, byAd, contactLead, d), asks);
    var within := (d: Deal) => IsDealOf(src, t, contactLead.Keys, d);
    forall d | d in src.deals && asks(d)
      ensures within(d)
    {
      OutcomesAreDeals(src, t, d);
    }
    FilterFiltered(src.deals, within, asks);
    forall d | d in src.deals
      ensures asks(d) == LacksPurchase(events, src, t, d)
    {
      CountsExact(src, t, d);
    }
    FilterSame(src.deals, asks, (d: Deal) => LacksPurchase(events, src, t, d));
  }

  lemma {:induction false} FilterKeyed(deals: seq<Deal>, p: Deal -> bool)
    requires forall i, j :: 0 <= i < j < |deals| ==> deals[i].id != deals[j].id
    ensures var r := Filter(deals, p); forall i, j :: 0 <= i < j < |r| ==> r[i].id != r[j].id
  {
    if |deals| > 0 {
      assert deals == Front(deals) + [Last(deals)];
      assert forall i :: 0 <= i < |deals| - 1 ==> deals[i] == Front(deals)[i] && deals[i].id != deals[|deals| - 1].id;
      FilterKeyed(Front(deals), p);
      assert forall d :: d in Filter(Front(deals), p) ==> d in Front(deals);
      assert forall d :: d in Front(deals) ==> d.id != Last(deals).id;
    }
  }

  lemma {:induction false} DealsOfKeyed(src: Source, t: TenantId, contacts: set<ContactId>)
    requires KeyedDeals(src)
    ensures var r := DealsOf(src, t, contacts); forall i, j :: 0 <= i < j < |r| ==> r[i].id != r[j].id
  {
    var p := (d: Deal) => IsDealOf(src, t, contacts, d);
    FilterKeyed(src.deals, p);
    assert DealsOf(src, t, contacts) == Filter(src.deals, p);
  }

  /** A generation creates one purchase event for each won deal that counts and had none, and no other purchase event. */
  lemma {:induction false} PurchasesCreated(events: seq<Event>, src: Source, t: TenantId)
    requires KeyedDeals(src)
    ensures Purchases(Generated(events, src, t))
         == Purchases(events) + |Filter(src.deals, (d: Deal) => LacksPurchase(events, src, t, d))|
  {
    var byAd := AccountByAd(src, t, src.ads);
    var contactLead := LastLeads(LeadsOf(src, t, byAd));
    var deals := DealsOf(src, t, contactLead.Keys);
    var leads := LeadRequests(t, byAd, contactLead, QualifiedContacts(deals));
    var between := CreateAll(events, leads);
    CreateAllConcat(events, leads, DealRequests(t, byAd, contactLead, deals));
    DealsOfKeyed(src, t, contactLead.Keys);
    DealRequestsCreate(between, t, byAd, contactLead, deals, "");
    forall d | d in deals
      ensures AsksNew(between, byAd, contactLead, d) == AsksNew(events, byAd, contactLead, d)
    {
      LeadRequestsCreateNoPurchase(events, t, byAd, contactLead, QualifiedContacts(deals), d);
    }
    SameCount(deals, (d: Deal) => AsksNew(between, byAd, contactLead, d), (d: Deal) => AsksNew(events, byAd, contactLead, d));
    NoPurchaseFromLeads(events, t, byAd, contactLead, QualifiedContacts(deals));
    AskingDeals(events, src, t);
  }

  lemma {:induction false} NoPurchaseFromLeads(events: seq<Event>, t: TenantId, byAd: map<AdId, string>, contactLead: map<ContactId, Lead>,
                                               contacts: seq<ContactId>)
    ensures Purchases(CreateAll(events, LeadRequests(t, byAd, contactLead, contacts))) == Purchases(events)
  {
    LeadRequestsCreateNoPurchase(events, t, byAd, contactLead, contacts, Deal("", t, None, Canon.Lead, None, None, 0));
  }
}
