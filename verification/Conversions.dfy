/**
 * The feedback loop (apps/api/src/conversions/conversions.service.ts): outcomes become conversion events, and
 * pending events are pushed to the ad platform and closed.
 */
module Conversions {
  import opened Common
  import Canon = CanonicalStatus
  import D = MatchDecision

  datatype Kind = QualifiedLead | Purchase

  datatype EventState = Pending | Accepted | Rejected

  /** A row of the event table; its position is its id. */
  datatype Event = Event(tenant: TenantId, account: string, kind: Kind, eventId: string, leadgenId: Option<string>,
                         value: Option<real>, currency: Option<string>, state: EventState)

  datatype Account = Account(tenant: TenantId, optIn: bool)

  datatype Ad = Ad(id: AdId, tenant: TenantId, account: string)

  datatype Lead = Lead(id: string, tenant: TenantId, adId: Option<AdId>, status: D.Status, contactId: Option<ContactId>,
                       leadgenId: Option<string>, createdAt: Instant)

  datatype Deal = Deal(id: string, tenant: TenantId, contactId: Option<ContactId>, canonical: Canon.Canonical, amount: Option<real>,
                       currency: Option<string>, createdAt: Instant)

  /** The tables generate reads; floor is the earliest CRM connection of the tenant at hand. */
  datatype Source = Source(accounts: map<string, Account>, ads: seq<Ad>, leads: seq<Lead>, deals: seq<Deal>, floor: Option<Instant>)

  // ---- What generate asks for ----

  predicate OptedIn(src: Source, t: TenantId, account: string) {
    account in src.accounts && src.accounts[account].tenant == t && src.accounts[account].optIn
  }

  /** The ads of the tenant's opted-in accounts. */
  function AccountByAd(src: Source, t: TenantId, ads: seq<Ad>): (r: map<AdId, string>)
    ensures forall a :: a in r ==> OptedIn(src, t, r[a])
  {
    if |ads| == 0 then map[]
    else
      var before := AccountByAd(src, t, Front(ads));
      if Last(ads).tenant == t && OptedIn(src, t, Last(ads).account) then before[Last(ads).id := Last(ads).account] else before
  }

  predicate AfterFloor(floor: Option<Instant>, at: Instant) {
    floor.Some? ==> floor.value <= at
  }

  predicate Eligible(src: Source, t: TenantId, byAd: map<AdId, string>, l: Lead) {
    && l.tenant == t && l.adId.Some? && l.adId.value in byAd && l.status == D.Matched && l.contactId.Some?
    && AfterFloor(src.floor, l.createdAt)
  }

  /** The contacts' last-touch leads among the opted-in ads, oldest first. */
  function LeadsOf(src: Source, t: TenantId, byAd: map<AdId, string>): (r: seq<Lead>)
    ensures forall l :: l in r ==> Eligible(src, t, byAd, l)
  {
    var rows := Filter(src.leads, (l: Lead) => Eligible(src, t, byAd, l));
    SortSorts(rows, (l: Lead) => l.createdAt as real);
    SortBy(rows, (l: Lead) => l.createdAt as real)
  }

  function LastLeads(leads: seq<Lead>): map<ContactId, Lead>
    requires forall l :: l in leads ==> l.contactId.Some?
  {
    if |leads| == 0 then map[]
    else
      assert Last(leads) in leads;
      LastLeads(Front(leads))[Last(leads).contactId.value := Last(leads)]
  }

  predicate IsDealOf(src: Source, t: TenantId, contacts: set<ContactId>, d: Deal) {
    d.tenant == t && d.contactId.Some? && d.contactId.value in contacts && AfterFloor(src.floor, d.createdAt)
  }

  function DealsOf(src: Source, t: TenantId, contacts: set<ContactId>): seq<Deal> {
    Filter(src.deals, (d: Deal) => IsDealOf(src, t, contacts, d))
  }

  /** The contacts with a qualified or won deal, in order of first appearance. */
  function QualifiedContacts(deals: seq<Deal>): seq<ContactId> {
    if |deals| == 0 then []
    else
      var before, d := QualifiedContacts(Front(deals)), Last(deals);
      if d.contactId.Some? && (d.canonical == Canon.Qualified || d.canonical == Canon.Won)
      then AddNew(before, d.contactId.value) else before
  }

  function LeadEvent(t: TenantId, account: string, l: Lead): Event {
    Event(t, account, QualifiedLead, "QL:" + l.id, l.leadgenId, None, None, Pending)
  }

  function DealEvent(t: TenantId, account: string, l: Lead, d: Deal): Event {
    Event(t, account, Purchase, "PUR:" + d.id, l.leadgenId, Some(if d.amount.Some? then d.amount.value else 0.0), d.currency, Pending)
  }

  /** A contact's lead and the account of its ad, if it has both. */
  function TouchOf(byAd: map<AdId, string>, contactLead: map<ContactId, Lead>, c: ContactId): Option<(Lead, string)> {
    if c in contactLead && contactLead[c].adId.Some? && contactLead[c].adId.value in byAd
    then Some((contactLead[c], byAd[contactLead[c].adId.value])) else None
  }

  function LeadRequests(t: TenantId, byAd: map<AdId, string>, contactLead: map<ContactId, Lead>, contacts: seq<ContactId>): seq<Event> {
    if |contacts| == 0 then []
    else
      var touch := TouchOf(byAd, contactLead, Last(contacts));
      LeadRequests(t, byAd, contactLead, Front(contacts))
      + (if touch.Some? then [LeadEvent(t, touch.value.1, touch.value.0)] else [])
  }

  function DealRequests(t: TenantId, byAd: map<AdId, string>, contactLead: map<ContactId, Lead>, deals: seq<Deal>): seq<Event> {
    if |deals| == 0 then []
    else
      var d := Last(deals);
      var touch := if d.contactId.Some? then TouchOf(byAd, contactLead, d.contactId.value) else None;
      DealRequests(t, byAd, contactLead, Front(deals))
      + (if d.canonical == Canon.Won && touch.Some? then [DealEvent(t, touch.value.1, touch.value.0, d)] else [])
  }

  /** The events generate wants to exist, in the order it creates them. */
  function Requests(src: Source, t: TenantId): seq<Event> {
    var byAd := AccountByAd(src, t, src.ads);
    var contactLead := LastLeads(LeadsOf(src, t, byAd));
    var deals := DealsOf(src, t, contactLead.Keys);
    LeadRequests(t, byAd, contactLead, QualifiedContacts(deals)) + DealRequests(t, byAd, contactLead, deals)
  }

  lemma {:induction false} RequestsOptedIn(src: Source, t: TenantId)
    ensures forall e :: e in Requests(src, t) ==> OptedIn(src, t, e.account) && e.state == Pending && e.tenant == t
  {
    var byAd := AccountByAd(src, t, src.ads);
    var contactLead := LastLeads(LeadsOf(src, t, byAd));
    var deals := DealsOf(src, t, contactLead.Keys);
    LeadRequestsOptedIn(src, t, byAd, contactLead, QualifiedContacts(deals));
    DealRequestsOptedIn(src, t, byAd, contactLead, deals);
  }

  lemma {:induction false} LeadRequestsOptedIn(src: Source, t: TenantId, byAd: map<AdId, string>, contactLead: map<ContactId, Lead>,
                                               contacts: seq<ContactId>)
    requires forall a :: a in byAd ==> OptedIn(src, t, byAd[a])
    ensures forall e :: e in LeadRequests(t, byAd, contactLead, contacts) ==>
              OptedIn(src, t, e.account) && e.state == Pending && e.tenant == t
  {
    if |contacts| > 0 { LeadRequestsOptedIn(src, t, byAd, contactLead, Front(contacts)); }
  }

  lemma {:induction false} DealRequestsOptedIn(src: Source, t: TenantId, byAd: map<AdId, string>, contactLead: map<ContactId, Lead>,
                                               deals: seq<Deal>)
    requires forall a :: a in byAd ==> OptedIn(src, t, byAd[a])
    ensures forall e :: e in DealRequests(t, byAd, contactLead, deals) ==>
              OptedIn(src, t, e.account) && e.state == Pending && e.tenant == t
  {
    if |deals| > 0 { DealRequestsOptedIn(src, t, byAd, contactLead, Front(deals)); }
  }

  /** c's last-touch lead: none of its eligible leads is younger. */
  ghost predicate IsLastTouch(src: Source, t: TenantId, c: ContactId, l: Lead) {
    var byAd := AccountByAd(src, t, src.ads);
    && l in src.leads && Eligible(src, t, byAd, l) && l.contactId == Some(c)
    && forall o :: o in src.leads && Eligible(src, t, byAd, o) && o.contactId == Some(c) ==> o.createdAt <= l.createdAt
  }

  lemma {:induction false} LastLeadIsYoungest(leads: seq<Lead>, c: ContactId)
    requires (forall l :: l in leads ==> l.contactId.Some?) && SortedBy(leads, (l: Lead) => l.createdAt as real)
    ensures c in LastLeads(leads) <==> exists l :: l in leads && l.contactId == Some(c)
    ensures c in LastLeads(leads) ==>
              && LastLeads(leads)[c] in leads && LastLeads(leads)[c].contactId == Some(c)
              && forall o :: o in leads && o.contactId == Some(c) ==> o.createdAt <= LastLeads(leads)[c].createdAt
  {
    if |leads| > 0 {
      var front, last := Front(leads), Last(leads);
      assert leads == front + [last];
      LastLeadIsYoungest(front, c);
      forall o | o in front
        ensures o.createdAt <= last.createdAt
      {
        LastIsGreatest(leads, (l: Lead) => l.createdAt as real, o);
      }
    }
  }

  /** The lead generate keeps for a contact is its last-touch lead, and it keeps one whenever there is one. */
  lemma {:induction false} KeptLeadIsLastTouch(src: Source, t: TenantId, c: ContactId)
    ensures var contactLead := LastLeads(LeadsOf(src, t, AccountByAd(src, t, src.ads)));
            && (c in contactLead ==> IsLastTouch(src, t, c, contactLead[c]))
            && (forall l :: IsLastTouch(src, t, c, l) ==> c in contactLead)
  {
    var byAd := AccountByAd(src, t, src.ads);
    var rows := Filter(src.leads, (l: Lead) => Eligible(src, t, byAd, l));
    SortSorts(rows, (l: Lead) => l.createdAt as real);
    LastLeadIsYoungest(LeadsOf(src, t, byAd), c);
    forall l | IsLastTouch(src, t, c, l)
      ensures l in LeadsOf(src, t, byAd)
    {
      assert l in rows;
    }
  }

  /** A contact's kept lead and the account of its ad, if the contact has a lead to keep. */
  function KeptTouch(src: Source, t: TenantId, c: ContactId): Option<(Lead, string)> {
    var byAd := AccountByAd(src, t, src.ads);
    TouchOf(byAd, LastLeads(LeadsOf(src, t, byAd)), c)
  }

  lemma {:induction false} KeptTouchExact(src: Source, t: TenantId, c: ContactId)
    ensures var kept := KeptTouch(src, t, c);
            && (kept.Some? <==> exists l :: IsLastTouch(src, t, c, l))
            && (kept.Some? ==> IsLastTouch(src, t, c, kept.value.0) && OptedIn(src, t, kept.value.1))
            && (kept.Some? <==> c in LastLeads(LeadsOf(src, t, AccountByAd(src, t, src.ads))))
  {
    KeptLeadIsLastTouch(src, t, c);
  }

  /** A deal of the tenant past the floor, whose contact has a kept lead. */
  predicate IsOutcome(src: Source, t: TenantId, d: Deal) {
    && d in src.deals && d.tenant == t && AfterFloor(src.floor, d.createdAt)
    && d.contactId.Some? && KeptTouch(src, t, d.contactId.value).Some?
  }

  /** e is the qualified-lead event of d's contact, and d qualifies it. */
  predicate WantsLead(src: Source, t: TenantId, d: Deal, e: Event) {
    && IsOutcome(src, t, d) && (d.canonical == Canon.Qualified || d.canonical == Canon.Won)
    && var touch := KeptTouch(src, t, d.contactId.value).value; e == LeadEvent(t, touch.1, touch.0)
  }

  /** e is the purchase event of the won deal d. */
  predicate WantsPurchase(src: Source, t: TenantId, d: Deal, e: Event) {
    && IsOutcome(src, t, d) && d.canonical == Canon.Won
    && var touch := KeptTouch(src, t, d.contactId.value).value; e == DealEvent(t, touch.1, touch.0, d)
  }

  lemma {:induction false} OutcomesAreDeals(src: Source, t: TenantId, d: Deal)
    ensures d in DealsOf(src, t, LastLeads(LeadsOf(src, t, AccountByAd(src, t, src.ads))).Keys) <==> IsOutcome(src, t, d)
  {
    if d.contactId.Some? { KeptTouchExact(src, t, d.contactId.value); }
  }

  predicate Qualifying(d: Deal, c: ContactId) {
    d.contactId == Some(c) && (d.canonical == Canon.Qualified || d.canonical == Canon.Won)
  }

  lemma {:induction false} QualifiedContactsExact(deals: seq<Deal>, c: ContactId)
    ensures c in QualifiedContacts(deals) <==> exists d :: d in deals && Qualifying(d, c)
  {
    if |deals| > 0 {
      assert deals == Front(deals) + [Last(deals)] && Last(deals) in deals;
      QualifiedContactsExact(Front(deals), c);
    }
  }

  ghost predicate IsLeadRequest(t: TenantId, byAd: map<AdId, string>, contactLead: map<ContactId, Lead>, c: ContactId, e: Event) {
    var touch := TouchOf(byAd, contactLead, c);
    touch.Some? && e == LeadEvent(t, touch.value.1, touch.value.0)
  }

  lemma {:induction false} LeadRequestsExact(t: TenantId, byAd: map<AdId, string>, contactLead: map<ContactId, Lead>,
                                             contacts: seq<ContactId>, e: Event)
    ensures e in LeadRequests(t, byAd, contactLead, contacts)
            <==> exists c :: c in contacts && IsLeadRequest(t, byAd, contactLead, c, e)
  {
    if |contacts| > 0 {
      assert contacts == Front(contacts) + [Last(contacts)] && Last(contacts) in contacts;
      LeadRequestsExact(t, byAd, contactLead, Front(contacts), e);
    }
  }

  ghost predicate IsDealRequest(t: TenantId, byAd: map<AdId, string>, contactLead: map<ContactId, Lead>, d: Deal, e: Event) {
    var touch := if d.contactId.Some? then TouchOf(byAd, contactLead, d.contactId.value) else None;
    d.canonical == Canon.Won && touch.Some? && e == DealEvent(t, touch.value.1, touch.value.0, d)
  }

  lemma {:induction false} DealRequestsExact(t: TenantId, byAd: map<AdId, string>, contactLead: map<ContactId, Lead>,
                                             deals: seq<Deal>, e: Event)
    ensures e in DealRequests(t, byAd, contactLead, deals)
            <==> exists d :: d in deals && IsDealRequest(t, byAd, contactLead, d, e)
  {
    if |deals| > 0 {
      assert deals == Front(deals) + [Last(deals)] && Last(deals) in deals;
      DealRequestsExact(t, byAd, contactLead, Front(deals), e);
    }
  }

  /** The qualified-lead events among the requests are exactly those some qualified or won deal asks for. */
  lemma {:induction false} LeadsRequested(src: Source, t: TenantId, e: Event)
    ensures var byAd := AccountByAd(src, t, src.ads);
            var contactLead := LastLeads(LeadsOf(src, t, byAd));
            e in LeadRequests(t, byAd, contactLead, QualifiedContacts(DealsOf(src, t, contactLead.Keys)))
            <==> exists d :: WantsLead(src, t, d, e)
  {
    var byAd := AccountByAd(src, t, src.ads);
    var contactLead := LastLeads(LeadsOf(src, t, byAd));
    var deals := DealsOf(src, t, contactLead.Keys);
    LeadRequestsExact(t, byAd, contactLead, QualifiedContacts(deals), e);
    if c :| c in QualifiedContacts(deals) && IsLeadRequest(t, byAd, contactLead, c, e) {
      QualifiedContactsExact(deals, c);
      var d :| d in deals && Qualifying(d, c);
      OutcomesAreDeals(src, t, d);
      assert WantsLead(src, t, d, e);
    }
    if d :| WantsLead(src, t, d, e) {
      OutcomesAreDeals(src, t, d);
      QualifiedContactsExact(deals, d.contactId.value);
      assert Qualifying(d, d.contactId.value);
      assert IsLeadRequest(t, byAd, contactLead, d.contactId.value, e);
    }
  }

  lemma {:induction false} PurchasesRequested(src: Source, t: TenantId, e: Event)
    ensures var byAd := AccountByAd(src, t, src.ads);
            var contactLead := LastLeads(LeadsOf(src, t, byAd));
            e in DealRequests(t, byAd, contactLead, DealsOf(src, t, contactLead.Keys)) <==> exists d :: WantsPurchase(src, t, d, e)
  {
    var byAd := AccountByAd(src, t, src.ads);
    var contactLead := LastLeads(LeadsOf(src, t, byAd));
    var deals := DealsOf(src, t, contactLead.Keys);
    DealRequestsExact(t, byAd, contactLead, deals, e);
    if d :| d in deals && IsDealRequest(t, byAd, contactLead, d, e) {
      OutcomesAreDeals(src, t, d);
      assert WantsPurchase(src, t, d, e);
    }
    if d :| WantsPurchase(src, t, d, e) {
      OutcomesAreDeals(src, t, d);
      assert IsDealRequest(t, byAd, contactLead, d, e);
    }
  }

  /**
   * An event is requested if and only if it is the qualified-lead event of a contact with a kept lead and a
   * qualified or won deal past the floor, or the purchase event of such a contact's won deal past the floor.
   */
  lemma {:induction false} RequestsExact(src: Source, t: TenantId, e: Event)
    ensures e in Requests(src, t) <==> (exists d :: WantsLead(src, t, d, e)) || (exists d :: WantsPurchase(src, t, d, e))
  {
    LeadsRequested(src, t, e);
    PurchasesRequested(src, t, e);
  }

  /**
   * Every won deal of a contact with a last-touch lead is requested once it is past the floor, for the account
   * of that lead's ad: the guards inside the loops never skip.
   */
  lemma {:induction false} WonDealRequested(src: Source, t: TenantId, d: Deal, l: Lead)
    requires d in src.deals && d.tenant == t && d.canonical == Canon.Won && AfterFloor(src.floor, d.createdAt)
    requires d.contactId.Some? && IsLastTouch(src, t, d.contactId.value, l)
    ensures exists kept, account :: IsLastTouch(src, t, d.contactId.value, kept) && OptedIn(src, t, account)
                                    && DealEvent(t, account, kept, d) in Requests(src, t)
  {
    KeptTouchExact(src, t, d.contactId.value);
    var touch := KeptTouch(src, t, d.contactId.value).value;
    var e := DealEvent(t, touch.1, touch.0, d);
    assert WantsPurchase(src, t, d, e);
    RequestsExact(src, t, e);
  }

  // ---- Creating events ----

  predicate Exists(events: seq<Event>, eventId: string) {
    exists e | e in events :: e.eventId == eventId
  }

  /** createEvent: an existing event id is never created again. */
  function Create(events: seq<Event>, e: Event): seq<Event> {
    if Exists(events, e.eventId) then events else events + [e]
  }

  function CreateAll(events: seq<Event>, requests: seq<Event>): seq<Event> {
    if |requests| == 0 then events else Create(CreateAll(events, Front(requests)), Last(requests))
  }

  function Generated(events: seq<Event>, src: Source, t: TenantId): seq<Event> {
    CreateAll(events, Requests(src, t))
  }

  ghost predicate UniqueIds(events: seq<Event>) {
    forall i, j :: 0 <= i < j < |events| ==> events[i].eventId != events[j].eventId
  }

  /** Creation only appends, keeps ids unique, adds only requests with new ids, and covers every request. */
  lemma {:induction false} CreateAllExact(events: seq<Event>, requests: seq<Event>)
    requires UniqueIds(events)
    ensures var r := CreateAll(events, requests);
            && UniqueIds(r) && |events| <= |r| && r[..|events|] == events
            && (forall e :: e in requests ==> Exists(r, e.eventId))
            && forall i :: |events| <= i < |r| ==> r[i] in requests && !Exists(events, r[i].eventId)
  {
    RequestsExist(events, requests);
    CreatedAppended(events, requests);
  }

  lemma {:induction false} RequestsExist(events: seq<Event>, requests: seq<Event>)
    ensures forall e :: e in requests ==> Exists(CreateAll(events, requests), e.eventId)
  {
    if |requests| > 0 {
      RequestsExist(events, Front(requests));
      assert requests == Front(requests) + [Last(requests)];
      ExistsAfterCreate(CreateAll(events, Front(requests)), Last(requests));
    }
  }

  lemma {:induction false} ExistsAfterCreate(events: seq<Event>, e: Event)
    ensures Exists(Create(events, e), e.eventId)
    ensures forall id :: Exists(events, id) ==> Exists(Create(events, e), id)
  {
    assert !Exists(events, e.eventId) ==> e in Create(events, e);
    assert forall x :: x in events ==> x in Create(events, e);
  }

  lemma {:induction false} CreatedAppended(events: seq<Event>, requests: seq<Event>)
    requires UniqueIds(events)
    ensures var r := CreateAll(events, requests);
            && UniqueIds(r) && |events| <= |r| && r[..|events|] == events
            && forall i :: |events| <= i < |r| ==> r[i] in requests && !Exists(events, r[i].eventId)
  {
    if |requests| > 0 {
      var before, e := CreateAll(events, Front(requests)), Last(requests);
      CreatedAppended(events, Front(requests));
      assert requests == Front(requests) + [e];
      if !Exists(before, e.eventId) {
        assert forall x :: x in events ==> x in before by { assert before[..|events|] == events; }
        assert (before + [e])[..|events|] == before[..|events|];
      }
    }
  }

  lemma {:induction false} NothingToCreate(events: seq<Event>, requests: seq<Event>)
    requires forall e :: e in requests ==> Exists(events, e.eventId)
    ensures CreateAll(events, requests) == events
  {
    if |requests| > 0 {
      assert requests == Front(requests) + [Last(requests)];
      NothingToCreate(events, Front(requests));
    }
  }

  // ---- Pushing events ----

  datatype Verdict = Accept | Reject | Throw

  /** What the platform answers for an event id; a connector may lack the operation. */
  type Connector = Option<string -> Verdict>

  /** The event table and the log of ids handed to the connector. */
  datatype Db = Db(events: seq<Event>, sent: seq<string>)

  const BATCH := 500

  predicate IsPending(events: seq<Event>, t: TenantId, i: nat) {
    i < |events| && events[i].tenant == t && events[i].state == Pending
  }

  predicate InRange(events: seq<Event>, batch: seq<nat>) {
    forall k :: 0 <= k < |batch| ==> batch[k] < |events|
  }

  predicate AllPending(events: seq<Event>, t: TenantId, batch: seq<nat>) {
    forall k :: 0 <= k < |batch| ==> IsPending(events, t, batch[k])
  }

  function PendingCount(events: seq<Event>, t: TenantId): nat {
    if |events| == 0 then 0
    else PendingCount(Front(events), t) + (if Last(events).tenant == t && Last(events).state == Pending then 1 else 0)
  }

  /** Any answer of the pending query: at most 500 of the tenant's pending events, all of them if there are no more. */
  ghost predicate IsBatch(events: seq<Event>, t: TenantId, batch: seq<nat>) {
    && Distinct(batch)
    && AllPending(events, t, batch)
    && |batch| == (if PendingCount(events, t) < BATCH then PendingCount(events, t) else BATCH)
  }

  predicate Pushable(db: Db, accounts: set<string>, connector: Connector, i: nat)
    requires i < |db.events|
  {
    db.events[i].account in accounts && connector.Some?
  }

  /** One event: the connector is called once and the verdict closes the event; without an account nothing happens. */
  function PushOne(db: Db, accounts: set<string>, connector: Connector, i: nat): (r: Db)
    requires i < |db.events|
    ensures |r.events| == |db.events|
  {
    if !Pushable(db, accounts, connector, i) then db
    else
      var e := db.events[i];
      Db(db.events[i := e.(state := if connector.value(e.eventId).Accept? then Accepted else Rejected)], db.sent + [e.eventId])
  }

  function PushAll(db: Db, accounts: set<string>, connector: Connector, batch: seq<nat>): (r: Db)
    requires InRange(db.events, batch)
    ensures |r.events| == |db.events|
  {
    if |batch| == 0 then db
    else
      PushOne(PushAll(db, accounts, connector, Front(batch)), accounts, connector, Last(batch))
  }

  // ---- At most once ----

  /** Ids are unique, no id was sent twice, and everything sent is closed. */
  ghost predicate Once(db: Db) {
    && UniqueIds(db.events)
    && Distinct(db.sent)
    && forall x :: x in db.sent ==> exists i :: 0 <= i < |db.events| && db.events[i].eventId == x && db.events[i].state != Pending
  }

  /** Events keep their rows up to the state, and a closed event keeps that too. */
  ghost predicate Settles(events: seq<Event>, later: seq<Event>) {
    && |events| <= |later|
    && forall i :: 0 <= i < |events| ==>
         && later[i] == events[i].(state := later[i].state)
         && (events[i].state != Pending ==> later[i].state == events[i].state)
  }

  lemma {:induction false} SettlesChain(a: seq<Event>, b: seq<Event>, c: seq<Event>)
    requires Settles(a, b) && Settles(b, c)
    ensures Settles(a, c)
  {
  }

  lemma {:induction false} PushOneKeepsOnce(db: Db, accounts: set<string>, connector: Connector, i: nat)
    requires Once(db) && i < |db.events| && db.events[i].state == Pending
    ensures var r := PushOne(db, accounts, connector, i);
            && Once(r) && Settles(db.events, r.events)
            && (forall j :: 0 <= j < |db.events| && j != i ==> r.events[j] == db.events[j])
            && r.sent == db.sent + (if Pushable(db, accounts, connector, i) then [db.events[i].eventId] else [])
  {
    var r := PushOne(db, accounts, connector, i);
    if Pushable(db, accounts, connector, i) {
      var id := db.events[i].eventId;
      assert id !in db.sent;
      forall x | x in r.sent
        ensures exists j :: 0 <= j < |r.events| && r.events[j].eventId == x && r.events[j].state != Pending
      {
        if x == id {
          assert r.events[i].eventId == x;
        } else {
          var j :| 0 <= j < |db.events| && db.events[j].eventId == x && db.events[j].state != Pending;
          assert r.events[j] == db.events[j];
        }
      }
    }
  }

  lemma {:induction false} PushAllKeepsOnce(db: Db, t: TenantId, accounts: set<string>, connector: Connector, batch: seq<nat>)
    requires Once(db) && Distinct(batch) && AllPending(db.events, t, batch)
    ensures var r := PushAll(db, accounts, connector, batch);
            && Once(r) && Settles(db.events, r.events)
            && forall j: nat :: j < |db.events| && j !in batch ==> r.events[j] == db.events[j]
  {
    if |batch| > 0 {
      PushAllKeepsOnce(db, t, accounts, connector, Front(batch));
      var before := PushAll(db, accounts, connector, Front(batch));
      assert Last(batch) !in Front(batch) && batch[|batch| - 1] == Last(batch);
      PushOneKeepsOnce(before, accounts, connector, Last(batch));
      SettlesChain(db.events, before.events, PushAll(db, accounts, connector, batch).events);
    }
  }

  /** A run of the loop: generations and pushes of any tenants, in any order. */
  datatype Action =
    | Generate(t: TenantId, src: Source)
    | Push(t: TenantId, accounts: set<string>, connector: Connector, batch: seq<nat>)

  ghost predicate Allowed(db: Db, a: Action) {
    a.Push? ==> IsBatch(db.events, a.t, a.batch)
  }

  function Act(db: Db, a: Action): Db
    requires a.Push? ==> InRange(db.events, a.batch)
  {
    match a
    case Generate(t, src) => db.(events := Generated(db.events, src, t))
    case Push(_, accounts, connector, batch) => PushAll(db, accounts, connector, batch)
  }

  ghost predicate History(dbs: seq<Db>, actions: seq<Action>) {
    && |dbs| == |actions| + 1
    && forall i :: 0 <= i < |actions| ==> Allowed(dbs[i], actions[i]) && dbs[i + 1] == Act(dbs[i], actions[i])
  }

  lemma {:induction false} ActKeepsOnce(db: Db, a: Action)
    requires Once(db) && Allowed(db, a)
    ensures Once(Act(db, a)) && Settles(db.events, Act(db, a).events)
  {
    match a
    case Generate(t, src) =>
      CreateAllExact(db.events, Requests(src, t));
      var r := Generated(db.events, src, t);
      assert forall i :: 0 <= i < |db.events| ==> r[i] == r[..|db.events|][i] == db.events[i];
      forall x | x in db.sent
        ensures exists i :: 0 <= i < |r| && r[i].eventId == x && r[i].state != Pending
      {
        var i :| 0 <= i < |db.events| && db.events[i].eventId == x && db.events[i].state != Pending;
        assert r[i] == db.events[i];
      }
    case Push(t, accounts, connector, batch) =>
      PushAllKeepsOnce(db, t, accounts, connector, batch);
  }

  /**
   * At most once, over every serial run from an empty table: event ids stay unique, no id reaches the connector
   * twice, and between any two moments an event only ever moves from pending to a closed state it then keeps.
   */
  lemma {:induction false} AtMostOnce(dbs: seq<Db>, actions: seq<Action>, i: nat, j: nat)
    requires History(dbs, actions) && i <= j < |dbs| && dbs[0] == Db([], [])
    ensures Once(dbs[i]) && Once(dbs[j]) && Settles(dbs[i].events, dbs[j].events)
  {
    if j == 0 {
    } else if i < j {
      AtMostOnce(dbs, actions, i, j - 1);
      ActKeepsOnce(dbs[j - 1], actions[j - 1]);
      SettlesChain(dbs[i].events, dbs[j - 1].events, dbs[j].events);
    } else {
      AtMostOnce(dbs, actions, i - 1, i - 1);
      ActKeepsOnce(dbs[i - 1], actions[i - 1]);
    }
  }

  /** Every event a generation adds is pending and for an account of the tenant that is opted in at that moment. */
  lemma {:induction false} CreatedForOptedIn(events: seq<Event>, src: Source, t: TenantId)
    requires UniqueIds(events)
    ensures var r := Generated(events, src, t);
            && |events| <= |r| && r[..|events|] == events
            && forall i :: |events| <= i < |r| ==> OptedIn(src, t, r[i].account) && r[i].state == Pending && r[i].tenant == t
  {
    CreateAllExact(events, Requests(src, t));
    RequestsOptedIn(src, t);
  }

  /** Generating again on unchanged data creates nothing, whatever was generated or pushed in between. */
  lemma {:induction false} GenerateAgain(events: seq<Event>, src: Source, t: TenantId, later: seq<Event>)
    requires UniqueIds(events) && Settles(Generated(events, src, t), later)
    ensures Generated(later, src, t) == later
  {
    var r := Generated(events, src, t);
    CreateAllExact(events, Requests(src, t));
    forall e | e in Requests(src, t)
      ensures Exists(later, e.eventId)
    {
      ExistsLater(r, later, e.eventId);
    }
    NothingToCreate(later, Requests(src, t));
  }

  lemma {:induction false} ExistsLater(events: seq<Event>, later: seq<Event>, eventId: string)
    requires Settles(events, later) && Exists(events, eventId)
    ensures Exists(later, eventId)
  {
    var i :| 0 <= i < |events| && events[i].eventId == eventId;
    assert later[i] in later;
  }

  // ---- One push, event by event ----

  function Closed(e: Event, connector: Connector): Event
    requires connector.Some?
  {
    e.(state := if connector.value(e.eventId).Accept? then Accepted else Rejected)
  }

  /** A push closes exactly the events of its batch that have an account, by the connector's verdict; no other row changes. */
  lemma {:induction false} PushExact(db: Db, t: TenantId, accounts: set<string>, connector: Connector, batch: seq<nat>, i: nat)
    requires Distinct(batch) && AllPending(db.events, t, batch) && i < |db.events|
    ensures PushAll(db, accounts, connector, batch).events[i]
         == if i in batch && Pushable(db, accounts, connector, i) then Closed(db.events[i], connector) else db.events[i]
  {
    if |batch| > 0 {
      var front, last := Front(batch), Last(batch);
      assert batch == front + [last] && batch[|batch| - 1] == last;
      PushExact(db, t, accounts, connector, front, i);
      assert forall k :: 0 <= k < |front| ==> front[k] == batch[k];
      assert last !in front;
      PushExact(db, t, accounts, connector, front, last);
    }
  }

  /**
   * A batch holds pending events of the tenant only, as many as there are up to 500. One of them leaves pending, to
   * accepted or rejected as the connector says, if and only if its account exists and the connector can push.
   */
  lemma {:induction false} ClosedIffPushable(db: Db, t: TenantId, accounts: set<string>, connector: Connector, batch: seq<nat>, i: nat)
    requires IsBatch(db.events, t, batch) && i in batch
    ensures i < |db.events| && db.events[i].tenant == t && db.events[i].state == Pending
    ensures |batch| <= 500 && (|batch| < 500 ==> |batch| == PendingCount(db.events, t))
    ensures var e, e1 := db.events[i], PushAll(db, accounts, connector, batch).events[i];
            && (e1.state != Pending <==> e.account in accounts && connector.Some?)
            && (e1.state == Accepted <==> e.account in accounts && connector.Some? && connector.value(e.eventId) == Accept)
            && e1 == e.(state := e1.state)
  {
    var k :| 0 <= k < |batch| && batch[k] == i;
    PushExact(db, t, accounts, connector, batch, i);
  }

  /** No event but those of the batch is touched, so none of another tenant and none that is closed. */
  lemma {:induction false} OthersStay(db: Db, t: TenantId, accounts: set<string>, connector: Connector, batch: seq<nat>, i: nat)
    requires IsBatch(db.events, t, batch) && i < |db.events|
    requires db.events[i].tenant != t || db.events[i].state != Pending
    ensures PushAll(db, accounts, connector, batch).events[i] == db.events[i]
  {
    PushExact(db, t, accounts, connector, batch, i);
  }

  /** k pushes in a row, each with any batch the query may answer. */
  ghost predicate Pushes(db: Db, t: TenantId, accounts: set<string>, connectors: seq<string -> Verdict>, db': Db) {
    if |connectors| == 0 then db == db'
    else exists m, batch ::
      Pushes(db, t, accounts, Front(connectors), m) && IsBatch(m.events, t, batch)
      && db' == PushAll(m, accounts, Some(Last(connectors)), batch)
  }

  lemma {:induction false} LastPush(db: Db, t: TenantId, accounts: set<string>, connectors: seq<string -> Verdict>, db': Db)
    returns (m: Db, batch: seq<nat>)
    requires Pushes(db, t, accounts, connectors, db') && |connectors| > 0
    ensures Pushes(db, t, accounts, Front(connectors), m) && IsBatch(m.events, t, batch)
    ensures db' == PushAll(m, accounts, Some(Last(connectors)), batch)
  {
    m, batch :| Pushes(db, t, accounts, Front(connectors), m) && IsBatch(m.events, t, batch)
                && db' == PushAll(m, accounts, Some(Last(connectors)), batch);
  }

  /** An event whose account is gone keeps its row through any number of pushes. */
  lemma {:induction false} OrphanStays(db: Db, t: TenantId, accounts: set<string>, connectors: seq<string -> Verdict>, db': Db, i: nat)
    requires Pushes(db, t, accounts, connectors, db') && i < |db.events| && db.events[i].account !in accounts
    ensures |db'.events| == |db.events| && db'.events[i] == db.events[i]
  {
    if |connectors| > 0 {
      var m, batch := LastPush(db, t, accounts, connectors, db');
      OrphanStays(db, t, accounts, Front(connectors), m, i);
      PushExact(m, t, accounts, Some(Last(connectors)), batch, i);
    }
  }

  // ---- Draining ----

  /** A pending event of the tenant whose account is gone. */
  predicate IsOrphan(e: Event, t: TenantId, accounts: set<string>) {
    e.tenant == t && e.state == Pending && e.account !in accounts
  }

  function OrphanCount(events: seq<Event>, t: TenantId, accounts: set<string>): nat {
    if |events| == 0 then 0
    else OrphanCount(Front(events), t, accounts) + (if IsOrphan(Last(events), t, accounts) then 1 else 0)
  }

  lemma {:induction false} OrphansArePending(events: seq<Event>, t: TenantId, accounts: set<string>)
    ensures OrphanCount(events, t, accounts) <= PendingCount(events, t)
  {
    if |events| > 0 { OrphansArePending(Front(events), t, accounts); }
  }

  lemma {:induction false} CountUpdated(events: seq<Event>, t: TenantId, accounts: set<string>, i: nat, e: Event)
    requires IsPending(events, t, i) && e.state != Pending
    ensures PendingCount(events, t) > 0 && PendingCount(events[i := e], t) == PendingCount(events, t) - 1
    ensures OrphanCount(events[i := e], t, accounts)
         == OrphanCount(events, t, accounts) - (if IsOrphan(events[i], t, accounts) then 1 else 0)
  {
    if i == |events| - 1 {
      assert Front(events[i := e]) == Front(events);
    } else {
      CountUpdated(Front(events), t, accounts, i, e);
      assert Front(events[i := e]) == Front(events)[i := e];
    }
  }

  /** The events of the batch that have an account. */
  function PushableCount(events: seq<Event>, accounts: set<string>, batch: seq<nat>): nat
    requires InRange(events, batch)
  {
    if |batch| == 0 then 0
    else PushableCount(events, accounts, Front(batch)) + (if events[Last(batch)].account in accounts then 1 else 0)
  }

  lemma {:induction false} PushableElsewhere(events: seq<Event>, accounts: set<string>, batch: seq<nat>, i: nat, e: Event)
    requires InRange(events, batch) && i < |events| && i !in batch
    ensures PushableCount(events[i := e], accounts, batch) == PushableCount(events, accounts, batch)
  {
    if |batch| > 0 {
      assert batch == Front(batch) + [Last(batch)];
      PushableElsewhere(events, accounts, Front(batch), i, e);
    }
  }

  /** A batch holds no more orphans than there are. */
  lemma {:induction false} BatchOrphans(events: seq<Event>, t: TenantId, accounts: set<string>, batch: seq<nat>)
    requires Distinct(batch) && AllPending(events, t, batch)
    ensures |batch| - PushableCount(events, accounts, batch) <= OrphanCount(events, t, accounts)
    decreases |batch|
  {
    if |batch| > 0 {
      var front, i := Front(batch), Last(batch);
      assert batch == front + [i] && batch[|batch| - 1] == i && i !in front;
      var e := events[i].(state := Rejected);
      assert AllPending(events[i := e], t, front);
      BatchOrphans(events[i := e], t, accounts, front);
      PushableElsewhere(events, accounts, front, i, e);
      CountUpdated(events, t, accounts, i, e);
    }
  }

  /** A push takes its pushable events off the pending ones and leaves the orphans. */
  lemma {:induction false} BatchCounts(db: Db, t: TenantId, accounts: set<string>, connector: Connector, batch: seq<nat>)
    requires connector.Some? && Distinct(batch) && AllPending(db.events, t, batch)
    ensures var r := PushAll(db, accounts, connector, batch);
            && PendingCount(r.events, t) == PendingCount(db.events, t) - PushableCount(db.events, accounts, batch)
            && OrphanCount(r.events, t, accounts) == OrphanCount(db.events, t, accounts)
  {
    if |batch| > 0 {
      var front, i := Front(batch), Last(batch);
      assert batch == front + [i] && batch[|batch| - 1] == i && i !in front;
      var before := PushAll(db, accounts, connector, front);
      BatchCounts(db, t, accounts, connector, front);
      PushExact(db, t, accounts, connector, front, i);
      assert before.events[i] == db.events[i];
      CountUpdated(before.events, t, accounts, i, Closed(db.events[i], connector));
    }
  }

  function Max(a: int, b: int): int { if a < b then b else a }

  /**
   * How pushes drain the tenant's pending events, o of which are orphans: k pushes leave the orphans as they are,
   * and of the n others at least max(0, n - 500 k) and at most max(0, n - (500 - o) k). Without orphans that is
   * exactly max(0, n - 500 k); with one, no number of pushes drains them all, and 500 can hold all others up.
   */
  lemma {:induction false} PushesDrain(db: Db, t: TenantId, accounts: set<string>, connectors: seq<string -> Verdict>, db': Db)
    requires Pushes(db, t, accounts, connectors, db')
    ensures var o, k := OrphanCount(db.events, t, accounts), |connectors|;
            var n, left := PendingCount(db.events, t) - o, PendingCount(db'.events, t) - o;
            && OrphanCount(db'.events, t, accounts) == o
            && Max(0, n - BATCH * k) <= left <= Max(0, n - (BATCH - o) * k)
  {
    var o := OrphanCount(db.events, t, accounts);
    OrphansArePending(db.events, t, accounts);
    PushesBounded(db, t, accounts, connectors, db', PendingCount(db.events, t) - o);
    LeftExact(PendingCount(db.events, t) - o, o, |connectors|, PendingCount(db'.events, t) - o);
  }

  lemma {:induction false} LeftExact(n: nat, o: nat, k: nat, left: int)
    requires Repeatedly(n, BATCH, k) <= left <= Repeatedly(n, BATCH - o, k)
    ensures Max(0, n - BATCH * k) <= left <= Max(0, n - (BATCH - o) * k)
  {
    RepeatedlyExact(n, BATCH, k);
    RepeatedlyExact(n, BATCH - o, k);
  }

  /** n lowered k times by step, but not below zero. */
  function Repeatedly(n: int, step: int, k: nat): int {
    if k == 0 then n else Max(0, Repeatedly(n, step, k - 1) - step)
  }

  lemma {:induction false} RepeatedlyExact(n: nat, step: int, k: nat)
    ensures Repeatedly(n, step, k) == Max(0, n - step * k)
  {
    if k > 0 {
      RepeatedlyExact(n, step, k - 1);
      assert step * k == step * (k - 1) + step;
      assert step <= 0 ==> step * (k - 1) <= 0;
    }
  }

  lemma {:induction false} PushesBounded(db: Db, t: TenantId, accounts: set<string>, connectors: seq<string -> Verdict>, db': Db, n: nat)
    requires Pushes(db, t, accounts, connectors, db')
    requires n == PendingCount(db.events, t) - OrphanCount(db.events, t, accounts)
    ensures var o := OrphanCount(db.events, t, accounts);
            && OrphanCount(db'.events, t, accounts) == o
            && 0 <= Repeatedly(n, BATCH, |connectors|) <= PendingCount(db'.events, t) - o <= Repeatedly(n, BATCH - o, |connectors|)
  {
    if |connectors| > 0 {
      var m, batch := LastPush(db, t, accounts, connectors, db');
      PushesBounded(db, t, accounts, Front(connectors), m, n);
      OnePush(m, t, accounts, Some(Last(connectors)), batch);
    }
  }

  /** One push closes its whole batch but for at most all the orphans. */
  lemma {:induction false} OnePush(db: Db, t: TenantId, accounts: set<string>, connector: Connector, batch: seq<nat>)
    requires connector.Some? && IsBatch(db.events, t, batch)
    ensures var r, o := PushAll(db, accounts, connector, batch), OrphanCount(db.events, t, accounts);
            var before, after := PendingCount(db.events, t) - o, PendingCount(r.events, t) - o;
            && OrphanCount(r.events, t, accounts) == o
            && 0 <= after <= before && before - BATCH <= after
            && after <= (if before + o <= BATCH then 0 else before - (BATCH - o))
  {
    BatchCounts(db, t, accounts, connector, batch);
    BatchOrphans(db.events, t, accounts, batch);
    PushableWithin(db.events, accounts, batch);
    OrphansArePending(PushAll(db, accounts, connector, batch).events, t, accounts);
  }

  lemma {:induction false} PushableWithin(events: seq<Event>, accounts: set<string>, batch: seq<nat>)
    requires InRange(events, batch)
    ensures PushableCount(events, accounts, batch) <= |batch|
  {
    if |batch| > 0 { PushableWithin(events, accounts, Front(batch)); }
  }

  /** After enough pushes nothing is pending if and only if no pending event has lost its account. */
  lemma {:induction false} DrainsIffNoOrphan(db: Db, t: TenantId, accounts: set<string>, connectors: seq<string -> Verdict>, db': Db)
    requires Pushes(db, t, accounts, connectors, db') && PendingCount(db.events, t) <= BATCH * |connectors|
    ensures PendingCount(db'.events, t) == 0 <==> OrphanCount(db.events, t, accounts) == 0
  {
    PushesDrain(db, t, accounts, connectors, db');
    OrphansArePending(db'.events, t, accounts);
  }

  // ---- 500 orphans starve one event ----

  /** Event i of a table whose first 500 events have lost their account. */
  function Starving(i: nat): Event {
    Event("t", if i < BATCH then "gone" else "here", Purchase, seq(i, _ => 'x'), None, None, None, Pending)
  }

  function StarvingTable(n: nat): seq<Event> {
    seq(n, i requires 0 <= i < n => Starving(i))
  }

  lemma {:induction false} StarvingCount(n: nat)
    ensures PendingCount(StarvingTable(n), "t") == n
  {
    if n > 0 {
      assert Front(StarvingTable(n)) == StarvingTable(n - 1);
      StarvingCount(n - 1);
    }
  }

  /** A push whose query answers 500 orphans changes nothing, though the 501st event could be sent. */
  lemma {:induction false} OrphansStarve(connector: Connector)
    ensures exists db, batch ::
              && Once(db) && IsBatch(db.events, "t", batch)
              && (exists i :: 0 <= i < |db.events| && IsPending(db.events, "t", i) && db.events[i].account in {"here"})
              && PushAll(db, {"here"}, connector, batch) == db
  {
    var db := Db(StarvingTable(BATCH + 1), []);
    var batch: seq<nat> := seq(BATCH, i => i);
    StarvingCount(BATCH + 1);
    forall i, j | 0 <= i < j < |db.events|
      ensures db.events[i].eventId != db.events[j].eventId
    {
      assert |db.events[i].eventId| == i && |db.events[j].eventId| == j;
    }
    assert Once(db);
    assert IsBatch(db.events, "t", batch);
    assert IsPending(db.events, "t", BATCH) && db.events[BATCH].account == "here";
    forall k | 0 <= k < |batch|
      ensures !Pushable(db, {"here"}, connector, batch[k])
    {
      assert "gone"[0] != "here"[0];
    }
    PushStalls(db, "t", {"here"}, connector, batch);
  }

  /** A push changes nothing exactly when no event of its batch has an account, or the connector cannot push. */
  lemma {:induction false} PushStalls(db: Db, t: TenantId, accounts: set<string>, connector: Connector, batch: seq<nat>)
    requires IsBatch(db.events, t, batch) && Once(db)
    ensures PushAll(db, accounts, connector, batch) == db
            <==> forall k :: 0 <= k < |batch| ==> !Pushable(db, accounts, connector, batch[k])
  {
    PushAllLog(db, accounts, connector, batch);
  }

  lemma {:induction false} PushAllLog(db: Db, accounts: set<string>, connector: Connector, batch: seq<nat>)
    requires InRange(db.events, batch)
    ensures var r := PushAll(db, accounts, connector, batch);
            && |r.sent| >= |db.sent|
            && (forall i :: 0 <= i < |db.events| ==> r.events[i].account == db.events[i].account)
            && ((forall k :: 0 <= k < |batch| ==> !Pushable(db, accounts, connector, batch[k])) ==> r == db)
            && ((exists k :: 0 <= k < |batch| && Pushable(db, accounts, connector, batch[k])) ==> |r.sent| > |db.sent|)
  {
    if |batch| > 0 {
      PushAllLog(db, accounts, connector, Front(batch));
      var front := Front(batch);
      assert forall k :: 0 <= k < |front| ==> front[k] == batch[k];
    }
  }

  // ---- The service ----

  class ConversionsService {
    var events: seq<Event>
    var sent: seq<string>

    constructor ()
      ensures State() == Db([], [])
    {
      events, sent := [], [];
    }

    ghost function State(): Db
      reads this
    {
      Db(events, sent)
    }

    method CreateEvent(e: Event) returns (created: bool)
      modifies this`events
      ensures events == Create(old(events), e)
      ensures created == !Exists(old(events), e.eventId)
    {
      if Exists(events, e.eventId) {
        return false;
      }
      events := events + [e];
      return true;
    }

    method CollectTouches(leads: seq<Lead>) returns (contactLead: map<ContactId, Lead>)
      requires forall l :: l in leads ==> l.contactId.Some?
      ensures contactLead == LastLeads(leads)
    {
      contactLead := map[];
      for i := 0 to |leads|
        invariant contactLead == LastLeads(leads[..i])
      {
        assert Front(leads[..i + 1]) == leads[..i] && leads[i] in leads;
        contactLead := contactLead[leads[i].contactId.value := leads[i]];
      }
      assert leads[..|leads|] == leads;
    }

    method CreateLeadEvents(t: TenantId, byAd: map<AdId, string>, contactLead: map<ContactId, Lead>, contacts: seq<ContactId>)
      returns (created: nat)
      modifies this`events
      ensures events == CreateAll(old(events), LeadRequests(t, byAd, contactLead, contacts))
      ensures |events| == |old(events)| + created
    {
      created := 0;
      for i := 0 to |contacts|
        invariant events == CreateAll(old(events), LeadRequests(t, byAd, contactLead, contacts[..i]))
        invariant |events| == |old(events)| + created
      {
        assert Front(contacts[..i + 1]) == contacts[..i];
        ghost var before := LeadRequests(t, byAd, contactLead, contacts[..i]);
        var touch := TouchOf(byAd, contactLead, contacts[i]);
        if touch.None? {
          assert before + [] == before;
          continue;
        }
        var e := LeadEvent(t, touch.value.1, touch.value.0);
        assert Front(before + [e]) == before;
        var ok := CreateEvent(e);
        if ok {
          created := created + 1;
        }
      }
      assert contacts[..|contacts|] == contacts;
    }

    method CreateDealEvents(t: TenantId, byAd: map<AdId, string>, contactLead: map<ContactId, Lead>, deals: seq<Deal>)
      returns (created: nat)
      modifies this`events
      ensures events == CreateAll(old(events), DealRequests(t, byAd, contactLead, deals))
      ensures |events| == |old(events)| + created
    {
      created := 0;
      for i := 0 to |deals|
        invariant events == CreateAll(old(events), DealRequests(t, byAd, contactLead, deals[..i]))
        invariant |events| == |old(events)| + created
      {
        assert Front(deals[..i + 1]) == deals[..i];
        ghost var before := DealRequests(t, byAd, contactLead, deals[..i]);
        var d := deals[i];
        var touch := if d.contactId.Some? then TouchOf(byAd, contactLead, d.contactId.value) else None;
        if d.canonical != Canon.Won || touch.None? {
          assert before + [] == before;
          continue;
        }
        var e := DealEvent(t, touch.value.1, touch.value.0, d);
        assert Front(before + [e]) == before;
        var ok := CreateEvent(e);
        if ok {
          created := created + 1;
        }
      }
      assert deals[..|deals|] == deals;
    }

    method GenerateEvents(t: TenantId, src: Source) returns (created: nat)
      modifies this`events
      ensures events == Generated(old(events), src, t)
      ensures |events| == |old(events)| + created
    {
      var byAd := AccountByAd(src, t, src.ads);
      var leads := LeadsOf(src, t, byAd);
      if byAd == map[] {
        FirstIsMember(leads);
        NoAdsNoRequests(src, t);
        return 0;
      }
      var contactLead := CollectTouches(leads);
      var deals := DealsOf(src, t, contactLead.Keys);
      var ofLeads := CreateLeadEvents(t, byAd, contactLead, QualifiedContacts(deals));
      var ofDeals := CreateDealEvents(t, byAd, contactLead, deals);
      CreateAllConcat(old(events), LeadRequests(t, byAd, contactLead, QualifiedContacts(deals)),
                      DealRequests(t, byAd, contactLead, deals));
      return ofLeads + ofDeals;
    }

    /** The pending query: some batch of at most 500. */
    method FindPending(t: TenantId) returns (batch: seq<nat>)
      ensures IsBatch(events, t, batch)
    {
      batch := [];
      for i := 0 to |events|
        invariant Distinct(batch) && AllPending(events, t, batch) && forall k :: 0 <= k < |batch| ==> batch[k] < i
        invariant |batch| == if PendingCount(events[..i], t) < BATCH then PendingCount(events[..i], t) else BATCH
      {
        assert Front(events[..i + 1]) == events[..i];
        if |batch| < BATCH && events[i].tenant == t && events[i].state == Pending {
          batch := batch + [i];
        }
      }
      assert events[..|events|] == events;
    }

    /** One round of the push loop; closed is the state the event ends in, if it is pushed at all. */
    method PushEvent(i: nat, accounts: set<string>, connector: Connector) returns (closed: Option<EventState>)
      requires i < |events| && events[i].state == Pending
      modifies this
      ensures State() == PushOne(old(State()), accounts, connector, i)
      ensures forall j :: 0 <= j < |events| && j != i ==> events[j] == old(events)[j]
      ensures CountIn(events, Accepted) == CountIn(old(events), Accepted) + (if closed == Some(Accepted) then 1 else 0)
      ensures CountIn(events, Rejected) == CountIn(old(events), Rejected) + (if closed == Some(Rejected) then 1 else 0)
    {
      var e := events[i];
      if e.account !in accounts || connector.None? {
        return None;
      }
      var verdict := connector.value(e.eventId);
      var state := if verdict.Accept? then Accepted else Rejected;
      CountMoved(events, i, state);
      sent := sent + [e.eventId];
      events := events[i := e.(state := state)];
      return Some(state);
    }

    method PushPending(t: TenantId, accounts: set<string>, connector: Connector) returns (pushed: nat, accepted: nat, rejected: nat)
      modifies this
      ensures exists batch :: IsBatch(old(events), t, batch) && pushed == |batch|
                              && State() == PushAll(old(State()), accounts, connector, batch)
      ensures CountIn(events, Accepted) == CountIn(old(events), Accepted) + accepted
      ensures CountIn(events, Rejected) == CountIn(old(events), Rejected) + rejected
    {
      var batch := FindPending(t);
      accepted, rejected := 0, 0;
      for k := 0 to |batch|
        invariant InRange(old(events), batch[..k])
        invariant |events| == |old(events)|
        invariant State() == PushAll(old(State()), accounts, connector, batch[..k])
        invariant forall j :: k <= j < |batch| ==> events[batch[j]] == old(events)[batch[j]]
        invariant CountIn(events, Accepted) == CountIn(old(events), Accepted) + accepted
        invariant CountIn(events, Rejected) == CountIn(old(events), Rejected) + rejected
      {
        assert Front(batch[..k + 1]) == batch[..k];
        var closed := PushEvent(batch[k], accounts, connector);
        if closed == Some(Accepted) {
          accepted := accepted + 1;
        } else if closed == Some(Rejected) {
          rejected := rejected + 1;
        }
      }
      assert batch[..|batch|] == batch;
      pushed := |batch|;
    }
  }

  function CountIn(events: seq<Event>, state: EventState): nat {
    if |events| == 0 then 0 else CountIn(Front(events), state) + (if Last(events).state == state then 1 else 0)
  }

  /** Closing a pending event raises the count of its new state alone. */
  lemma {:induction false} CountMoved(events: seq<Event>, i: nat, state: EventState)
    requires i < |events| && events[i].state == Pending && state != Pending
    ensures var events1 := events[i := events[i].(state := state)];
            && CountIn(events1, Accepted) == CountIn(events, Accepted) + (if state == Accepted then 1 else 0)
            && CountIn(events1, Rejected) == CountIn(events, Rejected) + (if state == Rejected then 1 else 0)
  {
    var e := events[i].(state := state);
    if i == |events| - 1 {
      assert Front(events[i := e]) == Front(events);
    } else {
      CountMoved(Front(events), i, state);
      assert Front(events[i := e]) == Front(events)[i := e];
    }
  }

  lemma {:induction false} CreateAllConcat(events: seq<Event>, a: seq<Event>, b: seq<Event>)
    ensures CreateAll(CreateAll(events, a), b) == CreateAll(events, a + b)
  {
    if |b| == 0 {
      assert a + b == a;
    } else {
      CreateAllConcat(events, a, Front(b));
      ConcatSnoc(a, b);
      assert Front((a + Front(b)) + [Last(b)]) == a + Front(b);
    }
  }

  lemma {:induction false} NoAdsNoRequests(src: Source, t: TenantId)
    requires LeadsOf(src, t, AccountByAd(src, t, src.ads)) == []
    ensures Requests(src, t) == []
  {
    var byAd := AccountByAd(src, t, src.ads);
    var none: map<ContactId, Lead> := map[];
    var deals := DealsOf(src, t, none.Keys);
    FirstIsMember(deals);
    NoLeadsNoDealRequests(t, byAd, deals);
    assert QualifiedContacts(deals) == [];
  }

  lemma {:induction false} NoLeadsNoDealRequests(t: TenantId, byAd: map<AdId, string>, deals: seq<Deal>)
    ensures DealRequests(t, byAd, map[], deals) == []
  {
    if |deals| > 0 { NoLeadsNoDealRequests(t, byAd, Front(deals)); }
  }
}
