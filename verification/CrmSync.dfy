/** Pulling a CRM into contacts, leads and deals (apps/api/src/ingest/crm-sync.service.ts). */
module CrmSync {
  import opened Common
  import opened ContactResolving
  import opened UpsertTable
  import Canon = CanonicalStatus
  import M = Matching
  import D = MatchDecision

  type Stage = string
  type ConnId = string

  datatype RawContact = RawContact(externalId: string, payload: Payload)

  datatype RawLead = RawLead(source: M.Source, externalId: Option<string>, signals: M.Signals, adExternalId: Option<string>,
                             payload: Payload, createdAt: Instant)

  datatype RawDeal = RawDeal(externalId: string, contactExternalId: Option<string>, stage: Stage, amount: Option<real>,
                             currency: Option<string>, createdAt: Instant, wonAt: Option<Instant>)

  datatype StageEvent = StageEvent(deal: string, stage: Stage)

  /** What the connector returns in one sync; history is absent when the connector cannot fetch it. */
  datatype Batch = Batch(contacts: seq<RawContact>, leads: seq<RawLead>, history: Option<seq<StageEvent>>, deals: seq<RawDeal>)

  datatype DealKey = DealKey(tenant: TenantId, externalId: string)

  datatype Deal = Deal(stage: Stage, history: seq<Stage>, canonical: Canon.Canonical, amount: Option<real>,
                       currency: Option<string>, createdAt: Instant, wonAt: Option<Instant>, contactId: Option<ContactId>)

  type Deals = map<DealKey, Deal>
  type Leads = map<M.LeadKey, M.Lead>

  /** The tables one ingest writes. */
  datatype CrmDb = CrmDb(book: Book, leads: Leads, deals: Deals)

  datatype StageKey = StageKey(conn: ConnId, stage: Stage)

  datatype StageMapping = StageMapping(name: string, canonical: Canon.Canonical)

  function LoadMappings(rows: map<StageKey, StageMapping>, conn: ConnId): (r: map<Stage, Canon.Canonical>)
    ensures forall s :: s in r <==> StageKey(conn, s) in rows
    ensures forall s :: s in r ==> r[s] == rows[StageKey(conn, s)].canonical
  {
    map k | k in rows && k.conn == conn :: k.stage := rows[k].canonical
  }

  /** Dated before the day of the connection floor. */
  predicate Before(floor: Option<Instant>, createdAt: Instant) {
    floor.Some? && createdAt < Midnight(floor.value)
  }

  // ---- Contacts ----

  function SyncContacts(b: Book, t: TenantId, raws: seq<RawContact>): (Book, map<string, ContactId>) {
    if |raws| == 0 then (b, map[])
    else
      var (b1, byExt) := SyncContacts(b, t, Front(raws));
      var (b2, c) := Resolve(b1, t, Last(raws).payload);
      (b2, if c.Some? then byExt[Last(raws).externalId := c.value] else byExt)
  }

  // ---- Leads ----

  /** What one stored lead record carries to the lead table. */
  datatype LeadRecord = LeadRecord(key: M.LeadKey, contactId: Option<ContactId>, signals: M.Signals, createdAt: Instant,
                                   seed: Option<AdId>)

  function KeyOfLead(r: LeadRecord): M.LeadKey { r.key }

  /** A new row: unmatched, with the ad the record already names. */
  function MakeLead(r: LeadRecord): M.Lead {
    M.Lead(r.contactId, r.createdAt, r.signals, M.Edge(r.seed, None, None, D.Unmatched))
  }

  /** A known row: contact and signals are refreshed, the match and the creation date are not. */
  function WriteLead(v: M.Lead, r: LeadRecord): M.Lead {
    v.(contactId := r.contactId, signals := r.signals)
  }

  function UpsertLeads(leads: Leads, rs: seq<LeadRecord>): Leads {
    UpsertAll(leads, rs, KeyOfLead, MakeLead, WriteLead)
  }

  function SeedAd(ads: seq<M.Ad>, t: TenantId, adExternalId: Option<string>): Option<AdId> {
    if !Truthy(adExternalId) then None
    else
      var ad := M.AdByExternalId(ads, t, adExternalId.value);
      if ad.Some? then Some(ad.value.id) else None
  }

  function RecordOf(ads: seq<M.Ad>, t: TenantId, l: RawLead, c: Option<ContactId>): LeadRecord
    requires l.externalId.Some?
  {
    LeadRecord(M.LeadKey(t, l.source, l.externalId.value), c, l.signals, l.createdAt, SeedAd(ads, t, l.adExternalId))
  }

  function StoreLead(ads: seq<M.Ad>, t: TenantId, b: Book, leads: Leads, l: RawLead): (Book, Leads) {
    if !Truthy(l.externalId) then (b, leads)
    else
      var (b1, c) := Resolve(b, t, l.payload);
      (b1, Upsert(leads, RecordOf(ads, t, l, c), KeyOfLead, MakeLead, WriteLead))
  }

  function SyncLeads(ads: seq<M.Ad>, t: TenantId, floor: Option<Instant>, b: Book, leads: Leads, raws: seq<RawLead>): (Book, Leads) {
    if |raws| == 0 then (b, leads)
    else
      var (b1, leads1) := SyncLeads(ads, t, floor, b, leads, Front(raws));
      if Before(floor, Last(raws).createdAt) then (b1, leads1)
      else StoreLead(ads, t, b1, leads1, Last(raws))
  }

  // ---- Deals ----

  function AddStage(hist: map<string, seq<Stage>>, e: StageEvent): map<string, seq<Stage>> {
    hist[e.deal := AddNew(if e.deal in hist then hist[e.deal] else [], e.stage)]
  }

  function Histories(events: seq<StageEvent>): map<string, seq<Stage>> {
    if |events| == 0 then map[] else AddStage(Histories(Front(events)), Last(events))
  }

  /** The deal's current stage first, then the stages of its history, each once. */
  function StagesOf(d: RawDeal, hist: map<string, seq<Stage>>): (r: seq<Stage>)
    ensures d.stage in r && Distinct(r)
  {
    var all := [d.stage] + (if d.externalId in hist then hist[d.externalId] else []);
    DedupeKeepsMembers(all);
    assert all[0] in all;
    Dedupe(all)
  }

  datatype DealRecord = DealRecord(key: DealKey, row: Deal)

  function KeyOfDeal(r: DealRecord): DealKey { r.key }
  function MakeDeal(r: DealRecord): Deal { r.row }
  function WriteDeal(v: Deal, r: DealRecord): Deal { r.row }

  function UpsertDeals(deals: Deals, rs: seq<DealRecord>): Deals {
    UpsertAll(deals, rs, KeyOfDeal, MakeDeal, WriteDeal)
  }

  function DealRecordOf(t: TenantId, mapping: map<Stage, Canon.Canonical>, byExt: map<string, ContactId>,
                        hist: map<string, seq<Stage>>, d: RawDeal): DealRecord {
    var stages := StagesOf(d, hist);
    var contactId := if Truthy(d.contactExternalId) && d.contactExternalId.value in byExt
                     then Some(byExt[d.contactExternalId.value]) else None;
    DealRecord(DealKey(t, d.externalId),
               Deal(d.stage, stages, Canon.Rollup(stages, mapping, d.stage), d.amount, d.currency, d.createdAt, d.wonAt, contactId))
  }

  function DealRecords(t: TenantId, floor: Option<Instant>, mapping: map<Stage, Canon.Canonical>, byExt: map<string, ContactId>,
                       hist: map<string, seq<Stage>>, raws: seq<RawDeal>): seq<DealRecord> {
    if |raws| == 0 then []
    else
      var rs := DealRecords(t, floor, mapping, byExt, hist, Front(raws));
      if Before(floor, Last(raws).createdAt) then rs else rs + [DealRecordOf(t, mapping, byExt, hist, Last(raws))]
  }

  // ---- One ingest ----

  function HistoryOf(batch: Batch): map<string, seq<Stage>> {
    if batch.history.Some? then Histories(batch.history.value) else map[]
  }

  /** Everything a sync stores before it runs the matcher. */
  function Ingest(ads: seq<M.Ad>, t: TenantId, mapping: map<Stage, Canon.Canonical>, floor: Option<Instant>, batch: Batch, db: CrmDb): CrmDb {
    var (b1, byExt) := SyncContacts(db.book, t, batch.contacts);
    var (b2, leads) := SyncLeads(ads, t, floor, b1, db.leads, batch.leads);
    CrmDb(b2, leads, UpsertDeals(db.deals, DealRecords(t, floor, mapping, byExt, HistoryOf(batch), batch.deals)))
  }

  // ---- A second ingest of the same batch ----

  lemma {:induction false} ExtendsTransitive(a: Book, b: Book, c: Book)
    requires Extends(a, b) && Extends(b, c)
    ensures Extends(a, c)
  {
    assert c.contacts[..|a.contacts|] == c.contacts[..|b.contacts|][..|a.contacts|];
  }

  /** Any book that grew out of the first pass answers the same contacts and grows no further. */
  lemma {:induction false} ContactsAgain(b: Book, t: TenantId, raws: seq<RawContact>, later: Book)
    requires Extends(SyncContacts(b, t, raws).0, later)
    ensures SyncContacts(later, t, raws) == (later, SyncContacts(b, t, raws).1)
  {
    if |raws| > 0 {
      var (b1, _) := SyncContacts(b, t, Front(raws));
      var p := Last(raws).payload;
      var (b2, c) := Resolve(b1, t, p);
      ResolveExtends(b1, t, p);
      ExtendsTransitive(b1, b2, later);
      ContactsAgain(b, t, Front(raws), later);
      ResolveMakesKnown(b1, t, p);
      KnownStays(b2, later, t, p, c);
      KnownIsStable(later, t, p, c);
    }
  }

  /** The records the lead loop upserts, with the contacts the growing book answers. */
  function LeadRecords(ads: seq<M.Ad>, t: TenantId, floor: Option<Instant>, b: Book, raws: seq<RawLead>): seq<LeadRecord> {
    if |raws| == 0 then []
    else
      var l := Last(raws);
      var rs := LeadRecords(ads, t, floor, b, Front(raws));
      if Before(floor, l.createdAt) || !Truthy(l.externalId) then rs
      else rs + [RecordOf(ads, t, l, Resolve(SyncLeads(ads, t, floor, b, map[], Front(raws)).0, t, l.payload).1)]
  }

  lemma {:induction false} LeadsAreUpserts(ads: seq<M.Ad>, t: TenantId, floor: Option<Instant>, b: Book, leads: Leads, raws: seq<RawLead>)
    ensures SyncLeads(ads, t, floor, b, leads, raws).0 == SyncLeads(ads, t, floor, b, map[], raws).0
    ensures SyncLeads(ads, t, floor, b, leads, raws).1 == UpsertLeads(leads, LeadRecords(ads, t, floor, b, raws))
  {
    if |raws| > 0 {
      LeadsAreUpserts(ads, t, floor, b, leads, Front(raws));
    }
  }

  lemma {:induction false} LeadsExtend(ads: seq<M.Ad>, t: TenantId, floor: Option<Instant>, b: Book, raws: seq<RawLead>)
    ensures Extends(b, SyncLeads(ads, t, floor, b, map[], raws).0)
  {
    if |raws| > 0 {
      var (b1, _) := SyncLeads(ads, t, floor, b, map[], Front(raws));
      LeadsExtend(ads, t, floor, b, Front(raws));
      ResolveExtends(b1, t, Last(raws).payload);
      ExtendsTransitive(b, b1, Resolve(b1, t, Last(raws).payload).0);
    }
  }

  lemma {:induction false} LeadsAgain(ads: seq<M.Ad>, t: TenantId, floor: Option<Instant>, b: Book, raws: seq<RawLead>, later: Book)
    requires Extends(SyncLeads(ads, t, floor, b, map[], raws).0, later)
    ensures SyncLeads(ads, t, floor, later, map[], raws).0 == later
    ensures LeadRecords(ads, t, floor, later, raws) == LeadRecords(ads, t, floor, b, raws)
  {
    if |raws| > 0 {
      var (b1, _) := SyncLeads(ads, t, floor, b, map[], Front(raws));
      var p := Last(raws).payload;
      var (b2, c) := Resolve(b1, t, p);
      ResolveExtends(b1, t, p);
      if Before(floor, Last(raws).createdAt) || !Truthy(Last(raws).externalId) {
        LeadsAgain(ads, t, floor, b, Front(raws), later);
      } else {
        ExtendsTransitive(b1, b2, later);
        LeadsAgain(ads, t, floor, b, Front(raws), later);
        ResolveMakesKnown(b1, t, p);
        KnownStays(b2, later, t, p, c);
        KnownIsStable(later, t, p, c);
      }
    }
  }

  /** The same rows up to the columns the matcher owns. */
  ghost predicate SameButEdges(a: Leads, b: Leads) {
    && a.Keys == b.Keys
    && forall k :: k in a ==> b[k] == a[k].(edge := b[k].edge)
  }

  lemma {:induction false} LeadRowsAgain(leads: Leads, rs: seq<LeadRecord>, matched: Leads)
    requires SameButEdges(UpsertLeads(leads, rs), matched)
    ensures UpsertLeads(matched, rs) == matched
  {
    var once := UpsertLeads(leads, rs);
    forall k: M.LeadKey
      ensures k in UpsertLeads(matched, rs) <==> k in matched
      ensures k in matched ==> UpsertLeads(matched, rs)[k] == matched[k]
    {
      KnownRow(leads, rs, k, KeyOfLead, MakeLead, WriteLead);
      KnownRow(matched, rs, k, KeyOfLead, MakeLead, WriteLead);
      if HasKey(rs, k, KeyOfLead) {
        LastRecordDecides(matched[k], rs, k, KeyOfLead, WriteLead);
        if k in leads {
          LastRecordDecides(leads[k], rs, k, KeyOfLead, WriteLead);
        } else {
          var first := NewRow(leads, rs, k, KeyOfLead, MakeLead, WriteLead);
          LastRecordDecides(MakeLead(first), rs, k, KeyOfLead, WriteLead);
        }
      } else if k in matched {
        NoWrites(matched[k], rs, k, KeyOfLead, WriteLead);
      }
    }
    assert UpsertLeads(matched, rs).Keys == matched.Keys;
  }

  /**
   * Re-sync idempotence: ingesting the same batch again, after the matcher has rewritten any edges, stores
   * nothing new and changes no contact, identifier, deal or lead row at all.
   */
  lemma {:induction false} IngestTwice(ads: seq<M.Ad>, t: TenantId, mapping: map<Stage, Canon.Canonical>, floor: Option<Instant>, batch: Batch,
                    db: CrmDb, matched: Leads)
    requires SameButEdges(Ingest(ads, t, mapping, floor, batch, db).leads, matched)
    ensures var synced := Ingest(ads, t, mapping, floor, batch, db).(leads := matched);
            Ingest(ads, t, mapping, floor, batch, synced) == synced
  {
    var once := Ingest(ads, t, mapping, floor, batch, db);
    var (b1, byExt) := SyncContacts(db.book, t, batch.contacts);
    LeadsAreUpserts(ads, t, floor, b1, db.leads, batch.leads);
    LeadsExtend(ads, t, floor, b1, batch.leads);
    ContactsAgain(db.book, t, batch.contacts, once.book);
    LeadsAgain(ads, t, floor, b1, batch.leads, once.book);
    LeadsAreUpserts(ads, t, floor, once.book, matched, batch.leads);
    LeadRowsAgain(db.leads, LeadRecords(ads, t, floor, b1, batch.leads), matched);
    BatchTwice(db.deals, DealRecords(t, floor, mapping, byExt, HistoryOf(batch), batch.deals), KeyOfDeal, MakeDeal, WriteDeal);
  }

  // ---- The connection floor ----

  lemma {:induction false} LeadRecordsAfterFloor(ads: seq<M.Ad>, t: TenantId, floor: Option<Instant>, b: Book, raws: seq<RawLead>)
    ensures forall r :: r in LeadRecords(ads, t, floor, b, raws) ==> !Before(floor, r.createdAt) && r.key.tenant == t
  {
    if |raws| > 0 { LeadRecordsAfterFloor(ads, t, floor, b, Front(raws)); }
  }

  lemma {:induction false} DealRecordsAfterFloor(t: TenantId, floor: Option<Instant>, mapping: map<Stage, Canon.Canonical>,
                                                 byExt: map<string, ContactId>, hist: map<string, seq<Stage>>, raws: seq<RawDeal>)
    ensures forall r :: r in DealRecords(t, floor, mapping, byExt, hist, raws) ==>
              && !Before(floor, r.row.createdAt) && r.key.tenant == t
              && r.row.stage in r.row.history
              && r.row.canonical == Canon.Rollup(r.row.history, mapping, r.row.stage)
  {
    if |raws| > 0 { DealRecordsAfterFloor(t, floor, mapping, byExt, hist, Front(raws)); }
  }

  /** A deal table holds, for each key of a batch, its last record, and its old row for every other key. */
  lemma {:induction false} DealRow(deals: Deals, rs: seq<DealRecord>, k: DealKey)
    ensures k in UpsertDeals(deals, rs) <==> k in deals || HasKey(rs, k, KeyOfDeal)
    ensures k in UpsertDeals(deals, rs) ==>
              UpsertDeals(deals, rs)[k] == if HasKey(rs, k, KeyOfDeal) then LastOf(rs, k, KeyOfDeal).row else deals[k]
  {
    KnownRow(deals, rs, k, KeyOfDeal, MakeDeal, WriteDeal);
    if HasKey(rs, k, KeyOfDeal) {
      if k in deals {
        LastRecordDecides(deals[k], rs, k, KeyOfDeal, WriteDeal);
      } else {
        var first := NewRow(deals, rs, k, KeyOfDeal, MakeDeal, WriteDeal);
        LastRecordDecides(MakeDeal(first), rs, k, KeyOfDeal, WriteDeal);
      }
    } else if k in deals {
      NoWrites(deals[k], rs, k, KeyOfDeal, WriteDeal);
    }
  }

  /** No lead or deal an ingest creates is dated before the day of the floor. */
  lemma {:induction false} NothingBeforeFloor(ads: seq<M.Ad>, t: TenantId, mapping: map<Stage, Canon.Canonical>, floor: Option<Instant>, batch: Batch, db: CrmDb)
    ensures var db1 := Ingest(ads, t, mapping, floor, batch, db);
            && (forall k :: k in db1.leads && k !in db.leads ==> !Before(floor, db1.leads[k].createdAt))
            && (forall k :: k in db1.deals && k !in db.deals ==> !Before(floor, db1.deals[k].createdAt))
  {
    var db1 := Ingest(ads, t, mapping, floor, batch, db);
    var (b1, byExt) := SyncContacts(db.book, t, batch.contacts);
    var rs := LeadRecords(ads, t, floor, b1, batch.leads);
    var ds := DealRecords(t, floor, mapping, byExt, HistoryOf(batch), batch.deals);
    LeadsAreUpserts(ads, t, floor, b1, db.leads, batch.leads);
    LeadRecordsAfterFloor(ads, t, floor, b1, batch.leads);
    DealRecordsAfterFloor(t, floor, mapping, byExt, HistoryOf(batch), batch.deals);
    forall k | k in db1.leads && k !in db.leads
      ensures !Before(floor, db1.leads[k].createdAt)
    {
      KnownRow(db.leads, rs, k, KeyOfLead, MakeLead, WriteLead);
      var first := NewRow(db.leads, rs, k, KeyOfLead, MakeLead, WriteLead);
      LastRecordDecides(MakeLead(first), rs, k, KeyOfLead, WriteLead);
    }
    forall k | k in db1.deals && k !in db.deals
      ensures !Before(floor, db1.deals[k].createdAt)
    {
      DealRow(db.deals, ds, k);
    }
  }

  lemma {:induction false} DealsStep(deals: Deals, t: TenantId, floor: Option<Instant>, mapping: map<Stage, Canon.Canonical>,
                                     byExt: map<string, ContactId>, hist: map<string, seq<Stage>>, raws: seq<RawDeal>, i: nat)
    requires i < |raws|
    ensures var before, r := UpsertDeals(deals, DealRecords(t, floor, mapping, byExt, hist, raws[..i])),
                             DealRecordOf(t, mapping, byExt, hist, raws[i]);
            UpsertDeals(deals, DealRecords(t, floor, mapping, byExt, hist, raws[..i + 1]))
            == if Before(floor, raws[i].createdAt) then before else before[r.key := r.row]
  {
    assert Front(raws[..i + 1]) == raws[..i];
    var rs := DealRecords(t, floor, mapping, byExt, hist, raws[..i]);
    assert Front(rs + [DealRecordOf(t, mapping, byExt, hist, raws[i])]) == rs;
  }

  // ---- The service ----

  /** The tables of the CRM side that no other service owns. */
  class CrmTables {
    var mappings: map<StageKey, StageMapping>
    var deals: Deals

    constructor ()
      ensures mappings == map[] && deals == map[]
    {
      mappings, deals := map[], map[];
    }
  }

  class CrmSyncService {
    const contacts: ContactResolver
    const matching: M.MatchingService
    const tables: CrmTables

    constructor (contacts: ContactResolver, matching: M.MatchingService, tables: CrmTables)
      ensures this.contacts == contacts && this.matching == matching && this.tables == tables
    {
      this.contacts, this.matching, this.tables := contacts, matching, tables;
    }

    ghost function State(): CrmDb
      reads contacts, matching, tables
    {
      CrmDb(contacts.State(), matching.leads, tables.deals)
    }

    method UpsertLead(t: TenantId, l: RawLead)
      modifies contacts, matching`leads
      ensures (contacts.State(), matching.leads) == StoreLead(matching.catalog.ads, t, old(contacts.State()), old(matching.leads), l)
    {
      if !Truthy(l.externalId) {
        return;
      }
      var contactId := contacts.ResolveContact(t, l.payload);
      var adId: Option<AdId> := None;
      if Truthy(l.adExternalId) {
        var ad := M.AdByExternalId(matching.catalog.ads, t, l.adExternalId.value);
        if ad.Some? {
          adId := Some(ad.value.id);
        }
      }
      var key := M.LeadKey(t, l.source, l.externalId.value);
      if key in matching.leads {
        matching.leads := matching.leads[key := matching.leads[key].(contactId := contactId, signals := l.signals)];
      } else {
        matching.leads := matching.leads[key :=
          M.Lead(contactId, l.createdAt, l.signals, M.Edge(adId, None, None, D.Unmatched))];
      }
    }

    method UpsertDeal(t: TenantId, d: RawDeal, canonical: Canon.Canonical, contactId: Option<ContactId>, history: seq<Stage>)
      modifies tables`deals
      ensures tables.deals == old(tables.deals)[DealKey(t, d.externalId) :=
                Deal(d.stage, history, canonical, d.amount, d.currency, d.createdAt, d.wonAt, contactId)]
    {
      var row := Deal(d.stage, history, canonical, d.amount, d.currency, d.createdAt, d.wonAt, contactId);
      tables.deals := tables.deals[DealKey(t, d.externalId) := row];
    }

    method StoreContacts(t: TenantId, raws: seq<RawContact>) returns (byExt: map<string, ContactId>)
      modifies contacts
      ensures (contacts.State(), byExt) == SyncContacts(old(contacts.State()), t, raws)
    {
      byExt := map[];
      for i := 0 to |raws|
        invariant (contacts.State(), byExt) == SyncContacts(old(contacts.State()), t, raws[..i])
      {
        assert Front(raws[..i + 1]) == raws[..i];
        var c := contacts.ResolveContact(t, raws[i].payload);
        if c.Some? {
          byExt := byExt[raws[i].externalId := c.value];
        }
      }
      assert raws[..|raws|] == raws;
    }

    method StoreLeads(t: TenantId, floor: Option<Instant>, raws: seq<RawLead>)
      modifies contacts, matching`leads
      ensures (contacts.State(), matching.leads)
           == SyncLeads(matching.catalog.ads, t, floor, old(contacts.State()), old(matching.leads), raws)
    {
      for i := 0 to |raws|
        invariant (contacts.State(), matching.leads)
               == SyncLeads(matching.catalog.ads, t, floor, old(contacts.State()), old(matching.leads), raws[..i])
      {
        assert Front(raws[..i + 1]) == raws[..i];
        if Before(floor, raws[i].createdAt) {
          continue;
        }
        UpsertLead(t, raws[i]);
      }
      assert raws[..|raws|] == raws;
    }

    method CollectHistory(events: seq<StageEvent>) returns (histByDeal: map<string, seq<Stage>>)
      ensures histByDeal == Histories(events)
    {
      histByDeal := map[];
      for i := 0 to |events|
        invariant histByDeal == Histories(events[..i])
      {
        assert Front(events[..i + 1]) == events[..i];
        var h := events[i];
        var stages := if h.deal in histByDeal then histByDeal[h.deal] else [];
        stages := AddNew(stages, h.stage);
        histByDeal := histByDeal[h.deal := stages];
      }
      assert events[..|events|] == events;
    }

    method StoreDeals(t: TenantId, floor: Option<Instant>, mapping: map<Stage, Canon.Canonical>, byExt: map<string, ContactId>,
                      hist: map<string, seq<Stage>>, raws: seq<RawDeal>)
      modifies tables`deals
      ensures tables.deals == UpsertDeals(old(tables.deals), DealRecords(t, floor, mapping, byExt, hist, raws))
    {
      for i := 0 to |raws|
        invariant tables.deals == UpsertDeals(old(tables.deals), DealRecords(t, floor, mapping, byExt, hist, raws[..i]))
      {
        DealsStep(old(tables.deals), t, floor, mapping, byExt, hist, raws, i);
        if Before(floor, raws[i].createdAt) {
          continue;
        }
        StoreDeal(t, mapping, byExt, hist, raws[i]);
      }
      assert raws[..|raws|] == raws;
    }

    method StoreDeal(t: TenantId, mapping: map<Stage, Canon.Canonical>, byExt: map<string, ContactId>,
                     hist: map<string, seq<Stage>>, d: RawDeal)
      modifies tables`deals
      ensures var r := DealRecordOf(t, mapping, byExt, hist, d); tables.deals == old(tables.deals)[r.key := r.row]
    {
      var stages := StagesOf(d, hist);
      var canonical := Canon.Rollup(stages, mapping, d.stage);
      var contactId := if Truthy(d.contactExternalId) && d.contactExternalId.value in byExt
        then Some(byExt[d.contactExternalId.value]) else None;
      UpsertDeal(t, d, canonical, contactId, stages);
    }

    /** The part of a sync that stores the connector's batch. */
    method StoreBatch(t: TenantId, mapping: map<Stage, Canon.Canonical>, batch: Batch, floor: Option<Instant>)
      modifies contacts, matching`leads, tables`deals
      ensures State() == Ingest(matching.catalog.ads, t, mapping, floor, batch, old(State()))
    {
      var byExt := StoreContacts(t, batch.contacts);
      StoreLeads(t, floor, batch.leads);
      var hist: map<string, seq<Stage>> := map[];
      if batch.history.Some? {
        hist := CollectHistory(batch.history.value);
      }
      StoreDeals(t, floor, mapping, byExt, hist, batch.deals);
    }

    /** One sync: the ingest of the connector's batch, then one run of the matcher over the stored leads. */
    method Sync(t: TenantId, conn: ConnId, batch: Batch, floor: Option<Instant>) returns (ghost ingested: CrmDb)
      modifies contacts, matching, tables`deals
      ensures ingested == Ingest(matching.catalog.ads, t, old(LoadMappings(tables.mappings, conn)), floor, batch, old(State()))
      ensures contacts.State() == ingested.book && tables.deals == ingested.deals
      ensures exists processed, matched ::
                M.RunMade(matching.catalog, t, M.Db(ingested.leads, old(matching.audits)), matching.State(), processed, matched)
    {
      var mapping := LoadMappings(tables.mappings, conn);
      StoreBatch(t, mapping, batch, floor);
      ingested := State();
      ghost var before := matching.State();
      assert before == M.Db(ingested.leads, old(matching.audits));
      var processed, matched := matching.MatchUnmatched(t);
      assert M.RunMade(matching.catalog, t, before, matching.State(), processed, matched);
    }
  }
}
