/** What an ingest stores of each lead and deal, in terms of the connector's records (apps/api/src/ingest/crm-sync.service.ts). */
module CrmRows {
  import opened Common
  import opened Identity
  import opened ContactResolving
  import opened UpsertTable
  import opened CrmSync
  import Canon = CanonicalStatus
  import M = Matching
  import D = MatchDecision

  /** Before the floor means on an earlier day than the floor's. */
  lemma {:induction false} BeforeIsEarlierDay(floor: Option<Instant>, at: Instant)
    ensures Before(floor, at) <==> floor.Some? && at / DAY < floor.value / DAY
  {
  }

  // ---- Stage histories ----

  ghost predicate HasEvent(events: seq<StageEvent>, deal: string, s: Stage) {
    exists e :: e in events && e.deal == deal && e.stage == s
  }

  lemma {:induction false} HistoriesExact(events: seq<StageEvent>, deal: string, s: Stage)
    ensures (deal in Histories(events) && s in Histories(events)[deal]) <==> HasEvent(events, deal, s)
  {
    if |events| > 0 {
      assert events == Front(events) + [Last(events)];
      HistoriesExact(Front(events), deal, s);
    }
  }

  /** The deal is or was in this stage, as far as the batch says. */
  ghost predicate EverIn(batch: Batch, d: RawDeal, s: Stage) {
    s == d.stage || (batch.history.Some? && HasEvent(batch.history.value, d.externalId, s))
  }

  lemma {:induction false} DedupeKeepsFirst<T>(s: seq<T>)
    requires |s| > 0
    ensures |Dedupe(s)| > 0 && Dedupe(s)[0] == s[0]
  {
    if |s| > 1 {
      DedupeKeepsFirst(Front(s));
    } else {
      assert Dedupe(Front(s)) == [];
    }
  }

  /** The stored history holds exactly the stages the deal ever was in, each once, its current one first. */
  lemma {:induction false} StagesExact(batch: Batch, d: RawDeal, s: Stage)
    ensures var stages := StagesOf(d, HistoryOf(batch));
            && (s in stages <==> EverIn(batch, d, s))
            && Distinct(stages) && |stages| > 0 && stages[0] == d.stage
  {
    var hist := HistoryOf(batch);
    var all := [d.stage] + (if d.externalId in hist then hist[d.externalId] else []);
    DedupeKeepsMembers(all);
    DedupeKeepsFirst(all);
    if batch.history.Some? { HistoriesExact(batch.history.value, d.externalId, s); }
  }

  ghost predicate EverReaches(batch: Batch, d: RawDeal, mapping: map<Stage, Canon.Canonical>, c: Canon.Canonical) {
    exists s :: EverIn(batch, d, s) && s in mapping && mapping[s] == c
  }

  lemma {:induction false} ReachesExact(batch: Batch, d: RawDeal, mapping: map<Stage, Canon.Canonical>, c: Canon.Canonical)
    ensures Canon.Reaches(StagesOf(d, HistoryOf(batch)), mapping, c) <==> EverReaches(batch, d, mapping, c)
  {
    forall s
      ensures s in StagesOf(d, HistoryOf(batch)) <==> EverIn(batch, d, s)
    {
      StagesExact(batch, d, s);
    }
  }

  // ---- Contacts ----

  /** The payload names at least one usable phone or email. */
  predicate Usable(p: Payload) {
    Identifiers(p.phones, p.emails) != []
  }

  /** Record i is the last of this external id that names a person. */
  ghost predicate IsLastContact(raws: seq<RawContact>, ext: string, i: int) {
    && 0 <= i < |raws| && raws[i].externalId == ext && Usable(raws[i].payload)
    && forall j :: i < j < |raws| && raws[j].externalId == ext ==> !Usable(raws[j].payload)
  }

  lemma {:induction false} ResolvedLater(b: Book, t: TenantId, p: Payload, later: Book)
    requires Extends(Resolve(b, t, p).0, later)
    ensures Resolve(later, t, p) == (later, Resolve(b, t, p).1)
    ensures Resolve(b, t, p).1.Some? <==> Usable(p)
  {
    ResolveMakesKnown(b, t, p);
    KnownStays(Resolve(b, t, p).0, later, t, p, Resolve(b, t, p).1);
    KnownIsStable(later, t, p, Resolve(b, t, p).1);
  }

  lemma {:induction false} LastContactSnoc(raws: seq<RawContact>, ext: string)
    requires |raws| > 0
    ensures Last(raws).externalId == ext && Usable(Last(raws).payload) ==>
              forall i :: IsLastContact(raws, ext, i) <==> i == |raws| - 1
    ensures !(Last(raws).externalId == ext && Usable(Last(raws).payload)) ==>
              forall i :: IsLastContact(raws, ext, i) <==> IsLastContact(Front(raws), ext, i)
  {
    assert forall i :: 0 <= i < |raws| - 1 ==> raws[i] == Front(raws)[i];
  }

  /** A deal's contact reference is answered by the last contact record of that id that names a person. */
  lemma {:induction false} ContactsByExternalId(b: Book, t: TenantId, raws: seq<RawContact>, ext: string, later: Book)
    requires Extends(SyncContacts(b, t, raws).0, later)
    ensures ext in SyncContacts(b, t, raws).1 <==> exists i :: IsLastContact(raws, ext, i)
    ensures forall i :: IsLastContact(raws, ext, i) ==>
              ext in SyncContacts(b, t, raws).1 && Resolve(later, t, raws[i].payload).1 == Some(SyncContacts(b, t, raws).1[ext])
  {
    if |raws| > 0 {
      var (b1, byExt) := SyncContacts(b, t, Front(raws));
      var p := Last(raws).payload;
      ResolveExtends(b1, t, p);
      ExtendsTransitive(b1, Resolve(b1, t, p).0, later);
      ContactsByExternalId(b, t, Front(raws), ext, later);
      ResolvedLater(b1, t, p, later);
      LastContactSnoc(raws, ext);
      assert forall i :: 0 <= i < |raws| - 1 ==> raws[i] == Front(raws)[i];
      if Last(raws).externalId == ext && Usable(p) { assert IsLastContact(raws, ext, |raws| - 1); }
    }
  }

  lemma {:induction false} BookExtends(ads: seq<M.Ad>, t: TenantId, mapping: map<Stage, Canon.Canonical>, floor: Option<Instant>,
                                       batch: Batch, db: CrmDb)
    ensures var b1 := SyncContacts(db.book, t, batch.contacts).0;
            var later := Ingest(ads, t, mapping, floor, batch, db).book;
            Extends(b1, later) && later == SyncLeads(ads, t, floor, b1, map[], batch.leads).0
  {
    var b1 := SyncContacts(db.book, t, batch.contacts).0;
    LeadsAreUpserts(ads, t, floor, b1, db.leads, batch.leads);
    LeadsExtend(ads, t, floor, b1, batch.leads);
  }

  // ---- Deals ----

  /** Record i is the last of its deal that is not from before the floor. */
  ghost predicate IsLastDeal(raws: seq<RawDeal>, floor: Option<Instant>, i: int) {
    && 0 <= i < |raws| && !Before(floor, raws[i].createdAt)
    && forall j :: i < j < |raws| && raws[j].externalId == raws[i].externalId ==> Before(floor, raws[j].createdAt)
  }

  lemma {:induction false} DealKeySnoc(rs: seq<DealRecord>, r: DealRecord, k: DealKey)
    ensures HasKey(rs + [r], k, KeyOfDeal) <==> HasKey(rs, k, KeyOfDeal) || r.key == k
    ensures r.key == k ==> LastOf(rs + [r], k, KeyOfDeal) == r
    ensures r.key != k && HasKey(rs, k, KeyOfDeal) ==> LastOf(rs + [r], k, KeyOfDeal) == LastOf(rs, k, KeyOfDeal)
  {
    assert r in rs + [r] && KeyOfDeal(r) == r.key;
    assert forall x :: x in rs ==> x in rs + [r];
    assert Front(rs + [r]) == rs;
  }

  lemma {:induction false} LastDealRecord(t: TenantId, floor: Option<Instant>, mapping: map<Stage, Canon.Canonical>,
                                          byExt: map<string, ContactId>, hist: map<string, seq<Stage>>, raws: seq<RawDeal>, i: int)
    requires IsLastDeal(raws, floor, i)
    ensures var rs, k := DealRecords(t, floor, mapping, byExt, hist, raws), DealKey(t, raws[i].externalId);
            HasKey(rs, k, KeyOfDeal) && LastOf(rs, k, KeyOfDeal) == DealRecordOf(t, mapping, byExt, hist, raws[i])
  {
    var k := DealKey(t, raws[i].externalId);
    var before := DealRecords(t, floor, mapping, byExt, hist, Front(raws));
    if i < |raws| - 1 {
      assert forall j :: 0 <= j < |raws| - 1 ==> raws[j] == Front(raws)[j];
      LastDealRecord(t, floor, mapping, byExt, hist, Front(raws), i);
    }
    if !Before(floor, Last(raws).createdAt) {
      DealKeySnoc(before, DealRecordOf(t, mapping, byExt, hist, Last(raws)), k);
    }
  }

  /** The row of a deal says what record d says, with d's history, the status it stands for and the contact it names. */
  ghost predicate IsRowOf(row: Deal, d: RawDeal, mapping: map<Stage, Canon.Canonical>, batch: Batch, t: TenantId, book: Book) {
    && row.stage == d.stage && row.amount == d.amount && row.currency == d.currency
    && row.createdAt == d.createdAt && row.wonAt == d.wonAt
    && (forall s :: s in row.history <==> EverIn(batch, d, s))
    && Distinct(row.history) && |row.history| > 0 && row.history[0] == d.stage
    && row.canonical == (if EverReaches(batch, d, mapping, Canon.Won) then Canon.Won
                         else if EverReaches(batch, d, mapping, Canon.Qualified) then Canon.Qualified
                         else if d.stage in mapping then mapping[d.stage] else Canon.Lead)
    && (row.contactId.Some? <==>
          d.contactExternalId.Some? && d.contactExternalId.value != ""
          && exists i :: IsLastContact(batch.contacts, d.contactExternalId.value, i))
    && (row.contactId.Some? ==> forall i :: IsLastContact(batch.contacts, d.contactExternalId.value, i) ==>
          row.contactId == Resolve(book, t, batch.contacts[i].payload).1)
  }

  lemma {:induction false} RecordIsRow(t: TenantId, mapping: map<Stage, Canon.Canonical>, batch: Batch, b: Book, d: RawDeal, book: Book)
    requires Extends(SyncContacts(b, t, batch.contacts).0, book)
    ensures IsRowOf(DealRecordOf(t, mapping, SyncContacts(b, t, batch.contacts).1, HistoryOf(batch), d).row, d, mapping, batch, t, book)
  {
    forall s
      ensures s in StagesOf(d, HistoryOf(batch)) <==> EverIn(batch, d, s)
    {
      StagesExact(batch, d, s);
    }
    StagesExact(batch, d, d.stage);
    ReachesExact(batch, d, mapping, Canon.Won);
    ReachesExact(batch, d, mapping, Canon.Qualified);
    Canon.RollupExact(StagesOf(d, HistoryOf(batch)), mapping, d.stage);
    if Truthy(d.contactExternalId) { ContactsByExternalId(b, t, batch.contacts, d.contactExternalId.value, book); }
  }

  /** An ingest stores the last record of each deal not from before the floor, field by field. */
  lemma {:induction false} IngestedDeal(ads: seq<M.Ad>, t: TenantId, mapping: map<Stage, Canon.Canonical>, floor: Option<Instant>,
                                        batch: Batch, db: CrmDb, i: int)
    requires IsLastDeal(batch.deals, floor, i)
    ensures var db1, k := Ingest(ads, t, mapping, floor, batch, db), DealKey(t, batch.deals[i].externalId);
            k in db1.deals && IsRowOf(db1.deals[k], batch.deals[i], mapping, batch, t, db1.book)
  {
    var (b1, byExt) := SyncContacts(db.book, t, batch.contacts);
    var k := DealKey(t, batch.deals[i].externalId);
    BookExtends(ads, t, mapping, floor, batch, db);
    LastDealRecord(t, floor, mapping, byExt, HistoryOf(batch), batch.deals, i);
    DealRow(db.deals, DealRecords(t, floor, mapping, byExt, HistoryOf(batch), batch.deals), k);
    RecordIsRow(t, mapping, batch, db.book, batch.deals[i], Ingest(ads, t, mapping, floor, batch, db).book);
  }

  lemma {:induction false} RecordsAreOfRaws(t: TenantId, floor: Option<Instant>, mapping: map<Stage, Canon.Canonical>,
                                            byExt: map<string, ContactId>, hist: map<string, seq<Stage>>, raws: seq<RawDeal>, k: DealKey)
    requires HasKey(DealRecords(t, floor, mapping, byExt, hist, raws), k, KeyOfDeal)
    ensures k.tenant == t && exists i :: IsLastDeal(raws, floor, i) && raws[i].externalId == k.externalId
  {
    var before := DealRecords(t, floor, mapping, byExt, hist, Front(raws));
    var r := DealRecordOf(t, mapping, byExt, hist, Last(raws));
    assert forall j :: 0 <= j < |raws| - 1 ==> raws[j] == Front(raws)[j];
    if !Before(floor, Last(raws).createdAt) {
      DealKeySnoc(before, r, k);
      if r.key == k {
        assert IsLastDeal(raws, floor, |raws| - 1);
        return;
      }
    }
    RecordsAreOfRaws(t, floor, mapping, byExt, hist, Front(raws), k);
    var i :| IsLastDeal(Front(raws), floor, i) && Front(raws)[i].externalId == k.externalId;
    assert IsLastDeal(raws, floor, i);
  }

  /** A deal no record of the batch is about stays as it was. */
  lemma {:induction false} OtherDealsStay(ads: seq<M.Ad>, t: TenantId, mapping: map<Stage, Canon.Canonical>, floor: Option<Instant>,
                                          batch: Batch, db: CrmDb, k: DealKey)
    requires k.tenant != t || forall i :: IsLastDeal(batch.deals, floor, i) ==> batch.deals[i].externalId != k.externalId
    ensures var deals1 := Ingest(ads, t, mapping, floor, batch, db).deals;
            (k in deals1 <==> k in db.deals) && (k in db.deals ==> deals1[k] == db.deals[k])
  {
    var rs := DealRecords(t, floor, mapping, SyncContacts(db.book, t, batch.contacts).1, HistoryOf(batch), batch.deals);
    DealRow(db.deals, rs, k);
    if HasKey(rs, k, KeyOfDeal) {
      RecordsAreOfRaws(t, floor, mapping, SyncContacts(db.book, t, batch.contacts).1, HistoryOf(batch), batch.deals, k);
    }
  }

  // ---- Leads ----

  /** The record is stored: it has an id and is not from before the floor. */
  predicate IsStored(l: RawLead, floor: Option<Instant>) {
    !Before(floor, l.createdAt) && l.externalId.Some? && l.externalId.value != ""
  }

  predicate SameLead(a: RawLead, b: RawLead) {
    a.source == b.source && a.externalId == b.externalId
  }

  ghost predicate IsLastLead(raws: seq<RawLead>, floor: Option<Instant>, i: int) {
    && 0 <= i < |raws| && IsStored(raws[i], floor)
    && forall j :: i < j < |raws| && SameLead(raws[i], raws[j]) ==> !IsStored(raws[j], floor)
  }

  ghost predicate IsFirstLead(raws: seq<RawLead>, floor: Option<Instant>, i: int) {
    && 0 <= i < |raws| && IsStored(raws[i], floor)
    && forall j :: 0 <= j < i && SameLead(raws[i], raws[j]) ==> !IsStored(raws[j], floor)
  }

  /** ad is the seed of a record: that of an ad of the tenant with the external id it names, if there is one. */
  ghost predicate IsSeed(ads: seq<M.Ad>, t: TenantId, l: RawLead, ad: Option<AdId>) {
    && (ad.Some? <==> l.adExternalId.Some? && l.adExternalId.value != "" && exists a :: NamesAd(ads, t, l, a))
    && (ad.Some? ==> exists a :: NamesAd(ads, t, l, a) && ad.value == a.id)
  }

  ghost predicate NamesAd(ads: seq<M.Ad>, t: TenantId, l: RawLead, a: M.Ad) {
    a in ads && a.tenant == t && l.adExternalId == Some(a.externalId)
  }

  lemma {:induction false} SeedExact(ads: seq<M.Ad>, t: TenantId, l: RawLead)
    ensures IsSeed(ads, t, l, SeedAd(ads, t, l.adExternalId))
  {
    if Truthy(l.adExternalId) {
      var hits := Filter(ads, (a: M.Ad) => a.tenant == t && a.externalId == l.adExternalId.value);
      FirstIsMember(hits);
      assert forall a :: a in hits <==> NamesAd(ads, t, l, a);
    }
  }

  lemma {:induction false} LeadKeySnoc(rs: seq<LeadRecord>, r: LeadRecord, k: M.LeadKey)
    ensures HasKey(rs + [r], k, KeyOfLead) <==> HasKey(rs, k, KeyOfLead) || r.key == k
    ensures r.key == k ==> LastOf(rs + [r], k, KeyOfLead) == r
    ensures r.key != k && HasKey(rs, k, KeyOfLead) ==> LastOf(rs + [r], k, KeyOfLead) == LastOf(rs, k, KeyOfLead)
    ensures HasKey(rs, k, KeyOfLead) ==> FirstOf(rs + [r], k, KeyOfLead) == FirstOf(rs, k, KeyOfLead)
    ensures !HasKey(rs, k, KeyOfLead) && r.key == k ==> FirstOf(rs + [r], k, KeyOfLead) == r
  {
    assert r in rs + [r] && KeyOfLead(r) == r.key;
    assert forall x :: x in rs ==> x in rs + [r];
    assert Front(rs + [r]) == rs;
    assert forall i :: 0 <= i < |rs| ==> (rs + [r])[i] == rs[i] && rs[i] in rs;
    if HasKey(rs, k, KeyOfLead) {
      var x :| x in rs && KeyOfLead(x) == k;
      var i :| 0 <= i < |rs| && rs[i] == x;
      assert KeyOfLead((rs + [r])[i]) == k;
    }
  }

  /** The records of a settled book: every contact is the one the book answers. */
  function RecordIn(ads: seq<M.Ad>, t: TenantId, book: Book, l: RawLead): LeadRecord
    requires l.externalId.Some?
  {
    RecordOf(ads, t, l, Resolve(book, t, l.payload).1)
  }

  lemma {:induction false} SettledSnoc(ads: seq<M.Ad>, t: TenantId, floor: Option<Instant>, book: Book, raws: seq<RawLead>)
    requires |raws| > 0 && SyncLeads(ads, t, floor, book, map[], raws).0 == book
    ensures SyncLeads(ads, t, floor, book, map[], Front(raws)).0 == book
    ensures LeadRecords(ads, t, floor, book, raws)
         == LeadRecords(ads, t, floor, book, Front(raws))
            + (if IsStored(Last(raws), floor) then [RecordIn(ads, t, book, Last(raws))] else [])
  {
    var (b1, _) := SyncLeads(ads, t, floor, book, map[], Front(raws));
    LeadsExtend(ads, t, floor, book, Front(raws));
    if IsStored(Last(raws), floor) {
      ResolveExtends(b1, t, Last(raws).payload);
      SameBook(book, b1);
    }
  }

  lemma {:induction false} SameBook(a: Book, b: Book)
    requires Extends(a, b) && Extends(b, a)
    ensures a == b
  {
    assert a.contacts == b.contacts[..|a.contacts|] == b.contacts;
    assert a.owner.Keys == b.owner.Keys;
  }

  lemma {:induction false} LastLeadRecord(ads: seq<M.Ad>, t: TenantId, floor: Option<Instant>, book: Book, raws: seq<RawLead>, i: int)
    requires SyncLeads(ads, t, floor, book, map[], raws).0 == book && IsLastLead(raws, floor, i)
    ensures var rs, k := LeadRecords(ads, t, floor, book, raws), M.LeadKey(t, raws[i].source, raws[i].externalId.value);
            HasKey(rs, k, KeyOfLead) && LastOf(rs, k, KeyOfLead) == RecordIn(ads, t, book, raws[i])
  {
    var k := M.LeadKey(t, raws[i].source, raws[i].externalId.value);
    var before := LeadRecords(ads, t, floor, book, Front(raws));
    SettledSnoc(ads, t, floor, book, raws);
    if i < |raws| - 1 {
      assert forall j :: 0 <= j < |raws| - 1 ==> raws[j] == Front(raws)[j];
      LastLeadRecord(ads, t, floor, book, Front(raws), i);
    }
    if IsStored(Last(raws), floor) { LeadKeySnoc(before, RecordIn(ads, t, book, Last(raws)), k); }
  }

  lemma {:induction false} NoLeadRecord(ads: seq<M.Ad>, t: TenantId, floor: Option<Instant>, book: Book, raws: seq<RawLead>, l: RawLead)
    requires SyncLeads(ads, t, floor, book, map[], raws).0 == book && l.externalId.Some?
    requires forall j :: 0 <= j < |raws| && SameLead(l, raws[j]) ==> !IsStored(raws[j], floor)
    ensures !HasKey(LeadRecords(ads, t, floor, book, raws), M.LeadKey(t, l.source, l.externalId.value), KeyOfLead)
  {
    if |raws| > 0 {
      SettledSnoc(ads, t, floor, book, raws);
      assert forall j :: 0 <= j < |raws| - 1 ==> raws[j] == Front(raws)[j];
      NoLeadRecord(ads, t, floor, book, Front(raws), l);
      if IsStored(Last(raws), floor) {
        LeadKeySnoc(LeadRecords(ads, t, floor, book, Front(raws)), RecordIn(ads, t, book, Last(raws)),
                    M.LeadKey(t, l.source, l.externalId.value));
      }
    }
  }

  lemma {:induction false} FirstLeadRecord(ads: seq<M.Ad>, t: TenantId, floor: Option<Instant>, book: Book, raws: seq<RawLead>, i: int)
    requires SyncLeads(ads, t, floor, book, map[], raws).0 == book && IsFirstLead(raws, floor, i)
    ensures var rs, k := LeadRecords(ads, t, floor, book, raws), M.LeadKey(t, raws[i].source, raws[i].externalId.value);
            HasKey(rs, k, KeyOfLead) && FirstOf(rs, k, KeyOfLead) == RecordIn(ads, t, book, raws[i])
  {
    var k := M.LeadKey(t, raws[i].source, raws[i].externalId.value);
    var before := LeadRecords(ads, t, floor, book, Front(raws));
    SettledSnoc(ads, t, floor, book, raws);
    assert forall j :: 0 <= j < |raws| - 1 ==> raws[j] == Front(raws)[j];
    if i < |raws| - 1 {
      FirstLeadRecord(ads, t, floor, book, Front(raws), i);
    } else {
      NoLeadRecord(ads, t, floor, book, Front(raws), raws[i]);
    }
    if IsStored(Last(raws), floor) { LeadKeySnoc(before, RecordIn(ads, t, book, Last(raws)), k); }
  }

  /**
   * A lead takes contact and signals from the last of its records. Its date, ad and match status are those it already
   * had; a new one has the date and the seed ad of its first record and is unmatched.
   */
  lemma {:induction false} IngestedLead(ads: seq<M.Ad>, t: TenantId, mapping: map<Stage, Canon.Canonical>, floor: Option<Instant>,
                                        batch: Batch, db: CrmDb, first: int, last: int)
    requires IsFirstLead(batch.leads, floor, first) && IsLastLead(batch.leads, floor, last)
    requires SameLead(batch.leads[first], batch.leads[last])
    ensures var db1 := Ingest(ads, t, mapping, floor, batch, db);
            var k := M.LeadKey(t, batch.leads[last].source, batch.leads[last].externalId.value);
            && k in db1.leads
            && db1.leads[k].signals == batch.leads[last].signals
            && db1.leads[k].contactId == Resolve(db1.book, t, batch.leads[last].payload).1
            && (k in db.leads ==> db1.leads[k].createdAt == db.leads[k].createdAt && db1.leads[k].edge == db.leads[k].edge)
            && (k !in db.leads ==>
                  && db1.leads[k].createdAt == batch.leads[first].createdAt
                  && IsSeed(ads, t, batch.leads[first], db1.leads[k].edge.adId)
                  && db1.leads[k].edge.via == None && db1.leads[k].edge.confidence == None && db1.leads[k].edge.status == D.Unmatched)
  {
    var b1 := SyncContacts(db.book, t, batch.contacts).0;
    var book := Ingest(ads, t, mapping, floor, batch, db).book;
    var rs := LeadRecords(ads, t, floor, book, batch.leads);
    var k := M.LeadKey(t, batch.leads[last].source, batch.leads[last].externalId.value);
    BookExtends(ads, t, mapping, floor, batch, db);
    SameBookExtends(book);
    LeadsAgain(ads, t, floor, b1, batch.leads, book);
    LeadsAreUpserts(ads, t, floor, b1, db.leads, batch.leads);
    LastLeadRecord(ads, t, floor, book, batch.leads, last);
    FirstLeadRecord(ads, t, floor, book, batch.leads, first);
    SeedExact(ads, t, batch.leads[first]);
    LeadRow(db.leads, rs, k);
  }

  predicate IsAbout(l: RawLead, k: M.LeadKey) {
    l.source == k.source && l.externalId == Some(k.externalId)
  }

  /** A lead no stored record of the batch is about stays as it was. */
  lemma {:induction false} OtherLeadsStay(ads: seq<M.Ad>, t: TenantId, mapping: map<Stage, Canon.Canonical>, floor: Option<Instant>,
                                          batch: Batch, db: CrmDb, k: M.LeadKey)
    requires k.tenant != t
             || forall j :: 0 <= j < |batch.leads| && IsAbout(batch.leads[j], k) ==> !IsStored(batch.leads[j], floor)
    ensures var leads1 := Ingest(ads, t, mapping, floor, batch, db).leads;
            (k in leads1 <==> k in db.leads) && (k in db.leads ==> leads1[k] == db.leads[k])
  {
    var b1 := SyncContacts(db.book, t, batch.contacts).0;
    var book := Ingest(ads, t, mapping, floor, batch, db).book;
    var rs := LeadRecords(ads, t, floor, book, batch.leads);
    BookExtends(ads, t, mapping, floor, batch, db);
    SameBookExtends(book);
    LeadsAgain(ads, t, floor, b1, batch.leads, book);
    LeadsAreUpserts(ads, t, floor, b1, db.leads, batch.leads);
    if k.tenant == t {
      NoLeadRecord(ads, t, floor, book, batch.leads,
                   RawLead(k.source, Some(k.externalId), M.Signals(None, None, None, None, None, None, None), None, Payload(None, [], []), 0));
    } else {
      LeadRecordsAfterFloor(ads, t, floor, book, batch.leads);
    }
    assert !HasKey(rs, k, KeyOfLead);
    KnownRow(db.leads, rs, k, KeyOfLead, MakeLead, WriteLead);
    if k in db.leads { NoWrites(db.leads[k], rs, k, KeyOfLead, WriteLead); }
  }

  lemma {:induction false} SameBookExtends(b: Book)
    ensures Extends(b, b)
  {
  }

  lemma {:induction false} LeadRow(leads: Leads, rs: seq<LeadRecord>, k: M.LeadKey)
    requires HasKey(rs, k, KeyOfLead)
    ensures k in UpsertLeads(leads, rs)
    ensures UpsertLeads(leads, rs)[k]
         == WriteLead(if k in leads then leads[k] else MakeLead(FirstOf(rs, k, KeyOfLead)), LastOf(rs, k, KeyOfLead))
  {
    KnownRow(leads, rs, k, KeyOfLead, MakeLead, WriteLead);
    if k in leads {
      LastRecordDecides(leads[k], rs, k, KeyOfLead, WriteLead);
    } else {
      var first := NewRow(leads, rs, k, KeyOfLead, MakeLead, WriteLead);
      LastRecordDecides(MakeLead(first), rs, k, KeyOfLead, WriteLead);
    }
  }
}
