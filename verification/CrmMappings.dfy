/** Stage mappings and the stored status of deals (apps/api/src/crm/crm.service.ts). */
module CrmMappings {
  import opened Common
  import opened ContactResolving
  import opened CrmSync
  import opened UpsertTable
  import Canon = CanonicalStatus

  datatype MappingInput = MappingInput(stage: Stage, name: string, canonical: Canon.Canonical)

  type Mappings = map<StageKey, StageMapping>

  function ApplyMappings(rows: Mappings, conn: ConnId, dto: seq<MappingInput>): Mappings {
    if |dto| == 0 then rows
    else ApplyMappings(rows, conn, Front(dto))[StageKey(conn, Last(dto).stage) := StageMapping(Last(dto).name, Last(dto).canonical)]
  }

  /** The stages a stored deal has been in; a row without history has its current stage only. */
  function StagesOfRow(d: Deal): seq<Stage> {
    if |d.history| > 0 then d.history else [d.stage]
  }

  /** The status a stored deal has under a mapping. */
  function Recomputed(d: Deal, mapping: map<Stage, Canon.Canonical>): Canon.Canonical {
    Canon.Rollup(StagesOfRow(d), mapping, d.stage)
  }

  /** Every deal of the tenant gets its recomputed status, every other deal stays. */
  function Recanonicalized(deals: Deals, t: TenantId, mapping: map<Stage, Canon.Canonical>): Deals {
    map k | k in deals ::
      if k.tenant == t then deals[k].(canonical := Recomputed(deals[k], mapping)) else deals[k]
  }

  /** Input i is the last of its stage. */
  ghost predicate IsLastInput(dto: seq<MappingInput>, i: int) {
    0 <= i < |dto| && forall j :: i < j < |dto| ==> dto[j].stage != dto[i].stage
  }

  /** A saved mapping is that of the last input for its stage. */
  lemma {:induction false} LastInputApplies(rows: Mappings, conn: ConnId, dto: seq<MappingInput>, i: int)
    requires IsLastInput(dto, i)
    ensures var rows1, k := ApplyMappings(rows, conn, dto), StageKey(conn, dto[i].stage);
            k in rows1 && rows1[k] == StageMapping(dto[i].name, dto[i].canonical)
  {
    if i < |dto| - 1 {
      assert forall j :: 0 <= j < |dto| - 1 ==> dto[j] == Front(dto)[j];
      LastInputApplies(rows, conn, Front(dto), i);
      assert dto[|dto| - 1].stage != dto[i].stage;
    }
  }

  /** Every other row of every connection stays. */
  lemma {:induction false} OtherMappingsStay(rows: Mappings, conn: ConnId, dto: seq<MappingInput>, k: StageKey)
    requires forall i :: 0 <= i < |dto| ==> k != StageKey(conn, dto[i].stage)
    ensures k in ApplyMappings(rows, conn, dto) <==> k in rows
    ensures k in rows ==> ApplyMappings(rows, conn, dto)[k] == rows[k]
  {
    if |dto| > 0 {
      assert forall j :: 0 <= j < |dto| - 1 ==> dto[j] == Front(dto)[j];
      OtherMappingsStay(rows, conn, Front(dto), k);
    }
  }

  /** The same deals, equal in all but the status, and those of other tenants in that too. */
  ghost predicate OnlyStatusMoves(deals: Deals, later: Deals, t: TenantId) {
    && later.Keys == deals.Keys
    && forall k :: k in deals ==> later[k] == deals[k].(canonical := later[k].canonical) && (k.tenant != t ==> later[k] == deals[k])
  }

  class CrmService {
    const tables: CrmTables

    constructor (tables: CrmTables)
      ensures this.tables == tables
    {
      this.tables := tables;
    }

    method Recanonicalize(t: TenantId, conn: ConnId)
      modifies tables`deals
      ensures tables.deals == Recanonicalized(old(tables.deals), t, LoadMappings(tables.mappings, conn))
      ensures OnlyStatusMoves(old(tables.deals), tables.deals, t)
    {
      var mapping := LoadMappings(tables.mappings, conn);
      var todo := set k | k in tables.deals && k.tenant == t;
      while todo != {}
        invariant tables.deals.Keys == old(tables.deals).Keys
        invariant forall k :: k in todo ==> k in tables.deals && k.tenant == t
        invariant forall k :: k in tables.deals && (k in todo || k.tenant != t) ==> tables.deals[k] == old(tables.deals)[k]
        invariant forall k :: k in tables.deals && k !in todo && k.tenant == t ==>
                                tables.deals[k] == old(tables.deals)[k].(canonical := Recomputed(old(tables.deals)[k], mapping))
        decreases todo
      {
        var k :| k in todo;
        todo := todo - {k};
        var d := tables.deals[k];
        var stages := StagesOfRow(d);
        tables.deals := tables.deals[k := d.(canonical := Canon.Rollup(stages, mapping, d.stage))];
      }
    }

    method SetMappings(t: TenantId, conn: ConnId, dto: seq<MappingInput>)
      modifies tables
      ensures tables.mappings == ApplyMappings(old(tables.mappings), conn, dto)
      ensures tables.deals == Recanonicalized(old(tables.deals), t, LoadMappings(tables.mappings, conn))
    {
      for i := 0 to |dto|
        invariant tables.mappings == ApplyMappings(old(tables.mappings), conn, dto[..i])
        invariant tables.deals == old(tables.deals)
      {
        assert Front(dto[..i + 1]) == dto[..i];
        tables.mappings := tables.mappings[StageKey(conn, dto[i].stage) := StageMapping(dto[i].name, dto[i].canonical)];
      }
      assert dto[..|dto|] == dto;
      Recanonicalize(t, conn);
    }
  }

  // ---- The stored status is a cache ----

  /** The stored status of every deal of t is the one its stored history has under conn's current mapping. */
  ghost predicate Agrees(rows: Mappings, deals: Deals, t: TenantId, conn: ConnId) {
    forall k :: k in deals && k.tenant == t ==> deals[k].canonical == Recomputed(deals[k], LoadMappings(rows, conn))
  }

  /** Every stored history, unless empty, holds the stage the deal was stored with. */
  ghost predicate StagesRecorded(deals: Deals, t: TenantId) {
    forall k :: k in deals && k.tenant == t ==> deals[k].stage in StagesOfRow(deals[k])
  }

  /**
   * What can happen to the mappings and the CRM tables of one tenant through one connection: an ingest, after
   * which the matcher leaves its own lead rows, or a change of mappings.
   */
  datatype Event =
    | Synced(ads: seq<CrmSync.M.Ad>, floor: Option<Instant>, batch: Batch, matched: Leads)
    | Mapped(dto: seq<MappingInput>)

  function Handle(rows: Mappings, db: CrmDb, t: TenantId, conn: ConnId, e: Event): (Mappings, CrmDb) {
    match e
    case Synced(ads, floor, batch, matched) =>
      (rows, Ingest(ads, t, LoadMappings(rows, conn), floor, batch, db).(leads := matched))
    case Mapped(dto) =>
      var rows1 := ApplyMappings(rows, conn, dto);
      (rows1, db.(deals := Recanonicalized(db.deals, t, LoadMappings(rows1, conn))))
  }

  function HandleAll(rows: Mappings, db: CrmDb, t: TenantId, conn: ConnId, es: seq<Event>): (Mappings, CrmDb) {
    if |es| == 0 then (rows, db)
    else
      var (rows1, db1) := HandleAll(rows, db, t, conn, Front(es));
      Handle(rows1, db1, t, conn, Last(es))
  }

  /** The deal records of one ingest. */
  function RecordsOf(rows: Mappings, db: CrmDb, t: TenantId, conn: ConnId, floor: Option<Instant>, batch: Batch): seq<DealRecord> {
    DealRecords(t, floor, LoadMappings(rows, conn), SyncContacts(db.book, t, batch.contacts).1, HistoryOf(batch), batch.deals)
  }

  /** What an ingest leaves of each deal: its last record, with a status of its own, or the old row. */
  lemma {:induction false} SyncedDeal(rows: Mappings, db: CrmDb, t: TenantId, conn: ConnId, e: Event, k: DealKey)
    requires e.Synced?
    ensures var rs, deals1 := RecordsOf(rows, db, t, conn, e.floor, e.batch), Handle(rows, db, t, conn, e).1.deals;
            && (k in deals1 <==> k in db.deals || HasKey(rs, k, KeyOfDeal))
            && (k in deals1 && !HasKey(rs, k, KeyOfDeal) ==> deals1[k] == db.deals[k])
            && (HasKey(rs, k, KeyOfDeal) ==>
                  && deals1[k] == LastOf(rs, k, KeyOfDeal).row && deals1[k].stage in deals1[k].history && k.tenant == t
                  && deals1[k].canonical == Recomputed(deals1[k], LoadMappings(rows, conn)))
  {
    var rs := RecordsOf(rows, db, t, conn, e.floor, e.batch);
    DealRecordsAfterFloor(t, e.floor, LoadMappings(rows, conn), SyncContacts(db.book, t, e.batch.contacts).1, HistoryOf(e.batch),
                          e.batch.deals);
    DealRow(db.deals, rs, k);
  }

  lemma {:induction false} EventKeepsAgreement(rows: Mappings, db: CrmDb, t: TenantId, conn: ConnId, e: Event)
    requires Agrees(rows, db.deals, t, conn)
    ensures var (rows1, db1) := Handle(rows, db, t, conn, e); Agrees(rows1, db1.deals, t, conn)
  {
    if e.Synced? {
      var db1 := Handle(rows, db, t, conn, e).1;
      forall k | k in db1.deals && k.tenant == t
        ensures db1.deals[k].canonical == Recomputed(db1.deals[k], LoadMappings(rows, conn))
      {
        SyncedDeal(rows, db, t, conn, e, k);
      }
    }
  }

  /** After any sequence of whole ingests, matching runs and mapping changes the stored status equals its recomputation. */
  lemma {:induction false} StoredStatusAgrees(rows: Mappings, db: CrmDb, t: TenantId, conn: ConnId, es: seq<Event>)
    requires Agrees(rows, db.deals, t, conn)
    ensures var (rows1, db1) := HandleAll(rows, db, t, conn, es); Agrees(rows1, db1.deals, t, conn)
  {
    if |es| > 0 {
      var (rows1, db1) := HandleAll(rows, db, t, conn, Front(es));
      StoredStatusAgrees(rows, db, t, conn, Front(es));
      EventKeepsAgreement(rows1, db1, t, conn, Last(es));
    }
  }

  // ---- Several connections of one tenant ----

  /** Whatever the connection, an event keeps every stored history holding its stage. */
  lemma {:induction false} StagesStayRecorded(rows: Mappings, db: CrmDb, t: TenantId, conn: ConnId, e: Event)
    requires StagesRecorded(db.deals, t)
    ensures StagesRecorded(Handle(rows, db, t, conn, e).1.deals, t)
  {
    if e.Synced? {
      var deals1 := Handle(rows, db, t, conn, e).1.deals;
      forall k | k in deals1 && k.tenant == t
        ensures deals1[k].stage in StagesOfRow(deals1[k])
      {
        SyncedDeal(rows, db, t, conn, e, k);
      }
    }
  }

  /** The two connections' mappings have the same verdict on the deal. */
  ghost predicate Acceptable(rows: Mappings, other: ConnId, conn: ConnId, d: Deal) {
    Canon.SameVerdict(StagesOfRow(d), LoadMappings(rows, other), LoadMappings(rows, conn), d.stage)
  }

  /**
   * setMappings recomputes every deal of the tenant with the one connection's mapping. Another connection's
   * agreement survives it exactly when, for every deal of the tenant, the two mappings reach the same of won and
   * qualified in its history, or neither, and then map its stage alike.
   */
  lemma {:induction false} ForeignMappings(rows: Mappings, db: CrmDb, t: TenantId, conn: ConnId, other: ConnId, dto: seq<MappingInput>)
    requires StagesRecorded(db.deals, t)
    ensures var (rows1, db1) := Handle(rows, db, t, other, Mapped(dto));
            Agrees(rows1, db1.deals, t, conn) <==>
            forall k :: k in db.deals && k.tenant == t ==>
              Acceptable(rows1, other, conn, db.deals[k])
  {
    var (rows1, db1) := Handle(rows, db, t, other, Mapped(dto));
    var own, foreign := LoadMappings(rows1, conn), LoadMappings(rows1, other);
    forall k | k in db.deals && k.tenant == t
      ensures db1.deals[k].canonical == Recomputed(db1.deals[k], own)
              <==> Acceptable(rows1, other, conn, db.deals[k])
    {
      RemappedDeal(db.deals[k], foreign, own);
    }
  }

  lemma {:induction false} RemappedDeal(d: Deal, foreign: map<Stage, Canon.Canonical>, own: map<Stage, Canon.Canonical>)
    requires d.stage in StagesOfRow(d)
    ensures Recomputed(d, foreign) == Recomputed(d.(canonical := Recomputed(d, foreign)), own)
            <==> Canon.SameVerdict(StagesOfRow(d), foreign, own, d.stage)
  {
    Canon.SameVerdictExact(StagesOfRow(d), foreign, own, d.stage);
  }

  /**
   * A sync stores deals under its own connection's mapping. Another connection that agreed before still agrees
   * exactly when the two mappings have the same verdict, in the same sense, on every deal the sync stored.
   */
  lemma {:induction false} ForeignSync(rows: Mappings, db: CrmDb, t: TenantId, conn: ConnId, other: ConnId, e: Event)
    requires Agrees(rows, db.deals, t, conn) && e.Synced?
    ensures var rs := RecordsOf(rows, db, t, other, e.floor, e.batch);
            Agrees(rows, Handle(rows, db, t, other, e).1.deals, t, conn) <==>
            forall k :: HasKey(rs, k, KeyOfDeal) ==> Acceptable(rows, other, conn, LastOf(rs, k, KeyOfDeal).row)
  {
    var rs := RecordsOf(rows, db, t, other, e.floor, e.batch);
    var deals1 := Handle(rows, db, t, other, e).1.deals;
    forall k
      ensures HasKey(rs, k, KeyOfDeal) ==> k in deals1 && k.tenant == t
      ensures HasKey(rs, k, KeyOfDeal) ==>
                (deals1[k].canonical == Recomputed(deals1[k], LoadMappings(rows, conn))
                 <==> Acceptable(rows, other, conn, LastOf(rs, k, KeyOfDeal).row))
      ensures k in deals1 && k.tenant == t && !HasKey(rs, k, KeyOfDeal) ==>
                deals1[k].canonical == Recomputed(deals1[k], LoadMappings(rows, conn))
    {
      SyncedDeal(rows, db, t, other, e, k);
      if HasKey(rs, k, KeyOfDeal) {
        Canon.SameVerdictExact(deals1[k].history, LoadMappings(rows, other), LoadMappings(rows, conn), deals1[k].stage);
      }
    }
  }

  // ---- Two connections, one of which maps stage "s" to won ----

  const ONE_MAPPING: Mappings := map[StageKey("a", "s") := StageMapping("Closed", Canon.Won)]

  lemma {:induction false} TheyDiffer()
    ensures !Canon.SameVerdict(["s"], LoadMappings(ONE_MAPPING, "b"), LoadMappings(ONE_MAPPING, "a"), "s")
    ensures Canon.Rollup(["s"], LoadMappings(ONE_MAPPING, "a"), "s") == Canon.Won
  {
    var own, foreign := LoadMappings(ONE_MAPPING, "a"), LoadMappings(ONE_MAPPING, "b");
    assert "a"[0] != "b"[0];
    assert StageKey("a", "s") in ONE_MAPPING && "s" in own && own["s"] == Canon.Won;
    assert forall s :: StageKey("b", s) !in ONE_MAPPING;
    assert "s" in ["s"] && Canon.Reaches(["s"], own, Canon.Won);
    assert !Canon.Reaches(["s"], foreign, Canon.Won);
    Canon.ReachedExact(["s"], own, Canon.Won);
  }

  ghost predicate RemapBreaks(rows: Mappings, db: CrmDb) {
    && Agrees(rows, db.deals, "t", "a")
    && var (rows1, db1) := Handle(rows, db, "t", "b", Mapped([])); !Agrees(rows1, db1.deals, "t", "a")
  }

  lemma {:induction false} BadRemap(db: CrmDb, k: DealKey)
    requires Agrees(ONE_MAPPING, db.deals, "t", "a") && StagesRecorded(db.deals, "t")
    requires k in db.deals && k.tenant == "t" && !Acceptable(ONE_MAPPING, "b", "a", db.deals[k])
    ensures RemapBreaks(ONE_MAPPING, db)
  {
    ForeignMappings(ONE_MAPPING, db, "t", "a", "b", []);
  }

  /** Saving an empty mapping for connection b turns connection a's won deal back into a lead. */
  lemma {:induction false} TwoConnectionsDisagree()
    ensures exists rows: Mappings, db: CrmDb :: RemapBreaks(rows, db)
  {
    var k := DealKey("t", "d");
    var d := Deal("s", ["s"], Canon.Won, None, None, 0, None, None);
    var db := CrmDb(Book([], map[]), map[], map[k := d]);
    TheyDiffer();
    assert "s" in d.history && StagesOfRow(d) == ["s"];
    BadRemap(db, k);
  }

  const ONE_DEAL: RawDeal := RawDeal("d", None, "s", None, None, 0, None)

  lemma {:induction false} RecordOfOneDeal(mapping: map<Stage, Canon.Canonical>) returns (r: DealRecord)
    ensures DealRecords("t", None, mapping, map[], map[], [ONE_DEAL]) == [r]
    ensures r.row.history == ["s"] && r.row.stage == "s"
    ensures HasKey([r], r.key, KeyOfDeal) && LastOf([r], r.key, KeyOfDeal) == r
  {
    r := DealRecordOf("t", mapping, map[], map[], ONE_DEAL);
    var none: map<string, seq<Stage>> := map[];
    OneStage("s");
    assert StagesOf(ONE_DEAL, none) == ["s"];
    assert Front([ONE_DEAL]) == [] && [] + [r] == [r];
    assert r in [r] && KeyOfDeal(r) == r.key;
  }

  lemma {:induction false} OneStage(s: Stage)
    ensures Dedupe([s] + []) == [s]
  {
    assert [s] + [] == [s] && Front([s]) == [];
  }

  lemma {:induction false} BadSync(db: CrmDb, e: Event, r: DealRecord)
    requires e.Synced? && Agrees(ONE_MAPPING, db.deals, "t", "a")
    requires RecordsOf(ONE_MAPPING, db, "t", "b", e.floor, e.batch) == [r]
    requires HasKey([r], r.key, KeyOfDeal) && LastOf([r], r.key, KeyOfDeal) == r
    requires !Acceptable(ONE_MAPPING, "b", "a", r.row)
    ensures !Agrees(ONE_MAPPING, Handle(ONE_MAPPING, db, "t", "b", e).1.deals, "t", "a")
  {
    ForeignSync(ONE_MAPPING, db, "t", "a", "b", e);
  }

  /** A sync of connection b that stores one deal in stage "s" breaks connection a's agreement, even from empty tables. */
  lemma {:induction false} ForeignSyncDisagrees()
    ensures exists rows: Mappings, db: CrmDb, e: Event :: SyncBreaks(rows, db, e)
  {
    var db, e, r := SyncOfOneDeal();
    BadSync(db, e, r);
    assert SyncBreaks(ONE_MAPPING, db, e);
  }

  lemma {:induction false} SyncOfOneDeal() returns (db: CrmDb, e: Event, r: DealRecord)
    ensures e.Synced? && db.deals == map[] && RecordsOf(ONE_MAPPING, db, "t", "b", e.floor, e.batch) == [r]
    ensures HasKey([r], r.key, KeyOfDeal) && LastOf([r], r.key, KeyOfDeal) == r
    ensures !Acceptable(ONE_MAPPING, "b", "a", r.row)
  {
    e := Synced([], None, Batch([], [], None, [ONE_DEAL]), map[]);
    db := CrmDb(Book([], map[]), map[], map[]);
    r := RecordOfOneDeal(LoadMappings(ONE_MAPPING, "b"));
    TheyDiffer();
    assert StagesOfRow(r.row) == ["s"];
  }

  ghost predicate SyncBreaks(rows: Mappings, db: CrmDb, e: Event) {
    && e.Synced? && db.deals == map[] && Agrees(rows, db.deals, "t", "a")
    && !Agrees(rows, Handle(rows, db, "t", "b", e).1.deals, "t", "a")
  }
}
