/** Pulling an ad account's hierarchy and insights (apps/api/src/ingest/meta-sync.service.ts). */
module MetaSync {
  import opened Common
  import opened UpsertTable
  import N = CreativeName

  // ---- What the connector returns ----

  datatype RawAd = RawAd(externalId: string, name: string, status: Option<string>, effectiveStatus: Option<string>,
                         creativeExternalId: Option<string>, creativeName: Option<string>)

  datatype RawAdSet = RawAdSet(externalId: string, name: string, status: Option<string>, effectiveStatus: Option<string>, ads: seq<RawAd>)

  datatype RawCampaign = RawCampaign(externalId: string, name: string, status: Option<string>, effectiveStatus: Option<string>,
                                     adSets: seq<RawAdSet>)

  datatype RawInsight = RawInsight(adExternalId: string, day: int, spend: real, currency: string, impressions: int, clicks: int,
                                   reach: Option<int>, frequency: Option<real>)

  // ---- Tables ----

  /** The unique keys; a row's id is its key, since keys never change. */
  datatype CampaignKey = CampaignKey(account: string, externalId: string)
  datatype AdSetKey = AdSetKey(campaign: CampaignKey, externalId: string)
  datatype AdKey = AdKey(adSet: AdSetKey, externalId: string)
  datatype InsightKey = InsightKey(ad: AdKey, day: int)

  datatype Node = Node(name: string, status: Option<string>, effectiveStatus: Option<string>)
  datatype Ad = Ad(node: Node, creativeId: Option<nat>)
  datatype Insight = Insight(currency: string, spend: real, impressions: int, clicks: int, reach: Option<int>, frequency: Option<real>)

  /** Creatives have no unique constraint: the table is a list, a row's position its id. */
  datatype CreativeKey = CreativeKey(tenant: TenantId, externalId: string)
  datatype CreativeData = CreativeData(name: Option<string>, dimensions: N.Parsed)
  datatype Creative = Creative(key: CreativeKey, data: CreativeData)

  type Campaigns = map<CampaignKey, Node>
  type AdSets = map<AdSetKey, Node>
  type Ads = map<AdKey, Ad>
  type Creatives = seq<Creative>
  type Insights = map<InsightKey, Insight>

  // ---- Campaigns and ad sets ----

  datatype CampaignRecord = CampaignRecord(key: CampaignKey, node: Node)
  datatype AdSetRecord = AdSetRecord(key: AdSetKey, node: Node)

  function KeyOfCampaign(r: CampaignRecord): CampaignKey { r.key }
  function MakeCampaign(r: CampaignRecord): Node { r.node }
  function WriteCampaign(v: Node, r: CampaignRecord): Node { r.node }

  function KeyOfAdSet(r: AdSetRecord): AdSetKey { r.key }
  function MakeAdSet(r: AdSetRecord): Node { r.node }
  function WriteAdSet(v: Node, r: AdSetRecord): Node { r.node }

  function CampaignRecords(account: string, cs: seq<RawCampaign>): seq<CampaignRecord> {
    seq(|cs|, i requires 0 <= i < |cs| =>
      CampaignRecord(CampaignKey(account, cs[i].externalId), Node(cs[i].name, cs[i].status, cs[i].effectiveStatus)))
  }

  function AdSetRecordsOf(campaign: CampaignKey, ss: seq<RawAdSet>): seq<AdSetRecord> {
    seq(|ss|, i requires 0 <= i < |ss| =>
      AdSetRecord(AdSetKey(campaign, ss[i].externalId), Node(ss[i].name, ss[i].status, ss[i].effectiveStatus)))
  }

  function AdSetRecords(account: string, cs: seq<RawCampaign>): seq<AdSetRecord> {
    if |cs| == 0 then []
    else AdSetRecords(account, Front(cs)) + AdSetRecordsOf(CampaignKey(account, Last(cs).externalId), Last(cs).adSets)
  }

  function UpsertCampaigns(m: Campaigns, rs: seq<CampaignRecord>): Campaigns {
    UpsertAll(m, rs, KeyOfCampaign, MakeCampaign, WriteCampaign)
  }

  function UpsertAdSets(m: AdSets, rs: seq<AdSetRecord>): AdSets {
    UpsertAll(m, rs, KeyOfAdSet, MakeAdSet, WriteAdSet)
  }

  // ---- Creatives ----

  datatype CreativeRecord = CreativeRecord(key: CreativeKey, name: Option<string>)

  function ParsedName(name: Option<string>): N.Parsed {
    N.Parse(if name.Some? then name.value else "")
  }

  function KeyOfCreative(r: CreativeRecord): CreativeKey { r.key }

  function MakeCreative(r: CreativeRecord): CreativeData {
    CreativeData(r.name, ParsedName(r.name))
  }

  /** The name is replaced; only the dimensions the new name carries are. */
  function WriteCreative(v: CreativeData, r: CreativeRecord): CreativeData {
    CreativeData(r.name, v.dimensions + ParsedName(r.name))
  }

  /** findFirst: the position of the first creative with the key, or the table's length. */
  function IndexOf(cs: Creatives, key: CreativeKey): (i: nat)
    ensures i <= |cs| && (i < |cs| ==> cs[i].key == key) && forall j :: 0 <= j < i ==> cs[j].key != key
  {
    if |cs| == 0 then 0
    else
      var i := IndexOf(Front(cs), key);
      if i < |cs| - 1 then i else if Last(cs).key == key then |cs| - 1 else |cs|
  }

  function StoreCreative(cs: Creatives, r: CreativeRecord): Creatives {
    var i := IndexOf(cs, r.key);
    if i < |cs| then cs[i := Creative(r.key, WriteCreative(cs[i].data, r))] else cs + [Creative(r.key, MakeCreative(r))]
  }

  ghost predicate UniqueCreatives(cs: Creatives) {
    forall i, j :: 0 <= i < j < |cs| ==> cs[i].key != cs[j].key
  }

  /** Ids of the first table are ids of the second, for the same creatives. */
  ghost predicate KeepsPlaces(cs: Creatives, later: Creatives) {
    |cs| <= |later| && forall j :: 0 <= j < |cs| ==> later[j].key == cs[j].key
  }

  /** Storing keeps positions, and with them ids; it never makes a second creative of the same key. */
  lemma {:induction false} StoreKeepsPlaces(cs: Creatives, r: CreativeRecord)
    ensures var cs1 := StoreCreative(cs, r);
            && KeepsPlaces(cs, cs1)
            && IndexOf(cs1, r.key) == IndexOf(cs, r.key) < |cs1|
            && (UniqueCreatives(cs) ==> UniqueCreatives(cs1))
  {
    var cs1 := StoreCreative(cs, r);
    SameKeysSameIndex(cs, cs1, r.key);
  }

  lemma {:induction false} SameKeysSameIndex(cs: Creatives, later: Creatives, key: CreativeKey)
    requires KeepsPlaces(cs, later)
    ensures IndexOf(cs, key) < |cs| ==> IndexOf(later, key) == IndexOf(cs, key)
    ensures IndexOf(cs, key) == |cs| < |later| && later[|cs|].key == key ==> IndexOf(later, key) == |cs|
  {
  }

  // ---- Ads ----

  /** An ad under its ad set. */
  datatype AdItem = AdItem(adSet: AdSetKey, raw: RawAd)

  datatype AdRecord = AdRecord(key: AdKey, ad: Ad)

  function KeyOfAd(r: AdRecord): AdKey { r.key }
  function MakeAd(r: AdRecord): Ad { r.ad }
  function WriteAd(v: Ad, r: AdRecord): Ad { r.ad }

  function ItemsOf(adSet: AdSetKey, ads: seq<RawAd>): seq<AdItem> {
    seq(|ads|, i requires 0 <= i < |ads| => AdItem(adSet, ads[i]))
  }

  function ItemsOfAdSets(campaign: CampaignKey, ss: seq<RawAdSet>): seq<AdItem> {
    if |ss| == 0 then []
    else ItemsOfAdSets(campaign, Front(ss)) + ItemsOf(AdSetKey(campaign, Last(ss).externalId), Last(ss).ads)
  }

  function Items(account: string, cs: seq<RawCampaign>): seq<AdItem> {
    if |cs| == 0 then []
    else Items(account, Front(cs)) + ItemsOfAdSets(CampaignKey(account, Last(cs).externalId), Last(cs).adSets)
  }

  function CreativeOf(t: TenantId, raw: RawAd): Option<CreativeRecord> {
    if Truthy(raw.creativeExternalId) then Some(CreativeRecord(CreativeKey(t, raw.creativeExternalId.value), raw.creativeName)) else None
  }

  function RecordOf(item: AdItem, creativeId: Option<nat>): AdRecord {
    AdRecord(AdKey(item.adSet, item.raw.externalId),
             Ad(Node(item.raw.name, item.raw.status, item.raw.effectiveStatus), creativeId))
  }

  datatype AdTables = AdTables(creatives: Creatives, ads: Ads)

  /** upsertCreative, then the ad with the creative's id. */
  function StoreAd(db: AdTables, t: TenantId, item: AdItem): AdTables {
    var c := CreativeOf(t, item.raw);
    match c
    case None => AdTables(db.creatives, Upsert(db.ads, RecordOf(item, None), KeyOfAd, MakeAd, WriteAd))
    case Some(r) =>
      AdTables(StoreCreative(db.creatives, r),
               Upsert(db.ads, RecordOf(item, Some(IndexOf(db.creatives, r.key))), KeyOfAd, MakeAd, WriteAd))
  }

  function StoreAds(db: AdTables, t: TenantId, items: seq<AdItem>): AdTables {
    if |items| == 0 then db else StoreAd(StoreAds(db, t, Front(items)), t, Last(items))
  }

  datatype Hierarchy = Hierarchy(campaigns: Campaigns, adSets: AdSets, tables: AdTables)

  function StoreHierarchy(h: Hierarchy, t: TenantId, account: string, cs: seq<RawCampaign>): Hierarchy {
    Hierarchy(UpsertCampaigns(h.campaigns, CampaignRecords(account, cs)),
              UpsertAdSets(h.adSets, AdSetRecords(account, cs)),
              StoreAds(h.tables, t, Items(account, cs)))
  }

  // ---- Insights ----

  datatype InsightRecord = InsightRecord(key: InsightKey, row: Insight)

  function KeyOfInsight(r: InsightRecord): InsightKey { r.key }
  function MakeInsight(r: InsightRecord): Insight { r.row }
  function WriteInsight(v: Insight, r: InsightRecord): Insight { r.row }

  predicate OfAccount(ads: Ads, account: string, k: AdKey) {
    k in ads && k.adSet.campaign.account == account
  }

  /** One answer of the account's ads query as a map; of several ads with one external id the later row wins. */
  ghost predicate IsAdIndex(ads: Ads, account: string, index: map<string, AdKey>) {
    && (forall k :: OfAccount(ads, account, k) ==> k.externalId in index)
    && (forall e :: e in index ==> OfAccount(ads, account, index[e]) && index[e].externalId == e)
  }

  /** On or after the day of the connection. */
  predicate AfterFloor(floor: Option<int>, r: RawInsight) {
    !(floor.Some? && r.day < floor.value)
  }

  /** Unknown ads and days before the connection are skipped. */
  function InsightRecords(index: map<string, AdKey>, floor: Option<int>, rows: seq<RawInsight>): seq<InsightRecord> {
    if |rows| == 0 then []
    else
      var r := Last(rows);
      var before := InsightRecords(index, floor, Front(rows));
      if r.adExternalId in index && AfterFloor(floor, r) then before + [InsightRecordOf(index, r)] else before
  }

  function InsightRecordOf(index: map<string, AdKey>, r: RawInsight): InsightRecord
    requires r.adExternalId in index
  {
    InsightRecord(InsightKey(index[r.adExternalId], r.day),
                  Insight(r.currency, r.spend, r.impressions, r.clicks, r.reach, r.frequency))
  }

  function UpsertInsights(m: Insights, rs: seq<InsightRecord>): Insights {
    UpsertAll(m, rs, KeyOfInsight, MakeInsight, WriteInsight)
  }

  // ---- The second time ----

  /** The creatives as a keyed table. */
  ghost predicate Represents(cs: Creatives, m: map<CreativeKey, CreativeData>) {
    forall k :: (k in m <==> IndexOf(cs, k) < |cs|) && (k in m ==> m[k] == cs[IndexOf(cs, k)].data)
  }

  function Keyed(cs: Creatives): (m: map<CreativeKey, CreativeData>)
    ensures Represents(cs, m)
  {
    var keys := set c | c in cs :: c.key;
    map k | k in keys :: cs[IndexOf(cs, k)].data
  }

  /** Only the record's key is found elsewhere than before, and only if it was not found before. */
  lemma {:induction false} IndexAfterStore(cs: Creatives, r: CreativeRecord, k: CreativeKey)
    ensures var cs1 := StoreCreative(cs, r);
            IndexOf(cs1, k) == if IndexOf(cs, k) < |cs| || k == r.key then IndexOf(cs, k) else |cs1|
  {
    var cs1 := StoreCreative(cs, r);
    StoreKeepsPlaces(cs, r);
    SameKeysSameIndex(cs, cs1, k);
  }

  /** Find-or-update is an upsert by key. */
  lemma {:induction false} StoreIsUpsert(cs: Creatives, r: CreativeRecord, m: map<CreativeKey, CreativeData>)
    requires Represents(cs, m)
    ensures Represents(StoreCreative(cs, r), Upsert(m, r, KeyOfCreative, MakeCreative, WriteCreative))
  {
    var cs1, m1 := StoreCreative(cs, r), Upsert(m, r, KeyOfCreative, MakeCreative, WriteCreative);
    forall k
      ensures (k in m1 <==> IndexOf(cs1, k) < |cs1|) && (k in m1 ==> m1[k] == cs1[IndexOf(cs1, k)].data)
    {
      IndexAfterStore(cs, r, k);
      assert k in m ==> IndexOf(cs, k) < |cs|;
    }
  }

  function StoreCreatives(cs: Creatives, rs: seq<CreativeRecord>): Creatives {
    if |rs| == 0 then cs else StoreCreative(StoreCreatives(cs, Front(rs)), Last(rs))
  }

  /** A batch of find-or-updates is a batch of upserts. */
  lemma {:induction false} StoresAreUpserts(cs: Creatives, rs: seq<CreativeRecord>)
    ensures Represents(StoreCreatives(cs, rs), UpsertAll(Keyed(cs), rs, KeyOfCreative, MakeCreative, WriteCreative))
  {
    if |rs| > 0 {
      StoresAreUpserts(cs, Front(rs));
      StoreIsUpsert(StoreCreatives(cs, Front(rs)), Last(rs),
                    UpsertAll(Keyed(cs), Front(rs), KeyOfCreative, MakeCreative, WriteCreative));
    }
  }

  /** Storing a batch keeps places and uniqueness. */
  lemma {:induction false} BatchKeepsPlaces(cs: Creatives, rs: seq<CreativeRecord>)
    requires UniqueCreatives(cs)
    ensures UniqueCreatives(StoreCreatives(cs, rs)) && KeepsPlaces(cs, StoreCreatives(cs, rs))
  {
    if |rs| > 0 {
      BatchKeepsPlaces(cs, Front(rs));
      StoreKeepsPlaces(StoreCreatives(cs, Front(rs)), Last(rs));
    }
  }

  /** After a batch each of its records has a place. */
  lemma {:induction false} BatchPlacesAll(cs: Creatives, rs: seq<CreativeRecord>)
    ensures forall r :: r in rs ==> IndexOf(StoreCreatives(cs, rs), r.key) < |StoreCreatives(cs, rs)|
  {
    if |rs| > 0 {
      var before, r := StoreCreatives(cs, Front(rs)), Last(rs);
      BatchPlacesAll(cs, Front(rs));
      assert rs == Front(rs) + [r];
      forall x | x in rs
        ensures IndexOf(StoreCreatives(cs, rs), x.key) < |StoreCreatives(cs, rs)|
      {
        StoreKeepsPlaces(before, r);
        IndexAfterStore(before, r, x.key);
      }
    }
  }

  /** Storing records whose keys are all present adds no row. */
  lemma {:induction false} KnownCreativesAddNothing(cs: Creatives, rs: seq<CreativeRecord>)
    requires forall r :: r in rs ==> IndexOf(cs, r.key) < |cs|
    ensures |StoreCreatives(cs, rs)| == |cs| && KeepsPlaces(cs, StoreCreatives(cs, rs))
  {
    if |rs| > 0 {
      assert rs == Front(rs) + [Last(rs)];
      KnownCreativesAddNothing(cs, Front(rs));
      SameKeysSameIndex(cs, StoreCreatives(cs, Front(rs)), Last(rs).key);
    }
  }

  lemma {:induction false} CreativeLaws()
    ensures Overwrites(MakeCreative, WriteCreative)
  {
    forall r: CreativeRecord
      ensures WriteCreative(MakeCreative(r), r) == MakeCreative(r)
    {
      assert ParsedName(r.name) + ParsedName(r.name) == ParsedName(r.name);
    }
    forall v: CreativeData, r: CreativeRecord
      ensures WriteCreative(WriteCreative(v, r), r) == WriteCreative(v, r)
    {
      var p := ParsedName(r.name);
      assert (v.dimensions + p) + p == v.dimensions + p;
    }
    forall v: CreativeData, a: CreativeRecord, b: CreativeRecord
      ensures WriteCreative(WriteCreative(WriteCreative(v, a), b), a) == WriteCreative(WriteCreative(v, b), a)
    {
      var pa, pb := ParsedName(a.name), ParsedName(b.name);
      assert ((v.dimensions + pa) + pb) + pa == (v.dimensions + pb) + pa;
    }
  }

  /** The same creatives a second time: no new row, and every field as after the first time. */
  lemma {:induction false} CreativesTwice(cs: Creatives, rs: seq<CreativeRecord>)
    requires UniqueCreatives(cs)
    ensures StoreCreatives(StoreCreatives(cs, rs), rs) == StoreCreatives(cs, rs)
  {
    var once := StoreCreatives(cs, rs);
    var twice := StoreCreatives(once, rs);
    var stored := UpsertAll(Keyed(cs), rs, KeyOfCreative, MakeCreative, WriteCreative);
    BatchKeepsPlaces(cs, rs);
    StoresAreUpserts(cs, rs);
    SameMap(once, stored, Keyed(once));
    CreativeLaws();
    BatchTwice(Keyed(cs), rs, KeyOfCreative, MakeCreative, WriteCreative);
    StoresAreUpserts(once, rs);
    BatchPlacesAll(cs, rs);
    KnownCreativesAddNothing(once, rs);
    SameRows(once, twice, stored);
  }

  lemma {:induction false} SameMap(cs: Creatives, m: map<CreativeKey, CreativeData>, n: map<CreativeKey, CreativeData>)
    requires Represents(cs, m) && Represents(cs, n)
    ensures m == n
  {
    assert m.Keys == n.Keys;
  }

  lemma {:induction false} SameRows(cs: Creatives, ds: Creatives, m: map<CreativeKey, CreativeData>)
    requires UniqueCreatives(cs) && KeepsPlaces(cs, ds) && |ds| == |cs|
    requires Represents(cs, m) && Represents(ds, m)
    ensures ds == cs
  {
    forall j | 0 <= j < |cs|
      ensures ds[j] == cs[j]
    {
      assert IndexOf(cs, cs[j].key) == j && IndexOf(ds, ds[j].key) == j;
    }
  }

  function CreativeRecords(t: TenantId, items: seq<AdItem>): seq<CreativeRecord> {
    if |items| == 0 then []
    else
      var c := CreativeOf(t, Last(items).raw);
      CreativeRecords(t, Front(items)) + (if c.Some? then [c.value] else [])
  }

  /** The ad rows of a batch once the creatives have their final ids. */
  function AdRecords(t: TenantId, cs: Creatives, items: seq<AdItem>): seq<AdRecord> {
    seq(|items|, i requires 0 <= i < |items| =>
      var c := CreativeOf(t, items[i].raw);
      RecordOf(items[i], if c.Some? then Some(IndexOf(cs, c.value.key)) else None))
  }

  /** Ids given on the way are those of the final table, so the ads of a batch are one plain upsert. */
  lemma {:induction false} StoreAdsExact(db: AdTables, t: TenantId, items: seq<AdItem>, final: Creatives)
    requires UniqueCreatives(db.creatives)
    requires KeepsPlaces(StoreCreatives(db.creatives, CreativeRecords(t, items)), final)
    ensures StoreAds(db, t, items).creatives == StoreCreatives(db.creatives, CreativeRecords(t, items))
    ensures StoreAds(db, t, items).ads == UpsertAll(db.ads, AdRecords(t, final, items), KeyOfAd, MakeAd, WriteAd)
  {
    if |items| > 0 {
      var front, item := Front(items), Last(items);
      var before := StoreCreatives(db.creatives, CreativeRecords(t, front));
      var after := StoreCreatives(db.creatives, CreativeRecords(t, items));
      var c := CreativeOf(t, item.raw);
      BatchKeepsPlaces(db.creatives, CreativeRecords(t, front));
      if c.Some? {
        assert Front(CreativeRecords(t, front) + [c.value]) == CreativeRecords(t, front);
        StoreKeepsPlaces(before, c.value);
        SameKeysSameIndex(after, final, c.value.key);
      } else {
        assert CreativeRecords(t, items) == CreativeRecords(t, front);
      }
      StoreAdsExact(db, t, front, final);
      assert Front(AdRecords(t, final, items)) == AdRecords(t, final, front);
    }
  }

  /** The same ads a second time leave creatives and ads as the first time did. */
  lemma {:induction false} AdsTwice(db: AdTables, t: TenantId, items: seq<AdItem>)
    requires UniqueCreatives(db.creatives)
    ensures StoreAds(StoreAds(db, t, items), t, items) == StoreAds(db, t, items)
    ensures UniqueCreatives(StoreAds(db, t, items).creatives)
  {
    var final := StoreCreatives(db.creatives, CreativeRecords(t, items));
    BatchKeepsPlaces(db.creatives, CreativeRecords(t, items));
    CreativesTwice(db.creatives, CreativeRecords(t, items));
    StoreAdsExact(db, t, items, final);
    StoreAdsExact(StoreAds(db, t, items), t, items, final);
    BatchTwice(db.ads, AdRecords(t, final, items), KeyOfAd, MakeAd, WriteAd);
  }

  /** Re-syncing the same hierarchy leaves every table as the first sync did. */
  lemma {:induction false} HierarchyTwice(h: Hierarchy, t: TenantId, account: string, cs: seq<RawCampaign>)
    requires UniqueCreatives(h.tables.creatives)
    ensures var once := StoreHierarchy(h, t, account, cs);
            StoreHierarchy(once, t, account, cs) == once && UniqueCreatives(once.tables.creatives)
  {
    BatchTwice(h.campaigns, CampaignRecords(account, cs), KeyOfCampaign, MakeCampaign, WriteCampaign);
    BatchTwice(h.adSets, AdSetRecords(account, cs), KeyOfAdSet, MakeAdSet, WriteAdSet);
    AdsTwice(h.tables, t, Items(account, cs));
  }

  lemma {:induction false} InsightsTwice(m: Insights, index: map<string, AdKey>, floor: Option<int>, rows: seq<RawInsight>)
    ensures var once := UpsertInsights(m, InsightRecords(index, floor, rows));
            UpsertInsights(once, InsightRecords(index, floor, rows)) == once
  {
    BatchTwice(m, InsightRecords(index, floor, rows), KeyOfInsight, MakeInsight, WriteInsight);
  }

  /** A day of an ad holds the last record the batch has for it; the days the batch skips keep their row. */
  lemma {:induction false} LastInsightWins(m: Insights, rs: seq<InsightRecord>, k: InsightKey)
    ensures k in UpsertInsights(m, rs) <==> k in m || HasKey(rs, k, KeyOfInsight)
    ensures k in UpsertInsights(m, rs) ==>
              UpsertInsights(m, rs)[k] == if HasKey(rs, k, KeyOfInsight) then LastOf(rs, k, KeyOfInsight).row else m[k]
  {
    KnownRow(m, rs, k, KeyOfInsight, MakeInsight, WriteInsight);
    if HasKey(rs, k, KeyOfInsight) {
      if k in m {
        LastRecordDecides(m[k], rs, k, KeyOfInsight, WriteInsight);
      } else {
        var first := NewRow(m, rs, k, KeyOfInsight, MakeInsight, WriteInsight);
        LastRecordDecides(MakeInsight(first), rs, k, KeyOfInsight, WriteInsight);
      }
    } else if k in m {
      NoWrites(m[k], rs, k, KeyOfInsight, WriteInsight);
    }
  }

  /** Only known ads of the account and days on or after the connection are stored. */
  lemma {:induction false} InsightsAreOfKnownAds(ads: Ads, account: string, index: map<string, AdKey>, floor: Option<int>, rows: seq<RawInsight>)
    requires IsAdIndex(ads, account, index)
    ensures forall r :: r in InsightRecords(index, floor, rows) ==>
              r.key.ad in ads && r.key.ad.adSet.campaign.account == account && (floor.Some? ==> floor.value <= r.key.day)
  {
    if |rows| > 0 { InsightsAreOfKnownAds(ads, account, index, floor, Front(rows)); }
  }

  // ---- Two answers of the ads query ----

  /** Two ads of the account have this external id. */
  ghost predicate Shared(ads: Ads, account: string, externalId: string) {
    exists k, l :: OfAccount(ads, account, k) && OfAccount(ads, account, l) && k != l && k.externalId == l.externalId == externalId
  }

  /** Some row that would be stored names an external id that two ads of the account share. */
  ghost predicate Ambiguous(ads: Ads, account: string, floor: Option<int>, rows: seq<RawInsight>) {
    exists r :: r in rows && AfterFloor(floor, r) && Shared(ads, account, r.adExternalId)
  }

  /** Ads with distinct external ids leave the query one answer. */
  lemma {:induction false} OneAdIndex(ads: Ads, account: string, a: map<string, AdKey>, b: map<string, AdKey>)
    requires IsAdIndex(ads, account, a) && IsAdIndex(ads, account, b)
    requires forall e :: !Shared(ads, account, e)
    ensures a == b
  {
    forall e
      ensures e in a <==> e in b
      ensures e in a ==> a[e] == b[e]
    {
      if e in a { SameAd(ads, account, a, b, e); }
      if e in b { SameAd(ads, account, b, a, e); }
    }
    assert a.Keys == b.Keys;
  }

  lemma {:induction false} SameAd(ads: Ads, account: string, a: map<string, AdKey>, b: map<string, AdKey>, e: string)
    requires IsAdIndex(ads, account, a) && IsAdIndex(ads, account, b)
    requires e in a && !Shared(ads, account, e)
    ensures e in b && a[e] == b[e]
  {
    assert OfAccount(ads, account, a[e]) && e in b;
    assert OfAccount(ads, account, b[e]);
  }

  lemma {:induction false} SameRecords(ads: Ads, account: string, a: map<string, AdKey>, b: map<string, AdKey>,
                                       floor: Option<int>, rows: seq<RawInsight>)
    requires IsAdIndex(ads, account, a) && IsAdIndex(ads, account, b) && !Ambiguous(ads, account, floor, rows)
    ensures InsightRecords(a, floor, rows) == InsightRecords(b, floor, rows)
  {
    if |rows| > 0 {
      var r := Last(rows);
      assert rows == Front(rows) + [r] && r in rows;
      SameRecords(ads, account, a, b, floor, Front(rows));
      if AfterFloor(floor, r) {
        if r.adExternalId in a { SameAd(ads, account, a, b, r.adExternalId); }
        if r.adExternalId in b { SameAd(ads, account, b, a, r.adExternalId); }
      }
    }
  }

  lemma {:induction false} RecordsOfRows(index: map<string, AdKey>, floor: Option<int>, rows: seq<RawInsight>, k: InsightKey)
    ensures HasKey(InsightRecords(index, floor, rows), k, KeyOfInsight)
            <==> exists r :: r in rows && Stores(index, floor, r, k)
  {
    if |rows| > 0 {
      var front, r := Front(rows), Last(rows);
      assert rows == front + [r] && r in rows;
      RecordsOfRows(index, floor, front, k);
      var before := InsightRecords(index, floor, front);
      if r.adExternalId in index && AfterFloor(floor, r) { KeySnoc(before, InsightRecordOf(index, r), k); }
    }
  }

  predicate Stores(index: map<string, AdKey>, floor: Option<int>, r: RawInsight, k: InsightKey) {
    (floor.Some? ==> floor.value <= r.day) && r.adExternalId in index && InsightKey(index[r.adExternalId], r.day) == k
  }

  lemma {:induction false} KeySnoc(rs: seq<InsightRecord>, r: InsightRecord, k: InsightKey)
    ensures HasKey(rs + [r], k, KeyOfInsight) <==> HasKey(rs, k, KeyOfInsight) || r.key == k
  {
    assert r in rs + [r] && KeyOfInsight(r) == r.key;
    assert forall x :: x in rs ==> x in rs + [r];
  }

  /** An answer of the ads query in which ad k comes last. */
  lemma {:induction false} IndexWith(ads: Ads, account: string, k: AdKey) returns (index: map<string, AdKey>)
    requires OfAccount(ads, account, k)
    ensures IsAdIndex(ads, account, index) && k.externalId in index && index[k.externalId] == k
  {
    var todo := set l | l in ads && OfAccount(ads, account, l);
    index := map[];
    while todo != {}
      invariant forall l :: l in todo ==> OfAccount(ads, account, l)
      invariant forall l :: OfAccount(ads, account, l) ==> l in todo || l.externalId in index
      invariant forall e :: e in index ==> OfAccount(ads, account, index[e]) && index[e].externalId == e
      decreases todo
    {
      var l :| l in todo;
      todo := todo - {l};
      index := index[l.externalId := l];
    }
    index := index[k.externalId := k];
  }

  /** Storing the rows once more, whatever each query answered, leaves the insights as they were. */
  ghost predicate Repeats(m: Insights, a: map<string, AdKey>, b: map<string, AdKey>, floor: Option<int>, rows: seq<RawInsight>) {
    var once := UpsertInsights(m, InsightRecords(a, floor, rows));
    UpsertInsights(once, InsightRecords(b, floor, rows)) == once
  }

  /**
   * The insights of a second sync equal those of the first, whatever was stored before and in whatever order each
   * query returned the ads, if and only if no row to be stored names an external id that two ads share.
   */
  lemma {:induction false} InsightsRepeatExactly(ads: Ads, account: string, floor: Option<int>, rows: seq<RawInsight>)
    ensures (forall m, a, b :: IsAdIndex(ads, account, a) && IsAdIndex(ads, account, b) ==> Repeats(m, a, b, floor, rows))
            <==> !Ambiguous(ads, account, floor, rows)
  {
    if Ambiguous(ads, account, floor, rows) {
      var a, b := TwoAnswers(ads, account, floor, rows);
      assert !Repeats(map[], a, b, floor, rows);
    } else {
      forall m, a, b | IsAdIndex(ads, account, a) && IsAdIndex(ads, account, b)
        ensures Repeats(m, a, b, floor, rows)
      {
        SameRecords(ads, account, a, b, floor, rows);
        InsightsTwice(m, a, floor, rows);
      }
    }
  }

  /** With a shared id, two answers under which the second sync adds a row. */
  lemma {:induction false} TwoAnswers(ads: Ads, account: string, floor: Option<int>, rows: seq<RawInsight>)
    returns (a: map<string, AdKey>, b: map<string, AdKey>)
    requires Ambiguous(ads, account, floor, rows)
    ensures IsAdIndex(ads, account, a) && IsAdIndex(ads, account, b) && !Repeats(map[], a, b, floor, rows)
  {
    var r :| r in rows && AfterFloor(floor, r) && Shared(ads, account, r.adExternalId);
    var k, l :| OfAccount(ads, account, k) && OfAccount(ads, account, l) && k != l
                && k.externalId == l.externalId == r.adExternalId;
    a := IndexWith(ads, account, k);
    b := IndexWith(ads, account, l);
    var key := InsightKey(l, r.day);
    RecordsOfRows(a, floor, rows, key);
    RecordsOfRows(b, floor, rows, key);
    assert Stores(b, floor, r, key);
    forall x | x in rows
      ensures !Stores(a, floor, x, key)
    {
    }
    var ra, rb := InsightRecords(a, floor, rows), InsightRecords(b, floor, rows);
    LastInsightWins(map[], ra, key);
    LastInsightWins(UpsertInsights(map[], ra), rb, key);
  }

  /**
   * A whole sync of the same data a second time changes nothing, whatever each query of the ads answered, unless
   * a row to be stored names an external id that two ads of the account share.
   */
  lemma {:induction false} SyncTwice(h: Hierarchy, m: Insights, t: TenantId, account: string, cs: seq<RawCampaign>,
                                     a: map<string, AdKey>, b: map<string, AdKey>, floor: Option<int>, rows: seq<RawInsight>)
    requires UniqueCreatives(h.tables.creatives)
    requires var once := StoreHierarchy(h, t, account, cs);
             && IsAdIndex(once.tables.ads, account, a)
             && IsAdIndex(StoreHierarchy(once, t, account, cs).tables.ads, account, b)
             && !Ambiguous(once.tables.ads, account, floor, rows)
    ensures var once, insights := StoreHierarchy(h, t, account, cs), UpsertInsights(m, InsightRecords(a, floor, rows));
            && StoreHierarchy(once, t, account, cs) == once
            && UpsertInsights(insights, InsightRecords(b, floor, rows)) == insights
  {
    HierarchyTwice(h, t, account, cs);
    InsightsRepeatExactly(StoreHierarchy(h, t, account, cs).tables.ads, account, floor, rows);
    assert Repeats(m, a, b, floor, rows);
  }

  // ---- The service ----

  lemma {:induction false} UpsertConcat<K, V, R>(m: map<K, V>, a: seq<R>, b: seq<R>, key: R -> K, make: R -> V, write: (V, R) -> V)
    ensures UpsertAll(UpsertAll(m, a, key, make, write), b, key, make, write) == UpsertAll(m, a + b, key, make, write)
  {
    if |b| == 0 {
      assert a + b == a;
    } else {
      UpsertConcat(m, a, Front(b), key, make, write);
      assert Front(a + b) == a + Front(b);
    }
  }

  lemma {:induction false} InsightsStep(m: Insights, index: map<string, AdKey>, floor: Option<int>, rows: seq<RawInsight>, i: nat)
    requires i < |rows|
    ensures var r, before := rows[i], UpsertInsights(m, InsightRecords(index, floor, rows[..i]));
            UpsertInsights(m, InsightRecords(index, floor, rows[..i + 1]))
            == if r.adExternalId !in index || (floor.Some? && r.day < floor.value) then before
               else before[InsightRecordOf(index, r).key := InsightRecordOf(index, r).row]
  {
    assert Front(rows[..i + 1]) == rows[..i];
    var rs := InsightRecords(index, floor, rows[..i]);
    if rows[i].adExternalId in index {
      assert Front(rs + [InsightRecordOf(index, rows[i])]) == rs;
    }
  }

  lemma {:induction false} StoreConcat(db: AdTables, t: TenantId, a: seq<AdItem>, b: seq<AdItem>)
    ensures StoreAds(StoreAds(db, t, a), t, b) == StoreAds(db, t, a + b)
  {
    if |b| == 0 {
      assert a + b == a;
    } else {
      StoreConcat(db, t, a, Front(b));
      assert Front(a + b) == a + Front(b);
    }
  }

  class MetaSyncService {
    var campaigns: Campaigns
    var adSets: AdSets
    var creatives: Creatives
    var ads: Ads
    var insights: Insights

    constructor ()
      ensures State() == Hierarchy(map[], map[], AdTables([], map[])) && insights == map[]
    {
      campaigns, adSets, creatives, ads, insights := map[], map[], [], map[], map[];
    }

    ghost function State(): Hierarchy
      reads this
    {
      Hierarchy(campaigns, adSets, AdTables(creatives, ads))
    }

    method UpsertCreative(t: TenantId, raw: RawAd) returns (id: Option<nat>)
      modifies this`creatives
      ensures var c := CreativeOf(t, raw);
              if c.None? then id.None? && creatives == old(creatives)
              else id == Some(IndexOf(old(creatives), c.value.key)) && creatives == StoreCreative(old(creatives), c.value)
    {
      if !Truthy(raw.creativeExternalId) {
        return None;
      }
      var key := CreativeKey(t, raw.creativeExternalId.value);
      var parsed := N.ParseCreativeName(if raw.creativeName.Some? then raw.creativeName.value else "");
      var i := IndexOf(creatives, key);
      if i < |creatives| {
        creatives := creatives[i := Creative(key, CreativeData(raw.creativeName, creatives[i].data.dimensions + parsed))];
      } else {
        creatives := creatives + [Creative(key, CreativeData(raw.creativeName, parsed))];
      }
      return Some(i);
    }

    method StoreAdsOf(t: TenantId, adSet: AdSetKey, raws: seq<RawAd>)
      modifies this`creatives, this`ads
      ensures AdTables(creatives, ads) == StoreAds(AdTables(old(creatives), old(ads)), t, ItemsOf(adSet, raws))
    {
      for i := 0 to |raws|
        invariant AdTables(creatives, ads) == StoreAds(AdTables(old(creatives), old(ads)), t, ItemsOf(adSet, raws[..i]))
      {
        assert Front(ItemsOf(adSet, raws[..i + 1])) == ItemsOf(adSet, raws[..i]);
        var creativeId := UpsertCreative(t, raws[i]);
        var key := AdKey(adSet, raws[i].externalId);
        ads := ads[key := Ad(Node(raws[i].name, raws[i].status, raws[i].effectiveStatus), creativeId)];
      }
      assert raws[..|raws|] == raws;
    }

    method StoreAdSetsOf(t: TenantId, campaign: CampaignKey, raws: seq<RawAdSet>)
      modifies this`adSets, this`creatives, this`ads
      ensures adSets == UpsertAdSets(old(adSets), AdSetRecordsOf(campaign, raws))
      ensures AdTables(creatives, ads) == StoreAds(AdTables(old(creatives), old(ads)), t, ItemsOfAdSets(campaign, raws))
    {
      for i := 0 to |raws|
        invariant adSets == UpsertAdSets(old(adSets), AdSetRecordsOf(campaign, raws[..i]))
        invariant AdTables(creatives, ads) == StoreAds(AdTables(old(creatives), old(ads)), t, ItemsOfAdSets(campaign, raws[..i]))
      {
        assert Front(raws[..i + 1]) == raws[..i];
        assert Front(AdSetRecordsOf(campaign, raws[..i + 1])) == AdSetRecordsOf(campaign, raws[..i]);
        var key := AdSetKey(campaign, raws[i].externalId);
        adSets := adSets[key := Node(raws[i].name, raws[i].status, raws[i].effectiveStatus)];
        StoreAdsOf(t, key, raws[i].ads);
        StoreConcat(AdTables(old(creatives), old(ads)), t, ItemsOfAdSets(campaign, raws[..i]), ItemsOf(key, raws[i].ads));
      }
      assert raws[..|raws|] == raws;
    }

    method UpsertHierarchy(t: TenantId, account: string, raws: seq<RawCampaign>)
      modifies this`campaigns, this`adSets, this`creatives, this`ads
      ensures State() == StoreHierarchy(old(State()), t, account, raws)
    {
      for i := 0 to |raws|
        invariant State() == StoreHierarchy(old(State()), t, account, raws[..i])
      {
        assert Front(raws[..i + 1]) == raws[..i];
        assert Front(CampaignRecords(account, raws[..i + 1])) == CampaignRecords(account, raws[..i]);
        var key := CampaignKey(account, raws[i].externalId);
        campaigns := campaigns[key := Node(raws[i].name, raws[i].status, raws[i].effectiveStatus)];
        StoreAdSetsOf(t, key, raws[i].adSets);
        UpsertConcat(old(adSets), AdSetRecords(account, raws[..i]), AdSetRecordsOf(key, raws[i].adSets),
                     KeyOfAdSet, MakeAdSet, WriteAdSet);
        StoreConcat(AdTables(old(creatives), old(ads)), t, Items(account, raws[..i]), ItemsOfAdSets(key, raws[i].adSets));
      }
      assert raws[..|raws|] == raws;
    }

    /** The account's ads by external id, in some order of rows. */
    method IndexAds(account: string) returns (index: map<string, AdKey>)
      ensures IsAdIndex(ads, account, index)
    {
      var todo := set k | k in ads && OfAccount(ads, account, k);
      index := map[];
      while todo != {}
        invariant forall k :: k in todo ==> OfAccount(ads, account, k)
        invariant forall k :: OfAccount(ads, account, k) ==> k in todo || k.externalId in index
        invariant forall e :: e in index ==> OfAccount(ads, account, index[e]) && index[e].externalId == e
        decreases todo
      {
        var k :| k in todo;
        todo := todo - {k};
        index := index[k.externalId := k];
      }
    }

    method StoreInsights(index: map<string, AdKey>, floor: Option<int>, rows: seq<RawInsight>)
      modifies this`insights
      ensures insights == UpsertInsights(old(insights), InsightRecords(index, floor, rows))
    {
      for i := 0 to |rows|
        invariant insights == UpsertInsights(old(insights), InsightRecords(index, floor, rows[..i]))
      {
        InsightsStep(old(insights), index, floor, rows, i);
        var r := rows[i];
        if r.adExternalId !in index || (floor.Some? && r.day < floor.value) {
          continue;
        }
        insights := insights[InsightKey(index[r.adExternalId], r.day) :=
          Insight(r.currency, r.spend, r.impressions, r.clicks, r.reach, r.frequency)];
      }
      assert rows[..|rows|] == rows;
    }

    method Sync(t: TenantId, account: string, raws: seq<RawCampaign>, floor: Option<int>, rows: seq<RawInsight>)
      modifies this
      ensures State() == StoreHierarchy(old(State()), t, account, raws)
      ensures exists index :: IsAdIndex(ads, account, index)
                              && insights == UpsertInsights(old(insights), InsightRecords(index, floor, rows))
    {
      UpsertHierarchy(t, account, raws);
      var index := IndexAds(account);
      StoreInsights(index, floor, rows);
    }
  }
}
