/** What an ad account sync stores of each record, field by field (apps/api/src/ingest/meta-sync.service.ts). */
module MetaRows {
  import opened Common
  import opened UpsertTable
  import opened MetaSync
  import N = CreativeName

  // ---- Campaigns ----

  /** Campaign i is the last of its external id. */
  ghost predicate IsLastCampaign(cs: seq<RawCampaign>, i: int) {
    0 <= i < |cs| && forall j :: i < j < |cs| ==> cs[j].externalId != cs[i].externalId
  }

  /** A campaign's row says what its last record says; campaigns without a record keep their row. */
  lemma {:induction false} CampaignStored(m: Campaigns, account: string, cs: seq<RawCampaign>, i: int)
    requires IsLastCampaign(cs, i)
    ensures var m1, k := UpsertCampaigns(m, CampaignRecords(account, cs)), CampaignKey(account, cs[i].externalId);
            && k in m1 && m1[k].name == cs[i].name && m1[k].status == cs[i].status
            && m1[k].effectiveStatus == cs[i].effectiveStatus
  {
    LastStored(m, CampaignRecords(account, cs), i, KeyOfCampaign, MakeCampaign, WriteCampaign);
  }

  lemma {:induction false} OtherCampaignsStay(m: Campaigns, account: string, cs: seq<RawCampaign>, k: CampaignKey)
    requires forall i :: 0 <= i < |cs| ==> k != CampaignKey(account, cs[i].externalId)
    ensures var m1 := UpsertCampaigns(m, CampaignRecords(account, cs)); (k in m1 <==> k in m) && (k in m ==> m1[k] == m[k])
  {
    OtherRowsStay(m, CampaignRecords(account, cs), k, KeyOfCampaign, MakeCampaign, WriteCampaign);
  }

  // ---- Ad sets ----

  ghost predicate IsAdSetOf(account: string, c: RawCampaign, s: RawAdSet, r: AdSetRecord) {
    && s in c.adSets
    && r.key.campaign.account == account && r.key.campaign.externalId == c.externalId && r.key.externalId == s.externalId
    && r.node.name == s.name && r.node.status == s.status && r.node.effectiveStatus == s.effectiveStatus
  }

  /** The ad sets written are exactly those of the campaigns, each under its own. */
  lemma {:induction false} AdSetRecordsExact(account: string, cs: seq<RawCampaign>, r: AdSetRecord)
    ensures r in AdSetRecords(account, cs) <==> exists c, s :: c in cs && IsAdSetOf(account, c, s, r)
  {
    if |cs| > 0 {
      assert cs == Front(cs) + [Last(cs)] && Last(cs) in cs;
      AdSetRecordsExact(account, Front(cs), r);
      AdSetsOfOne(account, Last(cs), r);
    }
  }

  lemma {:induction false} AdSetsOfOne(account: string, c: RawCampaign, r: AdSetRecord)
    ensures r in AdSetRecordsOf(CampaignKey(account, c.externalId), c.adSets) <==> exists s :: IsAdSetOf(account, c, s, r)
  {
    var rs := AdSetRecordsOf(CampaignKey(account, c.externalId), c.adSets);
    if s :| IsAdSetOf(account, c, s, r) {
      var i :| 0 <= i < |c.adSets| && c.adSets[i] == s;
      assert rs[i] == r;
    }
    if r in rs {
      var i :| 0 <= i < |rs| && rs[i] == r;
      assert IsAdSetOf(account, c, c.adSets[i], r);
    }
  }

  /** An ad set's row is the last one written under its key. */
  lemma {:induction false} AdSetStored(m: AdSets, account: string, cs: seq<RawCampaign>, i: int)
    requires var rs := AdSetRecords(account, cs); 0 <= i < |rs| && forall j :: i < j < |rs| ==> rs[j].key != rs[i].key
    ensures var rs := AdSetRecords(account, cs);
            rs[i].key in UpsertAdSets(m, rs) && UpsertAdSets(m, rs)[rs[i].key] == rs[i].node
  {
    LastStored(m, AdSetRecords(account, cs), i, KeyOfAdSet, MakeAdSet, WriteAdSet);
  }

  // ---- Ads ----

  ghost predicate IsAdOf(account: string, c: RawCampaign, s: RawAdSet, item: AdItem) {
    && s in c.adSets && item.raw in s.ads
    && item.adSet.campaign.account == account && item.adSet.campaign.externalId == c.externalId
    && item.adSet.externalId == s.externalId
  }

  /** The ads written are exactly those of the ad sets, each under its own. */
  lemma {:induction false} ItemsExact(account: string, cs: seq<RawCampaign>, item: AdItem)
    ensures item in Items(account, cs) <==> exists c, s :: c in cs && IsAdOf(account, c, s, item)
  {
    if |cs| > 0 {
      assert cs == Front(cs) + [Last(cs)] && Last(cs) in cs;
      ItemsExact(account, Front(cs), item);
      ItemsOfCampaign(account, Last(cs), Last(cs).adSets, item);
    }
  }

  lemma {:induction false} ItemsOfCampaign(account: string, c: RawCampaign, ss: seq<RawAdSet>, item: AdItem)
    requires forall s :: s in ss ==> s in c.adSets
    ensures item in ItemsOfAdSets(CampaignKey(account, c.externalId), ss) <==> exists s :: s in ss && IsAdOf(account, c, s, item)
  {
    if |ss| > 0 {
      assert ss == Front(ss) + [Last(ss)] && Last(ss) in ss;
      ItemsOfCampaign(account, c, Front(ss), item);
      ItemsOfOne(AdSetKey(CampaignKey(account, c.externalId), Last(ss).externalId), Last(ss).ads, item);
    }
  }

  lemma {:induction false} ItemsOfOne(adSet: AdSetKey, ads: seq<RawAd>, item: AdItem)
    ensures item in ItemsOf(adSet, ads) <==> item.adSet == adSet && item.raw in ads
  {
    if item.adSet == adSet && item.raw in ads {
      var i :| 0 <= i < |ads| && ads[i] == item.raw;
      assert ItemsOf(adSet, ads)[i] == item;
    }
  }

  predicate SameAdRow(a: AdItem, b: AdItem) {
    a.adSet == b.adSet && a.raw.externalId == b.raw.externalId
  }

  /** The ad shows the record's fields and points at the tenant's creative of the external id the record names, if any. */
  ghost predicate IsRowOf(t: TenantId, creatives: Creatives, raw: RawAd, ad: Ad) {
    && ad.node.name == raw.name && ad.node.status == raw.status && ad.node.effectiveStatus == raw.effectiveStatus
    && (ad.creativeId.Some? <==> raw.creativeExternalId.Some? && raw.creativeExternalId.value != "")
    && (ad.creativeId.Some? ==>
          && ad.creativeId.value < |creatives|
          && creatives[ad.creativeId.value].key.tenant == t
          && creatives[ad.creativeId.value].key.externalId == raw.creativeExternalId.value)
  }

  /** An ad's row says what the last record written under its key says. */
  lemma {:induction false} AdStored(db: AdTables, t: TenantId, items: seq<AdItem>, i: int)
    requires UniqueCreatives(db.creatives)
    requires 0 <= i < |items| && forall j :: i < j < |items| ==> !SameAdRow(items[i], items[j])
    ensures var db1, k := StoreAds(db, t, items), AdKey(items[i].adSet, items[i].raw.externalId);
            k in db1.ads && IsRowOf(t, db1.creatives, items[i].raw, db1.ads[k])
  {
    var final := StoreCreatives(db.creatives, CreativeRecords(t, items));
    var rs := AdRecords(t, final, items);
    BatchKeepsPlaces(db.creatives, CreativeRecords(t, items));
    StoreAdsExact(db, t, items, final);
    forall j | i < j < |rs|
      ensures KeyOfAd(rs[j]) != KeyOfAd(rs[i])
    {
      assert !SameAdRow(items[i], items[j]);
    }
    LastStored(db.ads, rs, i, KeyOfAd, MakeAd, WriteAd);
    BatchPlacesAll(db.creatives, CreativeRecords(t, items));
    CreativeNamed(t, items, i);
  }

  lemma {:induction false} CreativeNamed(t: TenantId, items: seq<AdItem>, i: int)
    requires 0 <= i < |items|
    ensures CreativeOf(t, items[i].raw).Some? ==> CreativeOf(t, items[i].raw).value in CreativeRecords(t, items)
  {
    if i < |items| - 1 {
      assert items[i] == Front(items)[i];
      CreativeNamed(t, Front(items), i);
    }
  }

  // ---- Creatives ----

  /** Record i is the last of creative k whose name carries this dimension. */
  ghost predicate IsLastNaming(rs: seq<CreativeRecord>, k: CreativeKey, dim: N.Key, i: int) {
    && 0 <= i < |rs| && rs[i].key == k && dim in ParsedName(rs[i].name)
    && forall j :: i < j < |rs| && rs[j].key == k ==> dim !in ParsedName(rs[j].name)
  }

  ghost predicate NoneNames(rs: seq<CreativeRecord>, k: CreativeKey, dim: N.Key) {
    forall j :: 0 <= j < |rs| && rs[j].key == k ==> dim !in ParsedName(rs[j].name)
  }

  lemma {:induction false} DimensionWritten(v: CreativeData, rs: seq<CreativeRecord>, k: CreativeKey, dim: N.Key, i: int)
    requires IsLastNaming(rs, k, dim, i)
    ensures var dims := WriteAll(v, rs, k, KeyOfCreative, WriteCreative).dimensions;
            dim in dims && dims[dim] == ParsedName(rs[i].name)[dim]
  {
    if i < |rs| - 1 {
      assert forall j :: 0 <= j < |rs| - 1 ==> rs[j] == Front(rs)[j];
      DimensionWritten(v, Front(rs), k, dim, i);
      assert rs[|rs| - 1].key == k ==> dim !in ParsedName(rs[|rs| - 1].name);
    }
  }

  lemma {:induction false} DimensionKept(v: CreativeData, rs: seq<CreativeRecord>, k: CreativeKey, dim: N.Key)
    requires NoneNames(rs, k, dim)
    ensures var dims := WriteAll(v, rs, k, KeyOfCreative, WriteCreative).dimensions;
            (dim in dims <==> dim in v.dimensions) && (dim in dims ==> dims[dim] == v.dimensions[dim])
  {
    if |rs| > 0 {
      assert forall j :: 0 <= j < |rs| - 1 ==> rs[j] == Front(rs)[j];
      DimensionKept(v, Front(rs), k, dim);
      assert rs[|rs| - 1].key == k ==> dim !in ParsedName(rs[|rs| - 1].name);
    }
  }

  lemma {:induction false} WrittenDimension(v: CreativeData, rs: seq<CreativeRecord>, k: CreativeKey, dim: N.Key)
    ensures var dims := WriteAll(v, rs, k, KeyOfCreative, WriteCreative).dimensions;
            && (forall i :: IsLastNaming(rs, k, dim, i) ==> dim in dims && dims[dim] == ParsedName(rs[i].name)[dim])
            && (NoneNames(rs, k, dim) ==> (dim in dims <==> dim in v.dimensions) && (dim in dims ==> dims[dim] == v.dimensions[dim]))
  {
    forall i | IsLastNaming(rs, k, dim, i)
      ensures var dims := WriteAll(v, rs, k, KeyOfCreative, WriteCreative).dimensions;
              dim in dims && dims[dim] == ParsedName(rs[i].name)[dim]
    {
      DimensionWritten(v, rs, k, dim, i);
    }
    if NoneNames(rs, k, dim) { DimensionKept(v, rs, k, dim); }
  }

  lemma {:induction false} LastNameWritten(v: CreativeData, rs: seq<CreativeRecord>, k: CreativeKey, i: int)
    requires 0 <= i < |rs| && rs[i].key == k && forall j :: i < j < |rs| ==> rs[j].key != k
    ensures WriteAll(v, rs, k, KeyOfCreative, WriteCreative).name == rs[i].name
  {
    if i < |rs| - 1 {
      assert forall j :: 0 <= j < |rs| - 1 ==> rs[j] == Front(rs)[j];
      assert rs[|rs| - 1].key != k;
      LastNameWritten(v, Front(rs), k, i);
    }
  }

  /**
   * A creative has the name of its last record. Of each dimension it has the value of the last record whose name
   * carries it, and if none does the value it had before, if any.
   */
  lemma {:induction false} CreativeStored(cs: Creatives, rs: seq<CreativeRecord>, i: int, dim: N.Key)
    requires 0 <= i < |rs| && forall j :: i < j < |rs| ==> rs[j].key != rs[i].key
    ensures var cs1, k := StoreCreatives(cs, rs), rs[i].key;
            var before, at := IndexOf(cs, k), IndexOf(cs1, k);
            && at < |cs1| && cs1[at].data.name == rs[i].name
            && (forall n :: IsLastNaming(rs, k, dim, n) ==>
                  dim in cs1[at].data.dimensions && cs1[at].data.dimensions[dim] == ParsedName(rs[n].name)[dim])
            && (NoneNames(rs, k, dim) ==>
                  && (dim in cs1[at].data.dimensions <==> before < |cs| && dim in cs[before].data.dimensions)
                  && (dim in cs1[at].data.dimensions ==> cs1[at].data.dimensions[dim] == cs[before].data.dimensions[dim]))
  {
    var k := rs[i].key;
    var earlier, stored := Keyed(cs), UpsertAll(Keyed(cs), rs, KeyOfCreative, MakeCreative, WriteCreative);
    StoresAreUpserts(cs, rs);
    LastAt(rs, i, KeyOfCreative);
    KnownRow(earlier, rs, k, KeyOfCreative, MakeCreative, WriteCreative);
    var cs1 := StoreCreatives(cs, rs);
    assert stored[k] == cs1[IndexOf(cs1, k)].data;
    if k in earlier {
      WrittenDimension(earlier[k], rs, k, dim);
      LastNameWritten(earlier[k], rs, k, i);
    } else {
      CreativeLaws();
      var first := NewRow(earlier, rs, k, KeyOfCreative, MakeCreative, WriteCreative);
      WrittenDimension(MakeCreative(first), rs, k, dim);
      LastNameWritten(MakeCreative(first), rs, k, i);
      var n :| 0 <= n < |rs| && rs[n] == first;
      assert NoneNames(rs, k, dim) ==> dim !in ParsedName(rs[n].name);
    }
  }

  // ---- Insights ----

  /** Row i is the last to be stored for its ad and day. */
  ghost predicate IsLastInsight(index: map<string, AdKey>, floor: Option<int>, rows: seq<RawInsight>, k: InsightKey, i: int) {
    && 0 <= i < |rows| && Stores(index, floor, rows[i], k)
    && forall j :: i < j < |rows| ==> !Stores(index, floor, rows[j], k)
  }

  lemma {:induction false} LastInsightRecord(index: map<string, AdKey>, floor: Option<int>, rows: seq<RawInsight>, k: InsightKey, i: int)
    requires IsLastInsight(index, floor, rows, k, i)
    ensures var rs := InsightRecords(index, floor, rows);
            HasKey(rs, k, KeyOfInsight) && LastOf(rs, k, KeyOfInsight) == InsightRecordOf(index, rows[i])
  {
    var before, r := InsightRecords(index, floor, Front(rows)), Last(rows);
    if i < |rows| - 1 {
      assert forall j :: 0 <= j < |rows| - 1 ==> rows[j] == Front(rows)[j];
      LastInsightRecord(index, floor, Front(rows), k, i);
      assert !Stores(index, floor, rows[|rows| - 1], k);
    }
    if r.adExternalId in index && AfterFloor(floor, r) {
      KeySnoc(before, InsightRecordOf(index, r), k);
      assert Front(before + [InsightRecordOf(index, r)]) == before;
    }
  }

  /** An ad's day holds exactly the figures of the last row stored for it. */
  lemma {:induction false} InsightStored(m: Insights, index: map<string, AdKey>, floor: Option<int>, rows: seq<RawInsight>, k: InsightKey, i: int)
    requires IsLastInsight(index, floor, rows, k, i)
    ensures var m1 := UpsertInsights(m, InsightRecords(index, floor, rows));
            && k in m1
            && m1[k].currency == rows[i].currency && m1[k].spend == rows[i].spend
            && m1[k].impressions == rows[i].impressions && m1[k].clicks == rows[i].clicks
            && m1[k].reach == rows[i].reach && m1[k].frequency == rows[i].frequency
  {
    LastInsightRecord(index, floor, rows, k, i);
    LastInsightWins(m, InsightRecords(index, floor, rows), k);
  }
}
