/** The rows and queries behind the reports (apps/api/src/metrics/metrics.service.ts), for one tenant. */
module MetricsData {
  import opened Common
  import Canon = CanonicalStatus
  import M = Matching
  import D = MatchDecision
  import C = CrmSync

  // ---- Tables ----

  /** An ad with its joined parents; currency is that of the campaign's ad account. */
  datatype Campaign = Campaign(id: nat, name: string, currency: string)
  datatype AdSet = AdSet(id: nat, name: string, campaign: Campaign)
  datatype Ad = Ad(id: AdId, name: string, adSet: AdSet, creative: Option<map<Dimension, string>>)

  datatype Dimension = Hook | Concept | Angle | Format | Video

  datatype Insight = Insight(adId: AdId, date: Instant, spend: real, impressions: int, clicks: int, currency: string)

  datatype FxRate = FxRate(base: string, quote: string, date: Instant, rate: real)

  /** The tenant's rows, each table in the order the database returns it. */
  datatype Db = Db(reportCurrency: Option<string>, ads: seq<Ad>, insights: seq<Insight>, leads: seq<M.Lead>, deals: seq<C.Deal>,
                   accountDates: seq<Instant>, crmDates: seq<Instant>, rates: seq<FxRate>)

  datatype Model = FirstTouch | LastTouch

  /** A report range in days since the epoch, both ends included. */
  datatype Range = Range(from: int, to: int)

  function StartOf(r: Range): Instant { r.from * DAY }
  function EndOf(r: Range): Instant { r.to * DAY + DAY - 1 }

  /** What the relational join and the primary keys guarantee of the ads query. */
  ghost predicate Joined(ads: seq<Ad>) {
    && (forall i, j :: 0 <= i < j < |ads| ==> ads[i].id != ads[j].id)
    && (forall i, j :: 0 <= i < |ads| && 0 <= j < |ads| && ads[i].adSet.id == ads[j].adSet.id ==> ads[i].adSet == ads[j].adSet)
    && (forall i, j :: 0 <= i < |ads| && 0 <= j < |ads| && ads[i].adSet.campaign.id == ads[j].adSet.campaign.id ==>
          ads[i].adSet.campaign == ads[j].adSet.campaign)
  }

  // ---- Connection floors ----

  function Earliest(dates: seq<Instant>): Option<Instant> {
    if |dates| == 0 then None
    else
      var before := Earliest(Front(dates));
      if before.Some? && before.value <= Last(dates) then before else Some(Last(dates))
  }

  function FloorOf(dates: seq<Instant>): Option<Instant> {
    var d := Earliest(dates);
    if d.Some? then Some(Midnight(d.value)) else None
  }

  /** The later of a range start and a connection floor. */
  function LaterOf(start: Instant, floor: Option<Instant>): Instant {
    if floor.Some? && floor.value > start then floor.value else start
  }

  predicate NotBefore(floor: Option<Instant>, t: Instant) {
    floor.Some? ==> floor.value <= t
  }

  lemma {:induction false} LaterOfRespects(start: Instant, floor: Option<Instant>, t: Instant)
    requires LaterOf(start, floor) <= t
    ensures NotBefore(floor, t) && start <= t
  {
  }

  // ---- Exchange rates ----

  type Fx = map<(string, string), real>

  function RatesNewestFirst(rates: seq<FxRate>): seq<FxRate> {
    SortBy(rates, (r: FxRate) => -(r.date as real))
  }

  function FirstRates(rates: seq<FxRate>): Fx {
    if |rates| == 0 then map[]
    else
      var fx := FirstRates(Front(rates));
      var key := (Last(rates).base, Last(rates).quote);
      if key in fx then fx else fx[key := Last(rates).rate]
  }

  lemma {:induction false} FirstRateOfPair(rates: seq<FxRate>, key: (string, string))
    ensures key in FirstRates(rates) <==> exists i :: 0 <= i < |rates| && (rates[i].base, rates[i].quote) == key
    ensures key in FirstRates(rates) ==> exists i :: 0 <= i < |rates| && FirstOfPair(rates, key, i) && FirstRates(rates)[key] == rates[i].rate
  {
    if |rates| > 0 {
      FirstRateOfPair(Front(rates), key);
      assert rates == Front(rates) + [Last(rates)];
      if key in FirstRates(Front(rates)) {
        var i :| 0 <= i < |Front(rates)| && FirstOfPair(Front(rates), key, i) && FirstRates(Front(rates))[key] == Front(rates)[i].rate;
        assert FirstOfPair(rates, key, i);
      } else if (Last(rates).base, Last(rates).quote) == key {
        assert FirstOfPair(rates, key, |rates| - 1);
      }
    }
  }

  ghost predicate FirstOfPair(rates: seq<FxRate>, key: (string, string), i: int) {
    && 0 <= i < |rates| && (rates[i].base, rates[i].quote) == key
    && forall j :: 0 <= j < i ==> (rates[j].base, rates[j].quote) != key
  }

  ghost predicate NewestOfPair(rates: seq<FxRate>, key: (string, string), r: FxRate) {
    && r in rates && (r.base, r.quote) == key
    && forall q :: q in rates && (q.base, q.quote) == key ==> q.date <= r.date
  }

  lemma {:induction false} FirstSortedIsNewest(rates: seq<FxRate>, key: (string, string), i: int)
    requires FirstOfPair(RatesNewestFirst(rates), key, i)
    ensures NewestOfPair(rates, key, RatesNewestFirst(rates)[i])
  {
    var sorted := RatesNewestFirst(rates);
    SortSorts(rates, (r: FxRate) => -(r.date as real));
    assert sorted[i] in rates;
    forall q | q in rates && (q.base, q.quote) == key
      ensures q.date <= sorted[i].date
    {
      assert q in sorted;
      var j :| 0 <= j < |sorted| && sorted[j] == q;
    }
  }

  /** The rate in force is that of the pair's newest row, whatever the date of the amount. */
  lemma {:induction false} NewestRateWins(rates: seq<FxRate>, key: (string, string))
    ensures var fx := FirstRates(RatesNewestFirst(rates));
            && (key in fx <==> exists r :: r in rates && (r.base, r.quote) == key)
            && (key in fx ==> exists r :: NewestOfPair(rates, key, r) && r.rate == fx[key])
  {
    var sorted := RatesNewestFirst(rates);
    SortSorts(rates, (r: FxRate) => -(r.date as real));
    FirstRateOfPair(sorted, key);
    var fx := FirstRates(sorted);
    if key in fx {
      var i :| 0 <= i < |sorted| && FirstOfPair(sorted, key, i) && fx[key] == sorted[i].rate;
      FirstSortedIsNewest(rates, key, i);
    }
    if r :| r in rates && (r.base, r.quote) == key {
      assert r in sorted;
    }
  }

  // ---- Parameters of one report ----

  /** Everything a report derives from the range and the connections before it reads rows. */
  datatype Scope = Scope(currency: string, fx: Fx, metaFloor: Option<Instant>, crmFloor: Option<Instant>,
                         spendFrom: Instant, leadFrom: Instant, until: Instant)

  function ScopeOf(db: Db, range: Range): Scope {
    var metaFloor, crmFloor := FloorOf(db.accountDates), FloorOf(db.crmDates);
    Scope(ReportCurrency(db),
          FirstRates(RatesNewestFirst(db.rates)), metaFloor, crmFloor,
          LaterOf(StartOf(range), metaFloor), LaterOf(StartOf(range), crmFloor), EndOf(range))
  }

  function Rate(sc: Scope, from: string): real {
    if from == sc.currency then 1.0
    else if (from, sc.currency) in sc.fx then sc.fx[(from, sc.currency)] else 1.0
  }

  function Convert(sc: Scope, amount: real, from: string): real {
    if from == sc.currency then amount
    else amount * (if (from, sc.currency) in sc.fx then sc.fx[(from, sc.currency)] else 1.0)
  }

  /** Conversion is multiplication by the rate in force, so it is linear in the amount. */
  lemma {:induction false} ConvertIsLinear(sc: Scope, a: real, b: real, from: string)
    ensures Convert(sc, a, from) == a * Rate(sc, from)
    ensures Convert(sc, a + b, from) == Convert(sc, a, from) + Convert(sc, b, from)
  {
    assert (a + b) * Rate(sc, from) == a * Rate(sc, from) + b * Rate(sc, from);
  }

  function ReportCurrency(db: Db): string {
    if db.reportCurrency.Some? then db.reportCurrency.value else "USD"
  }

  predicate HasPair(rates: seq<FxRate>, base: string, quote: string) {
    exists r | r in rates :: r.base == base && r.quote == quote
  }

  /**
   * What an amount is multiplied by: nothing for the report's own currency, else the newest rate into it, and if
   * there is none nothing either.
   */
  ghost predicate InForce(db: Db, currency: string, rate: real) {
    var own := if db.reportCurrency.None? then "USD" else db.reportCurrency.value;
    if currency == own || !HasPair(db.rates, currency, own) then rate == 1.0
    else exists r :: NewestOfPair(db.rates, (currency, own), r) && rate == r.rate
  }

  lemma {:induction false} RateInForce(db: Db, range: Range, currency: string)
    ensures ScopeOf(db, range).currency == if db.reportCurrency.None? then "USD" else db.reportCurrency.value
    ensures InForce(db, currency, Rate(ScopeOf(db, range), currency))
  {
    var own := ReportCurrency(db);
    NewestRateWins(db.rates, (currency, own));
    assert HasPair(db.rates, currency, own) <==> exists r :: r in db.rates && (r.base, r.quote) == (currency, own);
  }

  /** An amount at the rate in force; a missing amount is zero, a missing currency the report's own. */
  function Worth(sc: Scope, amount: Option<real>, currency: Option<string>): real {
    (if amount.Some? then amount.value else 0.0) * Rate(sc, if currency.Some? then currency.value else sc.currency)
  }

  lemma {:induction false} RevenueIsWorth(sc: Scope, d: C.Deal)
    ensures RevenueOf(sc, d) == Worth(sc, d.amount, d.currency)
  {
    ConvertIsLinear(sc, if d.amount.Some? then d.amount.value else 0.0, 0.0,
                    if d.currency.Some? then d.currency.value else sc.currency);
  }

  // ---- Queries ----

  function InsightsInRange(sc: Scope, rows: seq<Insight>): seq<Insight> {
    Filter(rows, (r: Insight) => sc.spendFrom <= r.date <= sc.until)
  }

  predicate Attributed(l: M.Lead) {
    l.edge.adId.Some? && l.edge.status == D.Matched
  }

  /** Matched leads with a contact since the CRM was connected, oldest first. */
  function TouchLeads(sc: Scope, rows: seq<M.Lead>): seq<M.Lead> {
    SortBy(Filter(rows, (l: M.Lead) => Attributed(l) && l.contactId.Some? && NotBefore(sc.crmFloor, l.createdAt)),
           (l: M.Lead) => l.createdAt as real)
  }

  function LeadsInRange(sc: Scope, rows: seq<M.Lead>): seq<M.Lead> {
    Filter(rows, (l: M.Lead) => Attributed(l) && sc.leadFrom <= l.createdAt <= sc.until)
  }

  function ContactsOf(leads: seq<M.Lead>): (cs: set<ContactId>)
    ensures forall c :: c in cs <==> exists l :: l in leads && l.contactId == Some(c)
  {
    set l | l in leads && l.contactId.Some? :: l.contactId.value
  }

  function DealsOf(sc: Scope, rows: seq<C.Deal>, contacts: set<ContactId>): seq<C.Deal> {
    if contacts == {} then []
    else Filter(rows, (d: C.Deal) => d.contactId.Some? && d.contactId.value in contacts && NotBefore(sc.crmFloor, d.createdAt))
  }

  lemma {:induction false} DealsAreOfContacts(sc: Scope, rows: seq<C.Deal>, contacts: set<ContactId>)
    ensures forall d :: d in DealsOf(sc, rows, contacts) <==>
                        d in rows && d.contactId.Some? && d.contactId.value in contacts && NotBefore(sc.crmFloor, d.createdAt)
  {
  }

  predicate IsWon(d: C.Deal) {
    d.canonical == Canon.Won && d.contactId.Some?
  }

  predicate Qualifies(d: C.Deal) {
    d.contactId.Some? && (d.canonical == Canon.Qualified || d.canonical == Canon.Won)
  }

  function QualifiedContacts(deals: seq<C.Deal>): (cs: set<ContactId>)
    ensures forall c :: c in cs <==>
                        exists d :: d in deals && d.contactId == Some(c) && (d.canonical == Canon.Qualified || d.canonical == Canon.Won)
  {
    set d | d in deals && Qualifies(d) :: d.contactId.value
  }

  /** A won deal's value in the report currency; a missing amount counts as zero. */
  function RevenueOf(sc: Scope, d: C.Deal): real {
    Convert(sc, if d.amount.Some? then d.amount.value else 0.0, if d.currency.Some? then d.currency.value else sc.currency)
  }

  // ---- Daily insights grouped by ad ----

  datatype Group = Group(adId: AdId, spend: real, impressions: int, clicks: int)

  function AdsOf(rows: seq<Insight>): (r: seq<AdId>)
    ensures Distinct(r)
  {
    if |rows| == 0 then [] else AddNew(AdsOf(Front(rows)), Last(rows).adId)
  }

  function GroupFor(rows: seq<Insight>, ad: AdId): (g: Group)
    ensures g.adId == ad
  {
    if |rows| == 0 then Group(ad, 0.0, 0, 0)
    else
      var g := GroupFor(Front(rows), ad);
      var r := Last(rows);
      if r.adId == ad then Group(ad, g.spend + r.spend, g.impressions + r.impressions, g.clicks + r.clicks) else g
  }

  /** SQL group by adId with the three sums. */
  function GroupByAd(rows: seq<Insight>): seq<Group> {
    var ads := AdsOf(rows);
    seq(|ads|, i requires 0 <= i < |ads| => GroupFor(rows, ads[i]))
  }

  // ---- Calendar ----

  function DayOf(t: Instant): int { t / DAY }

  /** getUTCDay: 0 is Sunday; the epoch was a Thursday. */
  function WeekdayOf(day: int): int { (day + 4) % 7 }

  /** The Monday of an instant's week, as a day number. */
  function MondayOf(t: Instant): int {
    DayOf(t) - (WeekdayOf(DayOf(t)) + 6) % 7
  }

  predicate IsMonday(day: int) {
    WeekdayOf(day) == 1
  }

  /** Weeks partition time: each instant has exactly one Monday at most six days back. */
  lemma {:induction false} WeeksPartition(t: Instant, m: int)
    ensures m == MondayOf(t) <==> IsMonday(m) && m * DAY <= t < (m + 7) * DAY
  {
    var day := DayOf(t);
    assert day * DAY <= t < (day + 1) * DAY;
    if IsMonday(m) && m * DAY <= t < (m + 7) * DAY {
      assert m <= day < m + 7;
      var k := (WeekdayOf(day) + 6) % 7;
      assert (m + 4) % 7 == 1 && (day - k + 4) % 7 == 1;
      assert (day - k - m) % 7 == 0 && -7 < day - k - m < 7;
    }
  }

  lemma {:induction false} MondayLaws(t: Instant, u: Instant)
    ensures t <= u ==> MondayOf(t) <= MondayOf(u)
    ensures MondayOf(MondayOf(t) * DAY) == MondayOf(t)
  {
    WeeksPartition(t, MondayOf(t));
    WeeksPartition(u, MondayOf(u));
    WeeksPartition(MondayOf(t) * DAY, MondayOf(t));
    var a, b := MondayOf(t), MondayOf(u);
    assert (b - a) % 7 == 0 by { assert (a + 4) % 7 == 1 && (b + 4) % 7 == 1; }
    if t <= u {
      assert b - a > -7;
    }
  }
}
