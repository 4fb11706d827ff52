/**
 * The performance report (apps/api/src/metrics/metrics.service.ts): spend, leads, sales and revenue per ad,
 * ad set and campaign. Every row of input is a credit to one ad that is added up its hierarchy.
 */
module Performance {
  import opened Common
  import opened Accumulators
  import opened MetricsData
  import M = Matching
  import C = CrmSync

  // ---- The hierarchy ----

  /** Accumulator ids; a row id never names nodes of two levels. */
  datatype Node = AdNode(ad: AdId) | AdSetNode(adSet: nat) | CampaignNode(campaign: nat)

  datatype Info = Info(name: string, parent: Option<Node>)

  datatype Meta = Meta(adSet: nat, campaign: nat, currency: string)

  /** The nodes in report order, their descriptions, and each ad's parents. */
  datatype Tree = Tree(order: seq<Node>, info: map<Node, Info>, meta: map<AdId, Meta>)

  /** ensure: a node already known keeps its place and description. */
  function Ensure(t: Tree, n: Node, i: Info): Tree {
    t.(order := AddNew(t.order, n), info := map[n := i] + t.info)
  }

  function AddAd(t: Tree, ad: Ad): Tree {
    var t1 := Ensure(t, AdNode(ad.id), Info(ad.name, Some(AdSetNode(ad.adSet.id))));
    var t2 := Ensure(t1, AdSetNode(ad.adSet.id), Info(ad.adSet.name, Some(CampaignNode(ad.adSet.campaign.id))));
    var t3 := Ensure(t2, CampaignNode(ad.adSet.campaign.id), Info(ad.adSet.campaign.name, None));
    t3.(meta := t3.meta[ad.id := Meta(ad.adSet.id, ad.adSet.campaign.id, ad.adSet.campaign.currency)])
  }

  function BuildTree(ads: seq<Ad>): Tree {
    if |ads| == 0 then Tree([], map[], map[]) else AddAd(BuildTree(Front(ads)), Last(ads))
  }

  ghost predicate Listed(t: Tree) {
    Distinct(t.order) && forall n :: n in t.order <==> n in t.info
  }

  ghost predicate PathOf(t: Tree, a: AdId) {
    && a in t.meta && AdNode(a) in t.info
    && AdSetNode(t.meta[a].adSet) in t.info && CampaignNode(t.meta[a].campaign) in t.info
    && t.info[AdNode(a)].parent == Some(AdSetNode(t.meta[a].adSet))
    && t.info[AdSetNode(t.meta[a].adSet)].parent == Some(CampaignNode(t.meta[a].campaign))
  }

  ghost predicate LevelOf(t: Tree, n: Node)
    requires n in t.info
  {
    match n
    case AdNode(a) => PathOf(t, a)
    case AdSetNode(_) => t.info[n].parent.Some? && t.info[n].parent.value.CampaignNode?
    case CampaignNode(_) => t.info[n].parent.None?
  }

  /** Each ad hangs from its ad set, each ad set from its campaign, and campaigns are roots. */
  ghost predicate Hangs(t: Tree) {
    && (forall a :: a in t.meta ==> PathOf(t, a))
    && (forall n :: n in t.info ==> LevelOf(t, n))
  }

  ghost predicate Describes(t: Tree, ad: Ad) {
    && ad.id in t.meta && t.meta[ad.id] == Meta(ad.adSet.id, ad.adSet.campaign.id, ad.adSet.campaign.currency)
    && AdSetNode(ad.adSet.id) in t.info && t.info[AdSetNode(ad.adSet.id)].parent == Some(CampaignNode(ad.adSet.campaign.id))
  }

  /** The tree knows the ads of the query and no other ad. */
  ghost predicate Covers(t: Tree, ads: seq<Ad>) {
    && (forall ad :: ad in ads ==> Describes(t, ad))
    && (forall a :: a in t.meta ==> exists ad :: ad in ads && ad.id == a)
    && (forall n :: n in t.info && n.AdSetNode? ==> exists ad :: ad in ads && ad.adSet.id == n.adSet)
  }

  lemma {:induction false} EnsureLists(t: Tree, n: Node, i: Info)
    requires Listed(t)
    ensures Listed(Ensure(t, n, i))
  {
  }

  lemma {:induction false} AddAdLists(t: Tree, ad: Ad)
    requires Listed(t)
    ensures Listed(AddAd(t, ad))
  {
    var t1 := Ensure(t, AdNode(ad.id), Info(ad.name, Some(AdSetNode(ad.adSet.id))));
    var t2 := Ensure(t1, AdSetNode(ad.adSet.id), Info(ad.adSet.name, Some(CampaignNode(ad.adSet.campaign.id))));
    EnsureLists(t, AdNode(ad.id), Info(ad.name, Some(AdSetNode(ad.adSet.id))));
    EnsureLists(t1, AdSetNode(ad.adSet.id), Info(ad.adSet.name, Some(CampaignNode(ad.adSet.campaign.id))));
    EnsureLists(t2, CampaignNode(ad.adSet.campaign.id), Info(ad.adSet.campaign.name, None));
  }

  lemma {:induction false} OrderIsInfo(ads: seq<Ad>)
    ensures Listed(BuildTree(ads))
  {
    if |ads| > 0 {
      OrderIsInfo(Front(ads));
      AddAdLists(BuildTree(Front(ads)), Last(ads));
    }
  }

  /** Adding an ad keeps every known node and adds its three. */
  lemma {:induction false} AddAdExact(t: Tree, ad: Ad)
    ensures var t1 := AddAd(t, ad);
            && (forall n :: n in t.info ==> n in t1.info && t1.info[n] == t.info[n])
            && (forall n :: n in t1.info ==>
                  n in t.info || n in {AdNode(ad.id), AdSetNode(ad.adSet.id), CampaignNode(ad.adSet.campaign.id)})
            && AdNode(ad.id) in t1.info && AdSetNode(ad.adSet.id) in t1.info && CampaignNode(ad.adSet.campaign.id) in t1.info
            && (AdNode(ad.id) !in t.info ==> t1.info[AdNode(ad.id)].parent == Some(AdSetNode(ad.adSet.id)))
            && (AdSetNode(ad.adSet.id) !in t.info ==>
                  t1.info[AdSetNode(ad.adSet.id)].parent == Some(CampaignNode(ad.adSet.campaign.id)))
            && (CampaignNode(ad.adSet.campaign.id) !in t.info ==> t1.info[CampaignNode(ad.adSet.campaign.id)].parent == None)
            && t1.meta == t.meta[ad.id := Meta(ad.adSet.id, ad.adSet.campaign.id, ad.adSet.campaign.currency)]
  {
  }

  /** t1 keeps t's nodes and t's ads. */
  ghost predicate Grows(t: Tree, t1: Tree) {
    && (forall n :: n in t.info ==> n in t1.info && t1.info[n] == t.info[n])
    && (forall a :: a in t.meta ==> a in t1.meta && t1.meta[a] == t.meta[a])
  }

  lemma {:induction false} PathKept(t: Tree, t1: Tree, a: AdId)
    requires Grows(t, t1) && PathOf(t, a)
    ensures PathOf(t1, a)
  {
  }

  lemma {:induction false} LevelKept(t: Tree, t1: Tree, n: Node)
    requires Grows(t, t1) && n in t.info && LevelOf(t, n)
    ensures n in t1.info && LevelOf(t1, n)
  {
    if n.AdNode? { PathKept(t, t1, n.ad); }
  }

  lemma {:induction false} NewAdIsNew(t: Tree, ads: seq<Ad>, ad: Ad)
    requires Hangs(t) && Covers(t, ads)
    requires forall b :: b in ads ==> b.id != ad.id
    ensures ad.id !in t.meta && AdNode(ad.id) !in t.info
  {
    assert forall n :: n in t.info ==> LevelOf(t, n);
  }

  lemma {:induction false} NewAdDescribed(t: Tree, ads: seq<Ad>, ad: Ad)
    requires Covers(t, ads) && ad.id !in t.meta && AdNode(ad.id) !in t.info
    requires forall b :: b in ads && b.adSet.id == ad.adSet.id ==> b.adSet == ad.adSet
    ensures Grows(t, AddAd(t, ad)) && Describes(AddAd(t, ad), ad) && PathOf(AddAd(t, ad), ad.id)
  {
    AddAdExact(t, ad);
    if AdSetNode(ad.adSet.id) in t.info {
      var b :| b in ads && b.adSet.id == ad.adSet.id;
      assert Describes(t, b);
    }
  }

  lemma {:induction false} AddAdHangs(t: Tree, ads: seq<Ad>, ad: Ad)
    requires Hangs(t) && Covers(t, ads)
    requires forall b :: b in ads ==> b.id != ad.id
    requires forall b :: b in ads && b.adSet.id == ad.adSet.id ==> b.adSet == ad.adSet
    ensures Hangs(AddAd(t, ad))
  {
    var t1 := AddAd(t, ad);
    NewAdIsNew(t, ads, ad);
    NewAdDescribed(t, ads, ad);
    NewNodes(t, ad);
    forall a | a in t1.meta
      ensures PathOf(t1, a)
    {
      if a != ad.id { PathKept(t, t1, a); }
    }
    forall n | n in t1.info
      ensures LevelOf(t1, n)
    {
      if n in t.info { LevelKept(t, t1, n); }
    }
  }

  lemma {:induction false} NewNodes(t: Tree, ad: Ad)
    ensures var t1 := AddAd(t, ad);
            && (forall a :: a in t1.meta ==> a in t.meta || a == ad.id)
            && (forall n :: n in t1.info && n !in t.info ==>
                  || n == AdNode(ad.id)
                  || (n.AdSetNode? && t1.info[n].parent == Some(CampaignNode(ad.adSet.campaign.id)))
                  || (n.CampaignNode? && t1.info[n].parent == None))
  {
    AddAdExact(t, ad);
  }

  lemma {:induction false} AddAdCovers(t: Tree, ads: seq<Ad>, ad: Ad)
    requires Covers(t, ads) && Describes(AddAd(t, ad), ad)
    requires Grows(t, AddAd(t, ad))
    ensures Covers(AddAd(t, ad), ads + [ad])
  {
    var t1 := AddAd(t, ad);
    AddAdExact(t, ad);
    assert ad in ads + [ad];
    forall b | b in ads + [ad]
      ensures Describes(t1, b)
    {
      if b in ads { assert Describes(t, b); }
    }
    forall a | a in t1.meta
      ensures exists b :: b in ads + [ad] && b.id == a
    {
      if a != ad.id {
        var b :| b in ads && b.id == a;
        assert b in ads + [ad];
      }
    }
    forall n | n in t1.info && n.AdSetNode?
      ensures exists b :: b in ads + [ad] && b.adSet.id == n.adSet
    {
      if n in t.info {
        var b :| b in ads && b.adSet.id == n.adSet;
        assert b in ads + [ad];
      }
    }
  }

  lemma {:induction false} JoinedFront(ads: seq<Ad>)
    requires Joined(ads) && |ads| > 0
    ensures Joined(Front(ads))
    ensures forall ad :: ad in Front(ads) ==> ad.id != Last(ads).id
    ensures forall ad :: ad in Front(ads) && ad.adSet.id == Last(ads).adSet.id ==> ad.adSet == Last(ads).adSet
  {
  }

  /** A tree in which every ad of the query hangs under its own parents. */
  ghost predicate TreeOf(t: Tree, ads: seq<Ad>) {
    Listed(t) && Hangs(t) && Covers(t, ads)
  }

  lemma {:induction false} AddAdKeeps(t: Tree, ads: seq<Ad>, ad: Ad, all: seq<Ad>)
    requires TreeOf(t, ads) && all == ads + [ad]
    requires forall b :: b in ads ==> b.id != ad.id
    requires forall b :: b in ads && b.adSet.id == ad.adSet.id ==> b.adSet == ad.adSet
    ensures TreeOf(AddAd(t, ad), all)
  {
    AddAdLists(t, ad);
    NewAdIsNew(t, ads, ad);
    NewAdDescribed(t, ads, ad);
    AddAdHangs(t, ads, ad);
    AddAdCovers(t, ads, ad);
  }

  /** The tree built from a relational join is one. */
  lemma {:induction false} TreeOfJoin(ads: seq<Ad>)
    requires Joined(ads)
    ensures TreeOf(BuildTree(ads), ads)
  {
    if |ads| > 0 {
      assert ads == Front(ads) + [Last(ads)];
      JoinedFront(ads);
      TreeOfJoin(Front(ads));
      AddAdKeeps(BuildTree(Front(ads)), Front(ads), Last(ads), ads);
    }
  }

  predicate IsNodeOf(n: Node, ad: Ad) {
    match n
    case AdNode(a) => ad.id == a
    case AdSetNode(s) => ad.adSet.id == s
    case CampaignNode(c) => ad.adSet.campaign.id == c
  }

  /** The tree's nodes are exactly the ads of the query, their ad sets and their campaigns. */
  lemma {:induction false} NodesOfAds(ads: seq<Ad>, n: Node)
    ensures n in BuildTree(ads).info <==> IsNodeOfSome(n, ads)
  {
    if |ads| > 0 {
      NodesOfAds(Front(ads), n);
      AddedNodes(BuildTree(Front(ads)), Last(ads), n);
      NodeOfFrontOrLast(n, ads);
    }
  }

  ghost predicate IsNodeOfSome(n: Node, ads: seq<Ad>) {
    exists i :: 0 <= i < |ads| && IsNodeOf(n, ads[i])
  }

  lemma {:induction false} AddedNodes(t: Tree, ad: Ad, n: Node)
    ensures n in AddAd(t, ad).info <==> n in t.info || IsNodeOf(n, ad)
  {
    AddAdExact(t, ad);
  }

  lemma {:induction false} NodeOfFrontOrLast(n: Node, ads: seq<Ad>)
    requires |ads| > 0
    ensures IsNodeOfSome(n, ads) <==> IsNodeOfSome(n, Front(ads)) || IsNodeOf(n, Last(ads))
  {
    if IsNodeOfSome(n, Front(ads)) {
      var i :| 0 <= i < |Front(ads)| && IsNodeOf(n, Front(ads)[i]);
      assert ads[i] == Front(ads)[i];
    }
    assert Last(ads) == ads[|ads| - 1];
  }

  // ---- Credits ----

  /** An amount that belongs to one ad. */
  datatype Credit = Credit(ad: AdId, delta: Totals)

  type Acc = map<Node, Totals>

  function ZeroAcc(t: Tree): Acc {
    map n | n in t.info :: ZERO
  }

  /** The three accumulators an ad's rows are added to. */
  predicate OnPath(meta: map<AdId, Meta>, a: AdId, n: Node)
    requires a in meta
  {
    n == AdNode(a) || n == AdSetNode(meta[a].adSet) || n == CampaignNode(meta[a].campaign)
  }

  /** addUp: the ad, its ad set and its campaign each get the amount; an unknown ad is ignored. */
  function AddUp(acc: Acc, meta: map<AdId, Meta>, c: Credit): Acc {
    if c.ad !in meta then acc
    else map n | n in acc :: if OnPath(meta, c.ad, n) then Plus(acc[n], c.delta) else acc[n]
  }

  function AddUpAll(acc: Acc, meta: map<AdId, Meta>, cs: seq<Credit>): Acc {
    if |cs| == 0 then acc else AddUp(AddUpAll(acc, meta, Front(cs)), meta, Last(cs))
  }

  lemma {:induction false} AddUpConcat(acc: Acc, meta: map<AdId, Meta>, a: seq<Credit>, b: seq<Credit>)
    ensures AddUpAll(AddUpAll(acc, meta, a), meta, b) == AddUpAll(acc, meta, a + b)
  {
    if |b| == 0 {
      assert a + b == a;
    } else {
      AddUpConcat(acc, meta, a, Front(b));
      assert Front(a + b) == a + Front(b);
    }
  }

  lemma {:induction false} AddUpKeepsNodes(acc: Acc, meta: map<AdId, Meta>, cs: seq<Credit>)
    ensures AddUpAll(acc, meta, cs).Keys == acc.Keys
  {
    if |cs| > 0 { AddUpKeepsNodes(acc, meta, Front(cs)); }
  }

  // ---- Conservation ----

  function Children(t: Tree, p: Node): seq<Node> {
    Filter(t.order, (n: Node) => n in t.info && t.info[n].parent == Some(p))
  }

  /** p holds exactly the sum of the given nodes. */
  ghost predicate HoldsSum(acc: Acc, p: Node, parts: seq<Node>) {
    && p in acc && (forall n :: n in parts ==> n in acc)
    && acc[p] == SumOver(parts, acc)
  }

  /** The ads of a campaign. */
  function AdsUnder(t: Tree, campaign: nat): seq<Node> {
    Filter(t.order, (n: Node) => n.AdNode? && n.ad in t.meta && t.meta[n.ad].campaign == campaign)
  }

  /** Every ad set and campaign holds the sum of its children, and every campaign that of its ads. */
  ghost predicate Conserved(t: Tree, acc: Acc) {
    && acc.Keys == t.info.Keys
    && (forall p :: p in t.info && !p.AdNode? ==> HoldsSum(acc, p, Children(t, p)))
    && (forall p :: p in t.info && p.CampaignNode? ==> HoldsSum(acc, p, AdsUnder(t, p.campaign)))
  }

  lemma {:induction false} ChildrenExact(t: Tree, p: Node)
    requires Listed(t)
    ensures Distinct(Children(t, p))
    ensures forall n :: n in Children(t, p) <==> n in t.info && t.info[n].parent == Some(p)
  {
    FilterDistinct(t.order, (n: Node) => n in t.info && t.info[n].parent == Some(p));
  }

  lemma {:induction false} AdsUnderExact(t: Tree, campaign: nat)
    requires Listed(t)
    ensures Distinct(AdsUnder(t, campaign))
    ensures forall n :: n in AdsUnder(t, campaign) <==>
                        n in t.info && n.AdNode? && n.ad in t.meta && t.meta[n.ad].campaign == campaign
  {
    FilterDistinct(t.order, (n: Node) => n.AdNode? && n.ad in t.meta && t.meta[n.ad].campaign == campaign);
  }

  lemma {:induction false} ZeroConserved(t: Tree)
    requires Listed(t)
    ensures Conserved(t, ZeroAcc(t))
  {
    var acc := ZeroAcc(t);
    forall p | p in t.info && !p.AdNode?
      ensures HoldsSum(acc, p, Children(t, p))
    {
      ChildrenExact(t, p);
      SumOfZeros(Children(t, p), acc);
    }
    forall p | p in t.info && p.CampaignNode?
      ensures HoldsSum(acc, p, AdsUnder(t, p.campaign))
    {
      AdsUnderExact(t, p.campaign);
      SumOfZeros(AdsUnder(t, p.campaign), acc);
    }
  }

  /** A node other than the ad's own is on the path exactly if one child of it is, and then only that one. */
  lemma {:induction false} PathChild(t: Tree, a: AdId, p: Node) returns (child: Node)
    requires Listed(t) && Hangs(t) && a in t.meta && p in t.info && !p.AdNode?
    ensures forall n :: n in Children(t, p) && OnPath(t.meta, a, n) ==> OnPath(t.meta, a, p) && n == child
    ensures OnPath(t.meta, a, p) ==> child in Children(t, p) && OnPath(t.meta, a, child)
  {
    ChildrenExact(t, p);
    assert PathOf(t, a);
    child := if p.AdSetNode? then AdNode(a) else AdSetNode(t.meta[a].adSet);
    forall n | n in Children(t, p) && OnPath(t.meta, a, n)
      ensures OnPath(t.meta, a, p) && n == child
    {
      assert LevelOf(t, n);
    }
  }

  /** A credit that raises p raises exactly one of its parts, and one that does not raise p raises none. */
  lemma {:induction false} RiseTogether(meta: map<AdId, Meta>, acc: Acc, c: Credit, p: Node, parts: seq<Node>, part: Node)
    requires Distinct(parts) && c.ad in meta && HoldsSum(acc, p, parts)
    requires OnPath(meta, c.ad, p) ==> part in parts && OnPath(meta, c.ad, part)
    requires forall n :: n in parts && OnPath(meta, c.ad, n) ==> OnPath(meta, c.ad, p) && n == part
    ensures HoldsSum(AddUp(acc, meta, c), p, parts)
  {
    if OnPath(meta, c.ad, p) {
      SumBumped(parts, acc, AddUp(acc, meta, c), part, c.delta);
    } else {
      SumUnchanged(parts, acc, AddUp(acc, meta, c));
    }
  }

  lemma {:induction false} ChildrenRise(t: Tree, acc: Acc, c: Credit, p: Node)
    requires Listed(t) && Hangs(t) && c.ad in t.meta && p in t.info && !p.AdNode?
    requires HoldsSum(acc, p, Children(t, p))
    ensures HoldsSum(AddUp(acc, t.meta, c), p, Children(t, p))
  {
    ChildrenExact(t, p);
    var child := PathChild(t, c.ad, p);
    RiseTogether(t.meta, acc, c, p, Children(t, p), child);
  }

  lemma {:induction false} CampaignAdsRise(t: Tree, acc: Acc, c: Credit, p: Node)
    requires Listed(t) && Hangs(t) && c.ad in t.meta && p in t.info && p.CampaignNode?
    requires HoldsSum(acc, p, AdsUnder(t, p.campaign))
    ensures HoldsSum(AddUp(acc, t.meta, c), p, AdsUnder(t, p.campaign))
  {
    AdsUnderExact(t, p.campaign);
    assert PathOf(t, c.ad);
    RiseTogether(t.meta, acc, c, p, AdsUnder(t, p.campaign), AdNode(c.ad));
  }

  lemma {:induction false} AddUpConserves(t: Tree, acc: Acc, c: Credit)
    requires Listed(t) && Hangs(t) && Conserved(t, acc)
    ensures Conserved(t, AddUp(acc, t.meta, c))
  {
    if c.ad in t.meta {
      forall p | p in t.info && !p.AdNode?
        ensures HoldsSum(AddUp(acc, t.meta, c), p, Children(t, p))
      {
        ChildrenRise(t, acc, c, p);
      }
      forall p | p in t.info && p.CampaignNode?
        ensures HoldsSum(AddUp(acc, t.meta, c), p, AdsUnder(t, p.campaign))
      {
        CampaignAdsRise(t, acc, c, p);
      }
    }
  }

  /** Roll-up conservation for any credits in any order. */
  lemma {:induction false} CreditsConserve(t: Tree, acc: Acc, cs: seq<Credit>)
    requires Listed(t) && Hangs(t) && Conserved(t, acc)
    ensures Conserved(t, AddUpAll(acc, t.meta, cs))
  {
    if |cs| > 0 {
      CreditsConserve(t, acc, Front(cs));
      AddUpConserves(t, AddUpAll(acc, t.meta, Front(cs)), Last(cs));
    }
  }

  // ---- Sums over ads ----

  function AdNodes(t: Tree): seq<Node> {
    Filter(t.order, (n: Node) => n.AdNode?)
  }

  /** The sum of the credits whose ad is known. */
  function Known(meta: map<AdId, Meta>, cs: seq<Credit>): Totals {
    if |cs| == 0 then ZERO else Plus(Known(meta, Front(cs)), KnownDelta(meta, Last(cs)))
  }

  ghost predicate AdsHaveNodes(t: Tree, acc: Acc) {
    && Distinct(AdNodes(t))
    && (forall n :: n in AdNodes(t) ==> n in acc)
    && (forall a :: a in t.meta ==> AdNode(a) in AdNodes(t))
  }

  lemma {:induction false} HangingAdsHaveNodes(t: Tree, acc: Acc)
    requires Listed(t) && Hangs(t) && acc.Keys == t.info.Keys
    ensures AdsHaveNodes(t, acc)
  {
    FilterDistinct(t.order, (n: Node) => n.AdNode?);
    assert forall a :: a in t.meta ==> PathOf(t, a);
  }

  /** The sum over the ad rows. */
  ghost function AdTotal(t: Tree, acc: Acc): Totals
    requires AdsHaveNodes(t, acc)
  {
    SumOver(AdNodes(t), acc)
  }

  /** From acc to acc1 the ad rows together gained d. */
  ghost predicate AdRowsGained(t: Tree, acc: Acc, acc1: Acc, d: Totals) {
    AdsHaveNodes(t, acc) && AdsHaveNodes(t, acc1) && AdTotal(t, acc1) == Plus(AdTotal(t, acc), d)
  }

  function KnownDelta(meta: map<AdId, Meta>, c: Credit): Totals {
    if c.ad in meta then c.delta else ZERO
  }

  /** One ad row raised by d raises the ad rows together by d. */
  lemma {:induction false} OneRowRaised(t: Tree, acc: Acc, acc1: Acc, ad: AdId, d: Totals)
    requires AdsHaveNodes(t, acc) && AdsHaveNodes(t, acc1) && AdNode(ad) in AdNodes(t)
    requires acc1[AdNode(ad)] == Plus(acc[AdNode(ad)], d)
    requires forall n :: n in AdNodes(t) && n != AdNode(ad) ==> acc1[n] == acc[n]
    ensures AdRowsGained(t, acc, acc1, d)
  {
    SumBumped(AdNodes(t), acc, acc1, AdNode(ad), d);
  }

  lemma {:induction false} KnownAdRises(t: Tree, acc: Acc, c: Credit)
    requires AdsHaveNodes(t, acc) && c.ad in t.meta
    ensures AdRowsGained(t, acc, AddUp(acc, t.meta, c), c.delta)
  {
    assert forall n :: n in AdNodes(t) ==> n.AdNode?;
    OneRowRaised(t, acc, AddUp(acc, t.meta, c), c.ad, c.delta);
  }

  lemma {:induction false} NothingRises(t: Tree, acc: Acc)
    requires AdsHaveNodes(t, acc)
    ensures AdRowsGained(t, acc, acc, ZERO)
  {
    PlusZero(AdTotal(t, acc));
  }

  lemma {:induction false} GainsChain(t: Tree, acc: Acc, acc1: Acc, acc2: Acc, d: Totals, e: Totals)
    requires AdRowsGained(t, acc, acc1, d) && AdRowsGained(t, acc1, acc2, e)
    ensures AdRowsGained(t, acc, acc2, Plus(d, e))
  {
    PlusAssoc(AdTotal(t, acc), d, e);
  }

  /** The ad rows together gain exactly the credits of known ads. */
  lemma {:induction false} AdRowsSum(t: Tree, acc: Acc, cs: seq<Credit>)
    requires AdsHaveNodes(t, acc)
    ensures AdRowsGained(t, acc, AddUpAll(acc, t.meta, cs), Known(t.meta, cs))
  {
    if |cs| == 0 {
      PlusZero(AdTotal(t, acc));
    } else {
      AdRowsSum(t, acc, Front(cs));
      var before := AddUpAll(acc, t.meta, Front(cs));
      if Last(cs).ad in t.meta { KnownAdRises(t, before, Last(cs)); } else { NothingRises(t, before); }
      GainsChain(t, acc, AddUpAll(acc, t.meta, Front(cs)), AddUpAll(acc, t.meta, cs),
                 Known(t.meta, Front(cs)), KnownDelta(t.meta, Last(cs)));
    }
  }

  /** The sum of the credits of one ad. */
  function CreditedTo(cs: seq<Credit>, ad: AdId): Totals {
    if |cs| == 0 then ZERO
    else if Last(cs).ad == ad then Plus(CreditedTo(Front(cs), ad), Last(cs).delta) else CreditedTo(Front(cs), ad)
  }

  lemma {:induction false} KnownSnoc(meta: map<AdId, Meta>, cs: seq<Credit>, c: Credit)
    ensures Known(meta, cs + [c]) == Plus(Known(meta, cs), KnownDelta(meta, c))
  {
    assert Front(cs + [c]) == cs;
  }

  lemma {:induction false} KnownConcat(meta: map<AdId, Meta>, a: seq<Credit>, b: seq<Credit>)
    ensures Known(meta, a + b) == Plus(Known(meta, a), Known(meta, b))
  {
    if |b| == 0 {
      assert a + b == a;
      PlusZero(Known(meta, a));
    } else {
      KnownConcat(meta, a, Front(b));
      ConcatSnoc(a, b);
      KnownSnoc(meta, a + Front(b), Last(b));
      PlusAssoc(Known(meta, a), Known(meta, Front(b)), KnownDelta(meta, Last(b)));
    }
  }

  /** An ad's row holds its own credits and no other's. */
  lemma {:induction false} AdRowExact(t: Tree, acc: Acc, cs: seq<Credit>, ad: AdId)
    requires ad in t.meta && AdNode(ad) in acc
    ensures AdNode(ad) in AddUpAll(acc, t.meta, cs)
    ensures AddUpAll(acc, t.meta, cs)[AdNode(ad)] == Plus(acc[AdNode(ad)], CreditedTo(cs, ad))
  {
    if |cs| > 0 { AdRowExact(t, acc, Front(cs), ad); }
  }

  // ---- Where each kind of row is credited ----

  function InsightCredits(sc: Scope, meta: map<AdId, Meta>, groups: seq<Group>): seq<Credit> {
    if |groups| == 0 then []
    else
      var g := Last(groups);
      var currency := if g.adId in meta then meta[g.adId].currency else sc.currency;
      InsightCredits(sc, meta, Front(groups))
      + [Credit(g.adId, Totals(Convert(sc, g.spend, currency), g.impressions, g.clicks, 0, 0, 0, 0.0))]
  }

  function LeadDelta(l: M.Lead, qualified: set<ContactId>): Totals {
    ZERO.(leads := 1, qualified := if l.contactId.Some? && l.contactId.value in qualified then 1 else 0)
  }

  function LeadCredits(leads: seq<M.Lead>, qualified: set<ContactId>): seq<Credit>
    requires forall l :: l in leads ==> Attributed(l)
  {
    if |leads| == 0 then []
    else
      assert Last(leads) in leads && Attributed(Last(leads));
      LeadCredits(Front(leads), qualified) + [Credit(Last(leads).edge.adId.value, LeadDelta(Last(leads), qualified))]
  }

  type Touch = map<ContactId, AdId>

  /** The ad each contact's wins go to: set once for first touch, overwritten for last touch. */
  function TouchAds(model: Model, leads: seq<M.Lead>): Touch
    requires forall l :: l in leads ==> Attributed(l) && l.contactId.Some?
  {
    if |leads| == 0 then map[]
    else
      assert Last(leads) in leads && Attributed(Last(leads));
      var before := TouchAds(model, Front(leads));
      var c, ad := Last(leads).contactId.value, Last(leads).edge.adId.value;
      if model.FirstTouch? && c in before then before else before[c := ad]
  }

  function DealDelta(sc: Scope, d: C.Deal): Totals {
    ZERO.(sales := 1, revenue := RevenueOf(sc, d))
  }

  function DealCredits(sc: Scope, touch: Touch, deals: seq<C.Deal>): seq<Credit> {
    if |deals| == 0 then []
    else
      var d := Last(deals);
      DealCredits(sc, touch, Front(deals))
      + (if IsWon(d) && d.contactId.value in touch then [Credit(touch[d.contactId.value], DealDelta(sc, d))] else [])
  }

  // ---- The report ----

  /** The rows the report's queries return. */
  datatype Rows = Rows(insights: seq<Insight>, touches: seq<M.Lead>, leads: seq<M.Lead>, deals: seq<C.Deal>)

  ghost predicate Queried(q: Rows) {
    && (forall l :: l in q.touches ==> Attributed(l) && l.contactId.Some?)
    && (forall l :: l in q.leads ==> Attributed(l))
  }

  function QueryRows(sc: Scope, db: Db): (q: Rows)
    ensures Queried(q)
  {
    var leads := LeadsInRange(sc, db.leads);
    SortSorts(Filter(db.leads, (l: M.Lead) => Attributed(l) && l.contactId.Some? && NotBefore(sc.crmFloor, l.createdAt)),
              (l: M.Lead) => l.createdAt as real);
    Rows(InsightsInRange(sc, db.insights), TouchLeads(sc, db.leads), leads, DealsOf(sc, db.deals, ContactsOf(leads)))
  }

  function Credits(sc: Scope, meta: map<AdId, Meta>, model: Model, q: Rows): seq<Credit>
    requires Queried(q)
  {
    InsightCredits(sc, meta, GroupByAd(q.insights))
    + LeadCredits(q.leads, QualifiedContacts(q.deals))
    + DealCredits(sc, TouchAds(model, q.touches), q.deals)
  }

  /** The accumulators of the report, before rounding. */
  function Accumulated(db: Db, range: Range, model: Model): Acc {
    var sc := ScopeOf(db, range);
    var tree := BuildTree(db.ads);
    AddUpAll(ZeroAcc(tree), tree.meta, Credits(sc, tree.meta, model, QueryRows(sc, db)))
  }

  datatype Row = Row(node: Node, info: Info, totals: Totals)

  /** One output row per node in order, money rounded to cents. */
  function RowsOf(t: Tree, acc: Acc, order: seq<Node>): (r: seq<Row>)
    requires forall n :: n in order ==> n in t.info && n in acc
    ensures |r| == |order|
    ensures forall i :: 0 <= i < |order| ==> r[i] == Row(order[i], t.info[order[i]], Rounded(acc[order[i]]))
  {
    seq(|order|, i requires 0 <= i < |order| =>
      assert order[i] in order;
      Row(order[i], t.info[order[i]], Rounded(acc[order[i]])))
  }

  lemma {:induction false} AccumulatedNodes(db: Db, range: Range, model: Model)
    ensures Accumulated(db, range, model).Keys == BuildTree(db.ads).info.Keys
  {
    var sc := ScopeOf(db, range);
    var tree := BuildTree(db.ads);
    AddUpKeepsNodes(ZeroAcc(tree), tree.meta, Credits(sc, tree.meta, model, QueryRows(sc, db)));
  }

  function Report(db: Db, range: Range, model: Model): seq<Row> {
    OrderIsInfo(db.ads);
    AccumulatedNodes(db, range, model);
    RowsOf(BuildTree(db.ads), Accumulated(db, range, model), BuildTree(db.ads).order)
  }
}
