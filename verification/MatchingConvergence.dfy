/**
 * Repeated matching runs settle. One lead's result is evidence for its siblings, so a run can undo the
 * reason for an earlier review guess; still, whatever order each run takes its rows in and whatever sibling
 * each query reports, three runs reach a state no further run changes.
 */
module MatchingConvergence {
  import opened Common
  import opened MatchDecision
  import opened Matching

  // ---- One decision ----

  /** The decision of a lead for which only utm_content speaks. */
  function UtmDecision(cat: Catalog, t: TenantId, lead: Lead): Decision {
    match UtmCandidate(cat, t, lead)
    case None => Decision(None, None, 0.0, Unmatched)
    case Some(c) => DecisionFor(c)
  }

  predicate SelfEvidence(lead: Lead) {
    Truthy(lead.signals.leadgenId) && lead.edge.adId.Some?
  }

  /** What a decision can be: leadgen evidence first, then a sibling's ad, then utm_content. */
  lemma {:induction false} DecisionShape(cat: Catalog, t: TenantId, lead: Lead, sibling: Option<AdId>)
    ensures var d := Decide(cat, t, lead, sibling);
            && (SelfEvidence(lead) ==> d == Decision(Some(LeadgenId), lead.edge.adId, 1.0, Matched))
            && (!SelfEvidence(lead) && sibling.Some? ==> d == Decision(Some(Phone), sibling, 0.95, Matched))
            && (!SelfEvidence(lead) && sibling.None? ==> d == UtmDecision(cat, t, lead))
  {
    var cs := Candidates(cat, t, lead, sibling);
    if |cs| > 0 {
      assert IsFirstBest(cs, 0);
      DecisionIsFirstBest(cs, 0);
    }
  }

  /** Status, ad and method of a decision agree: an ad comes with a method, and no ad means unmatched. */
  lemma {:induction false} DecisionAgrees(cat: Catalog, t: TenantId, lead: Lead, sibling: Option<AdId>)
    ensures var d := Decide(cat, t, lead, sibling);
            && d.status in {Matched, Unmatched, Review}
            && (d.adId.Some? <==> d.status != Unmatched)
            && (d.via.Some? <==> d.adId.Some?)
            && (d.status == Matched ==> d.confidence >= REVIEW_THRESHOLD)
            && (d.status == Review ==> d.confidence < REVIEW_THRESHOLD)
  {
    DecisionShape(cat, t, lead, sibling);
  }

  // ---- One run, seen from one of its leads ----

  /** The last step of a run, with the state it starts from. */
  lemma {:induction false} LastStep(cat: Catalog, t: TenantId, s: Db, order: seq<LeadKey>, s': Db)
    returns (m: Db, sibling: Option<AdId>)
    requires Run(cat, t, s, order, s') && |order| > 0
    ensures Run(cat, t, s, Front(order), m)
    ensures Last(order) in m.leads && SiblingChoice(m.leads, t, Last(order), sibling)
    ensures var row := m.leads[Last(order)];
            s'.leads == m.leads[Last(order) := row.(edge := EdgeOf(Decide(cat, t, row, sibling)))]
  {
    m :| Run(cat, t, s, Front(order), m) && Step(cat, t, m, Last(order), s');
    sibling :| SiblingChoice(m.leads, t, Last(order), sibling)
               && s' == Apply(t, m, Last(order), Decide(cat, t, m.leads[Last(order)], sibling));
  }

  /** A run rewrites only the edges of the leads it visits. */
  lemma {:induction false} RunFrame(cat: Catalog, t: TenantId, s: Db, order: seq<LeadKey>, s': Db)
    requires Run(cat, t, s, order, s')
    ensures s'.leads.Keys == s.leads.Keys
    ensures forall k :: k in s.leads ==> s'.leads[k] == s.leads[k].(edge := s'.leads[k].edge)
    ensures forall k :: k in s.leads && k !in order ==> s'.leads[k] == s.leads[k]
  {
    if |order| > 0 {
      var m, _ := LastStep(cat, t, s, order, s');
      RunFrame(cat, t, s, Front(order), m);
      assert forall k :: k in Front(order) ==> k in order;
      assert Last(order) in order;
    }
  }

  /** Row k as it stands when position i of the run is reached. */
  predicate SeenAt(s: Db, order: seq<LeadKey>, s': Db, i: nat, m: Db)
    requires i <= |order|
  {
    && s'.leads.Keys == s.leads.Keys == m.leads.Keys
    && forall k :: k in s.leads ==> m.leads[k] == if k in order[..i] then s'.leads[k] else s.leads[k]
  }

  lemma {:induction false} SeenAtExtends(s: Db, order: seq<LeadKey>, p: Db, s': Db, i: nat, m: Db, row: Lead)
    requires Distinct(order) && i < |order| - 1 && SeenAt(s, Front(order), p, i, m)
    requires Last(order) in p.leads && s'.leads == p.leads[Last(order) := row]
    ensures SeenAt(s, order, s', i, m)
  {
    assert order[..i] == Front(order)[..i];
    assert forall k :: k in order[..i] ==> k != Last(order);
  }

  /**
   * When lead order[i] is visited, the leads before it already hold their final rows of this run and all
   * the others still hold their initial ones.
   */
  lemma {:induction false} Visit(cat: Catalog, t: TenantId, s: Db, order: seq<LeadKey>, s': Db, i: nat)
    returns (m: Db, sibling: Option<AdId>)
    requires Run(cat, t, s, order, s') && Distinct(order) && i < |order|
    requires forall k :: k in order ==> k in s.leads
    ensures SeenAt(s, order, s', i, m) && order[i] in s.leads
    ensures SiblingChoice(m.leads, t, order[i], sibling)
    ensures s'.leads[order[i]] == s.leads[order[i]].(edge := EdgeOf(Decide(cat, t, s.leads[order[i]], sibling)))
  {
    if i == |order| - 1 {
      m, sibling := VisitLast(cat, t, s, order, s');
    } else {
      var p, _ := LastStep(cat, t, s, order, s');
      assert forall k :: k in Front(order) ==> k in order;
      m, sibling := Visit(cat, t, s, Front(order), p, i);
      assert order[i] in order;
      RunFrame(cat, t, s, Front(order), p);
      SeenAtExtends(s, order, p, s', i, m, s'.leads[Last(order)]);
    }
  }

  lemma {:induction false} VisitLast(cat: Catalog, t: TenantId, s: Db, order: seq<LeadKey>, s': Db)
    returns (m: Db, sibling: Option<AdId>)
    requires Run(cat, t, s, order, s') && Distinct(order) && |order| > 0
    ensures SeenAt(s, order, s', |order| - 1, m) && Last(order) in s.leads
    ensures SiblingChoice(m.leads, t, Last(order), sibling)
    ensures s'.leads[Last(order)] == s.leads[Last(order)].(edge := EdgeOf(Decide(cat, t, s.leads[Last(order)], sibling)))
  {
    m, sibling := LastStep(cat, t, s, order, s');
    RunFrame(cat, t, s, Front(order), m);
    assert order[..|order| - 1] == Front(order);
    assert forall k :: k in Front(order) ==> k != Last(order);
  }

  /** A lead live before a run is decided once in it, on the row it then has. */
  lemma {:induction false} DecidedOnce(cat: Catalog, t: TenantId, s: Db, order: seq<LeadKey>, s': Db, y: LeadKey)
    returns (sibling: Option<AdId>)
    requires MatchRun(cat, t, s, order, s') && Live(s.leads, t, y)
    ensures y in s'.leads && s'.leads[y] == s.leads[y].(edge := EdgeOf(Decide(cat, t, s.leads[y], sibling)))
  {
    var i := PositionOf(order, y);
    var m, choice := Visit(cat, t, s, order, s', i);
    sibling := choice;
  }

  lemma {:induction false} PositionOf(order: seq<LeadKey>, k: LeadKey) returns (i: nat)
    requires k in order
    ensures i < |order| && order[i] == k
  {
    i :| 0 <= i < |order| && order[i] == k;
  }

  predicate SameContact(leads: map<LeadKey, Lead>, t: TenantId, k: LeadKey, k2: LeadKey)
  {
    && k in leads && k2 in leads && k != k2 && k.tenant == t && k2.tenant == t
    && leads[k].contactId.Some? && leads[k].contactId == leads[k2].contactId
  }

  predicate HasAd(leads: map<LeadKey, Lead>, k: LeadKey) {
    k in leads && leads[k].edge.adId.Some?
  }

  /** A lead that carries an ad both before and after a run gets every live sibling matched in that run. */
  lemma {:induction false} EvidenceSpreads(cat: Catalog, t: TenantId, s: Db, order: seq<LeadKey>, s': Db, y: LeadKey, z: LeadKey)
    requires MatchRun(cat, t, s, order, s')
    requires Live(s.leads, t, y) && SameContact(s.leads, t, y, z)
    requires HasAd(s.leads, z) && HasAd(s'.leads, z)
    ensures y in s'.leads && s'.leads[y].edge.status == Matched && HasAd(s'.leads, y)
  {
    var i := PositionOf(order, y);
    var m, sibling := Visit(cat, t, s, order, s', i);
    RunFrame(cat, t, s, order, s');
    assert IsSibling(m.leads, t, y, z);
    DecisionShape(cat, t, s.leads[y], sibling);
  }

  /** A lead still live after a run saw no sibling's ad and no leadgen evidence: its edge is utm_content's. */
  lemma {:induction false} StillLive(cat: Catalog, t: TenantId, s: Db, order: seq<LeadKey>, s': Db, y: LeadKey)
    requires MatchRun(cat, t, s, order, s') && Live(s'.leads, t, y)
    ensures Live(s.leads, t, y) && !SelfEvidence(s.leads[y])
    ensures s'.leads[y].edge == EdgeOf(UtmDecision(cat, t, s.leads[y]))
    ensures s'.leads[y].edge == EdgeOf(UtmDecision(cat, t, s'.leads[y]))
  {
    RunFrame(cat, t, s, order, s');
    assert Live(s.leads, t, y);
    var sibling := DecidedOnce(cat, t, s, order, s', y);
    DecisionShape(cat, t, s.leads[y], sibling);
  }

  /** A lead that leaves the live states in a run is matched and has an ad. */
  lemma {:induction false} LeavesMatched(cat: Catalog, t: TenantId, s: Db, order: seq<LeadKey>, s': Db, y: LeadKey)
    requires MatchRun(cat, t, s, order, s')
    requires Live(s.leads, t, y) && !Live(s'.leads, t, y)
    ensures y in s'.leads && s'.leads[y].edge.status == Matched && HasAd(s'.leads, y)
  {
    var sibling := DecidedOnce(cat, t, s, order, s', y);
    DecisionAgrees(cat, t, s.leads[y], sibling);
  }

  /** No lead of x's contact (x included) carries an ad, and utm_content names none for the live ones. */
  ghost predicate Barren(cat: Catalog, t: TenantId, leads: map<LeadKey, Lead>, x: LeadKey) {
    forall y :: y == x || SameContact(leads, t, x, y) ==>
      && !HasAd(leads, y)
      && (Live(leads, t, y) ==> UtmDecision(cat, t, leads[y]).adId.None?)
  }

  /** A visit to a lead of a barren contact gives it no ad, if none of the contact's leads has one yet. */
  lemma {:induction false} BarrenVisit(cat: Catalog, t: TenantId, s: Db, order: seq<LeadKey>, s': Db, x: LeadKey, i: nat)
    requires MatchRun(cat, t, s, order, s') && i < |order|
    requires x in s.leads && Barren(cat, t, s.leads, x)
    requires order[i] == x || SameContact(s.leads, t, x, order[i])
    requires forall j :: 0 <= j < i && (order[j] == x || SameContact(s.leads, t, x, order[j])) ==> !HasAd(s'.leads, order[j])
    ensures !HasAd(s'.leads, order[i])
  {
    var y := order[i];
    var m, sibling := Visit(cat, t, s, order, s', i);
    RunFrame(cat, t, s, order, s');
    forall k | k in m.leads
      ensures !IsSibling(m.leads, t, y, k)
    {
      if k in order[..i] {
        var j := PositionOf(order[..i], k);
        assert k == order[j];
      }
    }
    assert y in order;
    DecisionShape(cat, t, s.leads[y], sibling);
  }

  lemma {:induction false} BarrenPrefix(cat: Catalog, t: TenantId, s: Db, order: seq<LeadKey>, s': Db, x: LeadKey, i: nat)
    requires MatchRun(cat, t, s, order, s') && i <= |order|
    requires x in s.leads && Barren(cat, t, s.leads, x)
    ensures forall j :: 0 <= j < i && (order[j] == x || SameContact(s.leads, t, x, order[j])) ==> !HasAd(s'.leads, order[j])
  {
    if i > 0 {
      BarrenPrefix(cat, t, s, order, s', x, i - 1);
      if order[i - 1] == x || SameContact(s.leads, t, x, order[i - 1]) {
        BarrenVisit(cat, t, s, order, s', x, i - 1);
      }
    }
  }

  /** A contact without any evidence stays without it. */
  lemma {:induction false} BarrenStays(cat: Catalog, t: TenantId, s: Db, order: seq<LeadKey>, s': Db, x: LeadKey)
    requires MatchRun(cat, t, s, order, s')
    requires x in s.leads && Barren(cat, t, s.leads, x)
    ensures x in s'.leads && Barren(cat, t, s'.leads, x)
  {
    RunFrame(cat, t, s, order, s');
    BarrenPrefix(cat, t, s, order, s', x, |order|);
    forall y | y == x || SameContact(s'.leads, t, x, y)
      ensures !HasAd(s'.leads, y)
      ensures Live(s'.leads, t, y) ==> UtmDecision(cat, t, s'.leads[y]).adId.None?
    {
      assert y == x || SameContact(s.leads, t, x, y);
      if y in order {
        var j := PositionOf(order, y);
      }
      if Live(s'.leads, t, y) {
        StillLive(cat, t, s, order, s', y);
      }
    }
  }

  // ---- Three runs ----

  /** y gives no more reason to move: it repeats utm_content's verdict and no sibling has an ad. */
  ghost predicate Settled(cat: Catalog, t: TenantId, leads: map<LeadKey, Lead>, y: LeadKey)
    requires y in leads
  {
    && !SelfEvidence(leads[y])
    && leads[y].edge == EdgeOf(UtmDecision(cat, t, leads[y]))
    && forall z :: SameContact(leads, t, y, z) ==> !HasAd(leads, z)
  }

  /** With no matched evidence and two live leads, an ad on one of them would have spread by the next run. */
  lemma {:induction false} NoAdAfterOneRun(cat: Catalog, t: TenantId, s1: Db, o2: seq<LeadKey>, s2: Db, o3: seq<LeadKey>, s3: Db,
                        x: LeadKey, y: LeadKey, z: LeadKey)
    requires MatchRun(cat, t, s1, o2, s2) && MatchRun(cat, t, s2, o3, s3)
    requires Live(s1.leads, t, y) && s1.leads[y].edge == EdgeOf(UtmDecision(cat, t, s1.leads[y]))
    requires Live(s3.leads, t, x) && Live(s2.leads, t, y) && SameContact(s1.leads, t, x, y)
    requires z == x || SameContact(s1.leads, t, x, z)
    requires Live(s1.leads, t, z) ==> s1.leads[z].edge == EdgeOf(UtmDecision(cat, t, s1.leads[z]))
    ensures !HasAd(s1.leads, z)
    ensures Live(s1.leads, t, z) ==> UtmDecision(cat, t, s1.leads[z]).adId.None?
  {
    RunFrame(cat, t, s1, o2, s2);
    RunFrame(cat, t, s2, o3, s3);
    StillLive(cat, t, s2, o3, s3, x);
    StillLive(cat, t, s1, o2, s2, x);
    if HasAd(s1.leads, z) {
      if Live(s2.leads, t, z) {
        StillLive(cat, t, s1, o2, s2, z);
      } else if Live(s1.leads, t, z) {
        LeavesMatched(cat, t, s1, o2, s2, z);
      } else {
        assert z !in o2;
      }
      EvidenceSpreads(cat, t, s1, o2, s2, if z == x then y else x, z);
    }
  }

  lemma {:induction false} ThirdRunSettles(cat: Catalog, t: TenantId, s0: Db, o1: seq<LeadKey>, s1: Db, o2: seq<LeadKey>, s2: Db,
                        o3: seq<LeadKey>, s3: Db, x: LeadKey)
    requires MatchRun(cat, t, s0, o1, s1) && MatchRun(cat, t, s1, o2, s2) && MatchRun(cat, t, s2, o3, s3)
    requires Live(s3.leads, t, x)
    ensures Settled(cat, t, s3.leads, x)
  {
    StillLive(cat, t, s2, o3, s3, x);
    StillLive(cat, t, s1, o2, s2, x);
    StillLive(cat, t, s0, o1, s1, x);
    RunFrame(cat, t, s0, o1, s1);
    RunFrame(cat, t, s1, o2, s2);
    RunFrame(cat, t, s2, o3, s3);
    forall y | SameContact(s3.leads, t, x, y)
      ensures !HasAd(s3.leads, y)
    {
      if HasAd(s3.leads, y) {
        NoLateAd(cat, t, s0, o1, s1, o2, s2, o3, s3, x, y);
      }
    }
  }

  lemma {:induction false} NoLateAd(cat: Catalog, t: TenantId, s0: Db, o1: seq<LeadKey>, s1: Db, o2: seq<LeadKey>, s2: Db,
                 o3: seq<LeadKey>, s3: Db, x: LeadKey, y: LeadKey)
    requires MatchRun(cat, t, s0, o1, s1) && MatchRun(cat, t, s1, o2, s2) && MatchRun(cat, t, s2, o3, s3)
    requires Live(s3.leads, t, x) && SameContact(s3.leads, t, x, y)
    ensures !HasAd(s3.leads, y)
  {
    StillLive(cat, t, s2, o3, s3, x);
    StillLive(cat, t, s1, o2, s2, x);
    StillLive(cat, t, s0, o1, s1, x);
    RunFrame(cat, t, s0, o1, s1);
    RunFrame(cat, t, s1, o2, s2);
    RunFrame(cat, t, s2, o3, s3);
    if !Live(s2.leads, t, y) {
      assert y !in o3;
      if HasAd(s2.leads, y) { EvidenceSpreads(cat, t, s2, o3, s3, x, y); }
    } else {
      StillLive(cat, t, s1, o2, s2, y);
      StillLive(cat, t, s0, o1, s1, y);
      forall z | z == x || SameContact(s1.leads, t, x, z)
        ensures !HasAd(s1.leads, z)
        ensures Live(s1.leads, t, z) ==> UtmDecision(cat, t, s1.leads[z]).adId.None?
      {
        if Live(s1.leads, t, z) { StillLive(cat, t, s0, o1, s1, z); }
        NoAdAfterOneRun(cat, t, s1, o2, s2, o3, s3, x, y, z);
      }
      BarrenStays(cat, t, s1, o2, s2, x);
      BarrenStays(cat, t, s2, o3, s3, x);
    }
  }

  lemma {:induction false} SettledPrefix(cat: Catalog, t: TenantId, s: Db, order: seq<LeadKey>, s': Db, i: nat)
    requires MatchRun(cat, t, s, order, s') && i <= |order|
    requires forall y :: Live(s.leads, t, y) ==> Settled(cat, t, s.leads, y)
    ensures forall j :: 0 <= j < i ==> order[j] in s.leads && order[j] in s'.leads && s'.leads[order[j]] == s.leads[order[j]]
  {
    if i > 0 {
      SettledPrefix(cat, t, s, order, s', i - 1);
      var y := order[i - 1];
      var m, sibling := Visit(cat, t, s, order, s', i - 1);
      assert y in order;
      forall k | k in m.leads
        ensures m.leads[k] == s.leads[k]
      {
        if k in order[..i - 1] {
          var j := PositionOf(order[..i - 1], k);
          assert k == order[j];
        }
      }
      assert m.leads == s.leads;
      assert forall k :: IsSibling(s.leads, t, y, k) ==> SameContact(s.leads, t, y, k);
      DecisionShape(cat, t, s.leads[y], sibling);
    }
  }

  lemma {:induction false} SettledRunIsIdle(cat: Catalog, t: TenantId, s: Db, order: seq<LeadKey>, s': Db)
    requires MatchRun(cat, t, s, order, s')
    requires forall y :: Live(s.leads, t, y) ==> Settled(cat, t, s.leads, y)
    ensures s'.leads == s.leads
  {
    RunFrame(cat, t, s, order, s');
    SettledPrefix(cat, t, s, order, s', |order|);
    forall k | k in s.leads
      ensures s'.leads[k] == s.leads[k]
    {
      if k in order { var j := PositionOf(order, k); }
    }
  }

  /**
   * Convergence. From any state at all, after three runs every later run leaves every lead row as it is;
   * each run may take its own row order and its own sibling answers.
   */
  lemma {:induction false} ThreeRunsConverge(cat: Catalog, t: TenantId, s0: Db, o1: seq<LeadKey>, s1: Db, o2: seq<LeadKey>, s2: Db,
                          o3: seq<LeadKey>, s3: Db, o4: seq<LeadKey>, s4: Db)
    requires MatchRun(cat, t, s0, o1, s1) && MatchRun(cat, t, s1, o2, s2) && MatchRun(cat, t, s2, o3, s3)
    requires MatchRun(cat, t, s3, o4, s4)
    ensures s4.leads == s3.leads
  {
    forall y | Live(s3.leads, t, y)
      ensures Settled(cat, t, s3.leads, y)
    {
      ThirdRunSettles(cat, t, s0, o1, s1, o2, s2, o3, s3, y);
    }
    SettledRunIsIdle(cat, t, s3, o4, s4);
  }

  /**
   * The shape of the settled state: two leads of one contact that both started live end up both matched with
   * an ad or both unmatched without one; a lead that started with a fixed ad gets every live sibling matched.
   */
  lemma {:induction false} ContactsAgree(cat: Catalog, t: TenantId, s0: Db, o1: seq<LeadKey>, s1: Db, o2: seq<LeadKey>, s2: Db,
                      o3: seq<LeadKey>, s3: Db, x: LeadKey, y: LeadKey)
    requires MatchRun(cat, t, s0, o1, s1) && MatchRun(cat, t, s1, o2, s2) && MatchRun(cat, t, s2, o3, s3)
    requires SameContact(s0.leads, t, x, y) && Live(s0.leads, t, x)
    requires Live(s0.leads, t, y) || HasAd(s0.leads, y)
    ensures x in s3.leads && y in s3.leads
    ensures var ex, ey := s3.leads[x].edge, s3.leads[y].edge;
            || (ex.status == Matched && ex.adId.Some? && ey.adId.Some? && (Live(s0.leads, t, y) ==> ey.status == Matched))
            || (ex.status == Unmatched && ex.adId.None? && ey.status == Unmatched && ey.adId.None?)
  {
    RunFrame(cat, t, s0, o1, s1);
    RunFrame(cat, t, s1, o2, s2);
    RunFrame(cat, t, s2, o3, s3);
    if !Live(s0.leads, t, y) {
      assert y !in o1;
      EvidenceSpreads(cat, t, s0, o1, s1, x, y);
      assert x !in o2 && y !in o2 && x !in o3 && y !in o3;
    } else {
      EndOfLive(cat, t, s0, o1, s1, o2, s2, o3, s3, x);
      EndOfLive(cat, t, s0, o1, s1, o2, s2, o3, s3, y);
      assert SameContact(s3.leads, t, x, y) && SameContact(s3.leads, t, y, x);
    }
  }

  /** After three runs a lead that started live is matched with an ad, or settled. */
  lemma {:induction false} EndOfLive(cat: Catalog, t: TenantId, s0: Db, o1: seq<LeadKey>, s1: Db, o2: seq<LeadKey>, s2: Db,
                  o3: seq<LeadKey>, s3: Db, x: LeadKey)
    requires MatchRun(cat, t, s0, o1, s1) && MatchRun(cat, t, s1, o2, s2) && MatchRun(cat, t, s2, o3, s3)
    requires Live(s0.leads, t, x)
    ensures x in s3.leads
    ensures || (s3.leads[x].edge.status == Matched && HasAd(s3.leads, x))
            || (Live(s3.leads, t, x) && Settled(cat, t, s3.leads, x)
                && (HasAd(s3.leads, x) <==> s3.leads[x].edge.status == Review))
  {
    RunFrame(cat, t, s0, o1, s1);
    RunFrame(cat, t, s1, o2, s2);
    RunFrame(cat, t, s2, o3, s3);
    if Live(s3.leads, t, x) {
      ThirdRunSettles(cat, t, s0, o1, s1, o2, s2, o3, s3, x);
    } else if Live(s2.leads, t, x) {
      LeavesMatched(cat, t, s2, o3, s3, x);
    } else if Live(s1.leads, t, x) {
      LeavesMatched(cat, t, s1, o2, s2, x);
      assert x !in o3;
    } else {
      LeavesMatched(cat, t, s0, o1, s1, x);
      assert x !in o2 && x !in o3;
    }
  }

  /**
   * With no rejected lead and no matched lead without an ad, every contact with two or more leads ends
   * uniform: all matched with an ad, or all unmatched with none.
   */
  lemma {:induction false} ContactsUniform(cat: Catalog, t: TenantId, s0: Db, o1: seq<LeadKey>, s1: Db, o2: seq<LeadKey>, s2: Db,
                        o3: seq<LeadKey>, s3: Db, x: LeadKey, y: LeadKey)
    requires MatchRun(cat, t, s0, o1, s1) && MatchRun(cat, t, s1, o2, s2) && MatchRun(cat, t, s2, o3, s3)
    requires forall k :: k in s0.leads && k.tenant == t ==>
               s0.leads[k].edge.status != Rejected && (s0.leads[k].edge.status == Matched ==> HasAd(s0.leads, k))
    requires SameContact(s0.leads, t, x, y)
    ensures x in s3.leads && y in s3.leads
    ensures var ex, ey := s3.leads[x].edge, s3.leads[y].edge;
            || (ex.status == Matched && ey.status == Matched && ex.adId.Some? && ey.adId.Some?)
            || (ex.status == Unmatched && ey.status == Unmatched && ex.adId.None? && ey.adId.None?)
  {
    RunFrame(cat, t, s0, o1, s1);
    RunFrame(cat, t, s1, o2, s2);
    RunFrame(cat, t, s2, o3, s3);
    if Live(s0.leads, t, x) {
      ContactsAgree(cat, t, s0, o1, s1, o2, s2, o3, s3, x, y);
      if !Live(s0.leads, t, y) { assert y !in o1 && y !in o2 && y !in o3; }
    } else if Live(s0.leads, t, y) {
      ContactsAgree(cat, t, s0, o1, s1, o2, s2, o3, s3, y, x);
      assert x !in o1 && x !in o2 && x !in o3;
    } else {
      assert x !in o1 && x !in o2 && x !in o3 && y !in o1 && y !in o2 && y !in o3;
    }
  }

  // ---- Three is the least bound ----

  const TWINS := Catalog([Ad(1, "t", "x1", "dup"), Ad(2, "t", "x2", "dup")], [])
  const KEY_A := LeadKey("t", Crm, "a")
  const KEY_B := LeadKey("t", Crm, "b")
  const NO_SIGNALS := Signals(None, None, None, None, None, None, None)
  const FRESH := Edge(None, None, None, Unmatched)
  const LEAD_A := Lead(Some(7), 0, NO_SIGNALS, FRESH)
  const LEAD_B := Lead(Some(7), 0, NO_SIGNALS.(utmContent := Some("dup")), FRESH)
  const NOTHING := Edge(None, None, Some(0.0), Unmatched)
  const GUESS := Edge(Some(1), Some(Utm), Some(0.5), Review)
  const BY_SIBLING := Edge(Some(1), Some(Phone), Some(0.95), Matched)

  lemma {:induction false} TwinsAreUndecidable()
    ensures UtmCandidate(TWINS, "t", LEAD_A).None?
    ensures forall e :: UtmCandidate(TWINS, "t", LEAD_B.(edge := e)) == Some(Candidate(Utm, 1, None))
  {
    var ads := TWINS.ads;
    assert Front(ads) == [ads[0]] && Front([ads[0]]) == [];
    var byId := (a: Ad) => a.tenant == "t" && a.externalId == "dup";
    assert ads[0].externalId == "x1" && "x1" != "dup" && ads[1].externalId == "x2" && "x2" != "dup" by {
      assert "x1"[0] != "dup"[0] && "x2"[0] != "dup"[0];
    }
    assert Filter([ads[0]], byId) == [] && Filter(ads, byId) == [];
    var byName := (a: Ad) => a.tenant == "t" && a.name == "dup";
    assert Filter([], byName) == [];
    assert Filter([ads[0]], byName) == [ads[0]];
    assert Filter(ads, byName) == ads;
  }

  /** The table of the two twins with the given edges. */
  predicate Holds(s: Db, a: Edge, b: Edge) {
    s.leads == map[KEY_A := LEAD_A.(edge := a), KEY_B := LEAD_B.(edge := b)]
  }

  lemma {:induction false} KeysDiffer()
    ensures KEY_A != KEY_B
  {
    assert "a"[0] != "b"[0];
  }

  lemma {:induction false} VisitA(s: Db, a: Edge, b: Edge, a': Edge) returns (s': Db)
    requires Holds(s, a, b)
    requires a' == if b.adId.None? then NOTHING else Edge(b.adId, Some(Phone), Some(0.95), Matched)
    ensures Step(TWINS, "t", s, KEY_A, s') && Holds(s', a', b)
  {
    KeysDiffer();
    TwinsAreUndecidable();
    var d := Decide(TWINS, "t", s.leads[KEY_A], b.adId);
    DecisionShape(TWINS, "t", s.leads[KEY_A], b.adId);
    assert SiblingChoice(s.leads, "t", KEY_A, b.adId) by {
      if b.adId.Some? { assert IsSibling(s.leads, "t", KEY_A, KEY_B); }
    }
    s' := Apply("t", s, KEY_A, d);
  }

  lemma {:induction false} VisitB(s: Db, a: Edge, b: Edge, b': Edge) returns (s': Db)
    requires Holds(s, a, b)
    requires b' == if a.adId.None? then GUESS else Edge(a.adId, Some(Phone), Some(0.95), Matched)
    ensures Step(TWINS, "t", s, KEY_B, s') && Holds(s', a, b')
  {
    KeysDiffer();
    TwinsAreUndecidable();
    var d := Decide(TWINS, "t", s.leads[KEY_B], a.adId);
    DecisionShape(TWINS, "t", s.leads[KEY_B], a.adId);
    assert SiblingChoice(s.leads, "t", KEY_B, a.adId) by {
      if a.adId.Some? { assert IsSibling(s.leads, "t", KEY_B, KEY_A); }
    }
    s' := Apply("t", s, KEY_B, d);
  }

  lemma {:induction false} RoundOne(s: Db) returns (s': Db)
    requires Holds(s, FRESH, FRESH)
    ensures MatchRun(TWINS, "t", s, [KEY_A, KEY_B], s') && Holds(s', NOTHING, GUESS)
  {
    KeysDiffer();
    var m := VisitA(s, FRESH, FRESH, NOTHING);
    s' := VisitB(m, NOTHING, FRESH, GUESS);
    TwoSteps(s, KEY_A, m, KEY_B, s');
  }

  lemma {:induction false} RoundTwo(s: Db) returns (s': Db)
    requires Holds(s, NOTHING, GUESS)
    ensures MatchRun(TWINS, "t", s, [KEY_B, KEY_A], s') && Holds(s', BY_SIBLING, GUESS)
  {
    KeysDiffer();
    var m := VisitB(s, NOTHING, GUESS, GUESS);
    s' := VisitA(m, NOTHING, GUESS, BY_SIBLING);
    TwoSteps(s, KEY_B, m, KEY_A, s');
  }

  lemma {:induction false} RoundThree(s: Db) returns (s': Db)
    requires Holds(s, BY_SIBLING, GUESS)
    ensures MatchRun(TWINS, "t", s, [KEY_B], s') && s'.leads != s.leads
  {
    KeysDiffer();
    s' := VisitB(s, BY_SIBLING, GUESS, BY_SIBLING);
    OneStep(s, KEY_B, s');
    assert s'.leads[KEY_B] != s.leads[KEY_B];
  }

  /** Two runs in different row orders can leave a review lead that the third run matches. */
  lemma {:induction false} TwoRunsAreNotEnough()
    ensures exists s0: Db, o1, s1: Db, o2, s2: Db, o3, s3: Db ::
              && MatchRun(TWINS, "t", s0, o1, s1) && MatchRun(TWINS, "t", s1, o2, s2) && MatchRun(TWINS, "t", s2, o3, s3)
              && s3.leads != s2.leads
  {
    var s0 := Db(map[KEY_A := LEAD_A, KEY_B := LEAD_B], []);
    var s1 := RoundOne(s0);
    var s2 := RoundTwo(s1);
    var s3 := RoundThree(s2);
  }

  lemma {:induction false} OneStep(s: Db, k: LeadKey, s': Db)
    requires Step(TWINS, "t", s, k, s')
    ensures Run(TWINS, "t", s, [k], s')
  {
    assert Front([k]) == [];
    assert Run(TWINS, "t", s, Front([k]), s) && Step(TWINS, "t", s, Last([k]), s');
  }

  lemma {:induction false} TwoSteps(s: Db, k: LeadKey, m: Db, k2: LeadKey, s': Db)
    requires Step(TWINS, "t", s, k, m) && Step(TWINS, "t", m, k2, s')
    ensures Run(TWINS, "t", s, [k, k2], s')
  {
    OneStep(s, k, m);
    assert Front([k, k2]) == [k];
    assert Run(TWINS, "t", s, Front([k, k2]), m) && Step(TWINS, "t", m, Last([k, k2]), s');
  }
}
