/**
 * What utm_content alone decides for a lead (apps/api/src/matching/matching.service.ts), in terms of the tenant's
 * ads and their spend.
 */
module UtmEvidence {
  import opened Common
  import opened MatchDecision
  import opened Matching
  import MatchingConvergence

  predicate HasExternalId(a: Ad, t: TenantId, externalId: string) {
    a.tenant == t && a.externalId == externalId
  }

  predicate IsNamed(a: Ad, t: TenantId, name: string) {
    a.tenant == t && a.name == name
  }

  /** Some ad of the tenant has the content as its external id, and ad is such an ad. */
  ghost predicate NamesById(ads: seq<Ad>, t: TenantId, content: string, ad: AdId) {
    exists a :: a in ads && HasExternalId(a, t, content) && a.id == ad
  }

  ghost predicate SomeHasId(ads: seq<Ad>, t: TenantId, content: string) {
    exists a :: a in ads && HasExternalId(a, t, content)
  }

  /** The ids of the tenant's ads of that name. */
  ghost function NamedIds(ads: seq<Ad>, t: TenantId, name: string): set<AdId> {
    set a | a in ads && IsNamed(a, t, name) :: a.id
  }

  /** Position i holds the only ad of that name. */
  ghost predicate OnlyNamed(ads: seq<Ad>, t: TenantId, name: string, i: int) {
    0 <= i < |ads| && IsNamed(ads[i], t, name) && forall j :: 0 <= j < |ads| && IsNamed(ads[j], t, name) ==> j == i
  }

  ghost predicate SeveralNamed(ads: seq<Ad>, t: TenantId, name: string) {
    exists i, j :: 0 <= i < j < |ads| && IsNamed(ads[i], t, name) && IsNamed(ads[j], t, name)
  }

  /** ad is the only one of these that ever spent. */
  ghost predicate OnlySpender(insights: seq<DaySpend>, ids: set<AdId>, ad: AdId) {
    ad in ids && Spends(insights, ad) && forall b :: b in ids && Spends(insights, b) ==> b == ad
  }

  ghost predicate SomeSpendsOn(insights: seq<DaySpend>, ids: set<AdId>, day: Instant) {
    exists a :: a in ids && SpendsOn(insights, a, day)
  }

  /** Of several ads of one name: the top spender of the day, else the only one that ever spent, else a guess. */
  ghost predicate IsAmbiguousVerdict(cat: Catalog, ids: set<AdId>, day: Instant, d: Decision) {
    && d.via == Some(Utm) && d.adId.Some?
    && (SomeSpendsOn(cat.insights, ids, day) ==>
          && (exists top :: IsTopSpender(cat.insights, ids, day, top) && top.adId == d.adId.value)
          && d.confidence == 0.8 && d.status == Matched)
    && (!SomeSpendsOn(cat.insights, ids, day) && (exists a :: OnlySpender(cat.insights, ids, a)) ==>
          OnlySpender(cat.insights, ids, d.adId.value) && d.confidence == 0.8 && d.status == Matched)
    && (!SomeSpendsOn(cat.insights, ids, day) && !(exists a :: OnlySpender(cat.insights, ids, a)) ==>
          d.adId.value in ids && d.confidence == 0.5 && d.status == Review)
  }

  /** What a lead's utm_content decides, case by case. */
  ghost predicate IsUtmVerdict(cat: Catalog, t: TenantId, lead: Lead, d: Decision) {
    if lead.signals.utmContent.None? || lead.signals.utmContent.value == "" then d == Decision(None, None, 0.0, Unmatched)
    else
      var content, day := lead.signals.utmContent.value, Midnight(lead.createdAt);
      if SomeHasId(cat.ads, t, content) then
        d.via == Some(Utm) && d.adId.Some? && NamesById(cat.ads, t, content, d.adId.value)
        && d.confidence == 0.95 && d.status == Matched
      else if SeveralNamed(cat.ads, t, content) then
        IsAmbiguousVerdict(cat, NamedIds(cat.ads, t, content), day, d)
      else
        (forall i :: OnlyNamed(cat.ads, t, content, i) ==> d == Decision(Some(Utm), Some(cat.ads[i].id), 0.9, Matched))
        && ((forall i :: !OnlyNamed(cat.ads, t, content, i)) ==> d == Decision(None, None, 0.0, Unmatched))
  }

  // ---- How many ads have the name ----

  lemma {:induction false} FilterCounts<T(!new)>(s: seq<T>, p: T -> bool)
    ensures |Filter(s, p)| == 0 <==> forall i :: 0 <= i < |s| ==> !p(s[i])
    ensures |Filter(s, p)| >= 2 <==> exists i, j :: 0 <= i < j < |s| && p(s[i]) && p(s[j])
    ensures forall i :: 0 <= i < |s| && p(s[i]) && |Filter(s, p)| == 1 ==> Filter(s, p)[0] == s[i]
  {
    if |s| > 0 {
      var front, last := Front(s), |s| - 1;
      assert forall i :: 0 <= i < last ==> s[i] == front[i];
      FilterCounts(front, p);
    }
  }

  lemma {:induction false} NamedCounted(ads: seq<Ad>, t: TenantId, name: string)
    ensures var named := Filter(ads, (a: Ad) => a.tenant == t && a.name == name);
            && (|named| == 0 <==> forall i :: 0 <= i < |ads| ==> !IsNamed(ads[i], t, name))
            && (|named| >= 2 <==> SeveralNamed(ads, t, name))
            && (|named| == 1 ==> forall i :: OnlyNamed(ads, t, name, i) ==> named[0] == ads[i])
            && (|named| == 1 ==> exists i :: OnlyNamed(ads, t, name, i))
            && (set a | a in named :: a.id) == NamedIds(ads, t, name)
  {
    var p := (a: Ad) => a.tenant == t && a.name == name;
    FilterCounts(ads, p);
    if |Filter(ads, p)| == 1 {
      var i :| 0 <= i < |ads| && p(ads[i]);
      assert IsNamed(ads[i], t, name);
      forall j | 0 <= j < |ads| && IsNamed(ads[j], t, name)
        ensures j == i
      {
        var _ := p(ads[i]) && p(ads[j]);
      }
      assert OnlyNamed(ads, t, name, i);
    }
    if SeveralNamed(ads, t, name) {
      var i, j :| 0 <= i < j < |ads| && IsNamed(ads[i], t, name) && IsNamed(ads[j], t, name);
      assert p(ads[i]) && p(ads[j]);
    }
  }

  // ---- The cases ----

  lemma {:induction false} IdCase(cat: Catalog, t: TenantId, lead: Lead, content: string)
    requires lead.signals.utmContent == Some(content) && content != ""
    ensures AdByExternalId(cat.ads, t, content).Some? <==> SomeHasId(cat.ads, t, content)
    ensures SomeHasId(cat.ads, t, content) ==>
              var c := UtmCandidate(cat, t, lead);
              c.Some? && NamesById(cat.ads, t, content, c.value.adId) && c.value == Candidate(Utm, c.value.adId, Some(0.95))
  {
    var hits := Filter(cat.ads, (a: Ad) => a.tenant == t && a.externalId == content);
    FirstIsMember(hits);
    if SomeHasId(cat.ads, t, content) {
      var a :| a in cat.ads && HasExternalId(a, t, content);
      assert a in hits;
    }
  }

  /** The candidate of several ads of one name: the one the spend singles out, else one of them without confidence. */
  function TieCandidate(cat: Catalog, ids: set<AdId>, leadAt: Instant, guess: AdId): Candidate {
    var winner := DisambiguateBySpend(cat.insights, ids, leadAt);
    if winner.Some? then Candidate(Utm, winner.value, Some(0.8)) else Candidate(Utm, guess, None)
  }

  lemma {:induction false} SeveralCase(cat: Catalog, t: TenantId, lead: Lead, content: string) returns (guess: AdId)
    requires lead.signals.utmContent == Some(content) && content != ""
    requires !SomeHasId(cat.ads, t, content) && SeveralNamed(cat.ads, t, content)
    ensures guess in NamedIds(cat.ads, t, content)
    ensures UtmCandidate(cat, t, lead) == Some(TieCandidate(cat, NamedIds(cat.ads, t, content), lead.createdAt, guess))
  {
    var named := Filter(cat.ads, (a: Ad) => a.tenant == t && a.name == content);
    IdCase(cat, t, lead, content);
    NamedCounted(cat.ads, t, content);
    assert named[0] in named;
    guess := named[0].id;
  }

  lemma {:induction false} TieVerdict(cat: Catalog, ids: set<AdId>, leadAt: Instant, guess: AdId)
    requires guess in ids
    ensures IsAmbiguousVerdict(cat, ids, Midnight(leadAt), DecisionFor(TieCandidate(cat, ids, leadAt, guess)))
  {
    BrokenTie(cat.insights, ids, leadAt);
  }

  lemma {:induction false} AmbiguousCase(cat: Catalog, t: TenantId, lead: Lead, content: string)
    requires lead.signals.utmContent == Some(content) && content != ""
    requires !SomeHasId(cat.ads, t, content) && SeveralNamed(cat.ads, t, content)
    ensures var c := UtmCandidate(cat, t, lead);
            c.Some? && IsAmbiguousVerdict(cat, NamedIds(cat.ads, t, content), Midnight(lead.createdAt), DecisionFor(c.value))
  {
    var guess := SeveralCase(cat, t, lead, content);
    TieVerdict(cat, NamedIds(cat.ads, t, content), lead.createdAt, guess);
  }

  lemma {:induction false} BrokenTie(insights: seq<DaySpend>, ids: set<AdId>, leadAt: Instant)
    ensures var winner, day := DisambiguateBySpend(insights, ids, leadAt), Midnight(leadAt);
            && (SomeSpendsOn(insights, ids, day) ==>
                  winner.Some? && exists top :: IsTopSpender(insights, ids, day, top) && top.adId == winner.value)
            && (!SomeSpendsOn(insights, ids, day) && (exists a :: OnlySpender(insights, ids, a)) ==>
                  winner.Some? && OnlySpender(insights, ids, winner.value))
            && (!SomeSpendsOn(insights, ids, day) && !(exists a :: OnlySpender(insights, ids, a)) ==> winner.None?)
  {
    TieBreak(insights, ids, leadAt);
    var winner, day := DisambiguateBySpend(insights, ids, leadAt), Midnight(leadAt);
    if !SomeSpendsOn(insights, ids, day) {
      if a :| OnlySpender(insights, ids, a) {
        assert a in ids && Spends(insights, a);
      }
      if winner.Some? {
        var a :| a in ids && Spends(insights, a) && forall b :: b in ids && Spends(insights, b) ==> b == a;
        assert OnlySpender(insights, ids, a);
      }
    }
  }

  lemma {:induction false} NameCase(cat: Catalog, t: TenantId, lead: Lead, content: string)
    requires lead.signals.utmContent == Some(content) && content != ""
    requires !SomeHasId(cat.ads, t, content) && !SeveralNamed(cat.ads, t, content)
    ensures forall i :: OnlyNamed(cat.ads, t, content, i) ==>
              UtmCandidate(cat, t, lead) == Some(Candidate(Utm, cat.ads[i].id, Some(0.9)))
    ensures (forall i :: !OnlyNamed(cat.ads, t, content, i)) ==> UtmCandidate(cat, t, lead).None?
  {
    IdCase(cat, t, lead, content);
    NamedCounted(cat.ads, t, content);
  }

  /**
   * A lead without leadgen evidence and without a sibling's ad is decided by its utm_content: an ad of that external
   * id matches at 0.95; else the only ad of that name matches at 0.9; else of several the one the spend singles out
   * matches at 0.8, or one of them is a guess for review at 0.5; else it stays unmatched.
   */
  lemma {:induction false} UtmDecides(cat: Catalog, t: TenantId, lead: Lead)
    requires !MatchingConvergence.SelfEvidence(lead)
    ensures IsUtmVerdict(cat, t, lead, Decide(cat, t, lead, None))
  {
    MatchingConvergence.DecisionShape(cat, t, lead, None);
    if Truthy(lead.signals.utmContent) {
      var content := lead.signals.utmContent.value;
      if SomeHasId(cat.ads, t, content) {
        IdCase(cat, t, lead, content);
      } else if SeveralNamed(cat.ads, t, content) {
        AmbiguousCase(cat, t, lead, content);
      } else {
        NameCase(cat, t, lead, content);
      }
    }
  }
}
