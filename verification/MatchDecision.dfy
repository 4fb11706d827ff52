/** Choosing the best ad among match candidates (packages/core/src/matching.ts). */
module MatchDecision {
  import opened Common

  datatype Method = LeadgenId | Fbclid | Phone | Email | Utm | Fuzzy | Manual

  datatype Status = Matched | Unmatched | Review | Rejected

  datatype Candidate = Candidate(via: Method, adId: AdId, confidence: Option<real>)

  datatype Decision = Decision(via: Option<Method>, adId: Option<AdId>, confidence: real, status: Status)

  const REVIEW_THRESHOLD: real := 0.7

  /** Position in the PRIORITY list, most reliable first. */
  function Rank(m: Method): nat {
    match m
    case LeadgenId => 0
    case Fbclid => 1
    case Phone => 2
    case Email => 3
    case Utm => 4
    case Fuzzy => 5
    case Manual => 6
  }

  function DefaultConfidence(m: Method): real {
    match m
    case LeadgenId => 1.0
    case Fbclid => 1.0
    case Phone => 0.95
    case Email => 0.9
    case Utm => 0.5
    case Fuzzy => 0.35
    case Manual => 1.0
  }

  function ConfidenceOf(c: Candidate): real {
    if c.confidence.Some? then c.confidence.value else DefaultConfidence(c.via)
  }

  /** Insertion before every element of equal or larger rank: an earlier candidate stays in front. */
  function InsertByRank(c: Candidate, sorted: seq<Candidate>): seq<Candidate> {
    if sorted == [] || Rank(c.via) <= Rank(sorted[0].via) then [c] + sorted
    else [sorted[0]] + InsertByRank(c, sorted[1..])
  }

  /** The stable sort of the candidates by priority. */
  function SortByRank(cs: seq<Candidate>): (r: seq<Candidate>)
    ensures |r| == |cs|
  {
    if cs == [] then [] else
      var rest := SortByRank(cs[1..]);
      InsertLength(cs[0], rest);
      InsertByRank(cs[0], rest)
  }

  lemma {:induction false} InsertLength(c: Candidate, sorted: seq<Candidate>)
    ensures |InsertByRank(c, sorted)| == |sorted| + 1
  {
    if !(sorted == [] || Rank(c.via) <= Rank(sorted[0].via)) { InsertLength(c, sorted[1..]); }
  }

  function DecisionFor(best: Candidate): Decision {
    var confidence := ConfidenceOf(best);
    Decision(Some(best.via), Some(best.adId), confidence,
             if confidence >= REVIEW_THRESHOLD then Matched else Review)
  }

  function DecideMatch(candidates: seq<Candidate>): Decision {
    if |candidates| == 0 then Decision(None, None, 0.0, Unmatched)
    else DecisionFor(SortByRank(candidates)[0])
  }

  /** i is the first position holding a candidate of the best rank. */
  ghost predicate IsFirstBest(cs: seq<Candidate>, i: nat) {
    && i < |cs|
    && (forall j :: 0 <= j < |cs| ==> Rank(cs[i].via) <= Rank(cs[j].via))
    && (forall j :: 0 <= j < i ==> Rank(cs[i].via) < Rank(cs[j].via))
  }

  /** Sorting and taking the head decides for the earliest candidate of the most reliable method. */
  lemma {:induction false} DecisionIsFirstBest(cs: seq<Candidate>, i: nat)
    requires IsFirstBest(cs, i)
    ensures DecideMatch(cs) == DecisionFor(cs[i])
  {
    HeadOfSort(cs, i);
  }

  lemma {:induction false} HeadOfSort(cs: seq<Candidate>, i: nat)
    requires IsFirstBest(cs, i)
    ensures SortByRank(cs)[0] == cs[i]
  {
    var rest := SortByRank(cs[1..]);
    if i > 0 {
      assert IsFirstBest(cs[1..], i - 1) by {
        assert forall j :: 0 <= j < |cs[1..]| ==> cs[1..][j] == cs[j + 1];
      }
      HeadOfSort(cs[1..], i - 1);
    } else if |cs| > 1 {
      var k := FirstBest(cs[1..]);
      HeadOfSort(cs[1..], k);
      assert cs[1..][k] == cs[k + 1];
    }
  }

  /** Every nonempty candidate list has a first best candidate. */
  lemma {:induction false} FirstBest(cs: seq<Candidate>) returns (i: nat)
    requires |cs| > 0
    ensures IsFirstBest(cs, i)
  {
    i := 0;
    for k := 1 to |cs|
      invariant i < k
      invariant forall j :: 0 <= j < k ==> Rank(cs[i].via) <= Rank(cs[j].via)
      invariant forall j :: 0 <= j < i ==> Rank(cs[i].via) < Rank(cs[j].via)
    {
      if Rank(cs[k].via) < Rank(cs[i].via) {
        i := k;
      }
    }
  }
}
