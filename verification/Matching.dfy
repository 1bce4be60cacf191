/** The partner ranking (backend/src/api/matching/engine.py). */
module Matching {
  import opened Ordering
  import opened Results

  /** A partner of the registry; `rating` may be missing. */
  datatype Candidate = Candidate(
    id: string,
    category: string,
    isActive: bool,
    available: bool,
    channels: seq<string>,
    serviceAreas: seq<string>,
    rating: Option<real>)

  datatype MatchResult = MatchResult(partner: string, channel: string, chain: seq<string>)

  predicate IsEligible(c: Candidate, category: string, area: Option<string>) {
    && c.category == category
    && c.isActive && c.available
    && c.channels != []
    && (area.Some? && c.serviceAreas != [] ==> area.value in c.serviceAreas)
  }

  function Eligible(candidates: seq<Candidate>, category: string, area: Option<string>): (r: seq<Candidate>)
    ensures forall c :: c in r <==> c in candidates && IsEligible(c, category, area)
  {
    if candidates == [] then []
    else if IsEligible(candidates[0], category, area) then [candidates[0]] + Eligible(candidates[1..], category, area)
    else Eligible(candidates[1..], category, area)
  }

  function RatingOf(c: Candidate): real {
    if c.rating.Some? then c.rating.value else 0.0
  }

  /** A better rating first, then the smaller id. */
  predicate Before(c: Candidate, d: Candidate) {
    RatingOf(c) > RatingOf(d) || (RatingOf(c) == RatingOf(d) && StringLeq(c.id, d.id))
  }

  function Ids(candidates: seq<Candidate>): (r: seq<string>)
    ensures |r| == |candidates|
    ensures forall i :: 0 <= i < |r| ==> r[i] == candidates[i].id
  {
    seq(|candidates|, i requires 0 <= i < |candidates| => candidates[i].id)
  }

  function Ranked(candidates: seq<Candidate>, category: string, area: Option<string>): seq<Candidate> {
    Sort(Eligible(candidates, category, area), Before)
  }

  /** The partner to assign, its first channel, and the others as the fallback chain. */
  function Rank(candidates: seq<Candidate>, category: string, area: Option<string>): Option<MatchResult> {
    var ranked := Ranked(candidates, category, area);
    if ranked == [] || ranked[0].channels == [] then
      None
    else
      Some(MatchResult(ranked[0].id, ranked[0].channels[0], Ids(ranked[1..])))
  }

  lemma BeforeTotal()
    ensures Total(Before)
  {
    forall c, d ensures Before(c, d) || Before(d, c) {
      StringTotal(c.id, d.id);
    }
    forall c, d, e | Before(c, d) && Before(d, e) ensures Before(c, e) {
      if RatingOf(c) == RatingOf(d) == RatingOf(e) {
        StringTransitive(c.id, d.id, e.id);
      }
    }
  }

  ghost predicate DistinctIds(candidates: seq<Candidate>) {
    forall c, d :: c in candidates && d in candidates && c.id == d.id ==> c == d
  }

  lemma {:induction false} EligibleMultiset(a: seq<Candidate>, category: string, area: Option<string>)
    ensures forall c :: multiset(Eligible(a, category, area))[c]
                        == if IsEligible(c, category, area) then multiset(a)[c] else 0
  {
    if a != [] {
      EligibleMultiset(a[1..], category, area);
      assert a == [a[0]] + a[1..];
    }
  }

  lemma RankedSorted(candidates: seq<Candidate>, category: string, area: Option<string>)
    ensures Sorted(Ranked(candidates, category, area), Before)
    ensures multiset(Ranked(candidates, category, area)) == multiset(Eligible(candidates, category, area))
    ensures forall c :: c in Ranked(candidates, category, area)
                        <==> c in candidates && IsEligible(c, category, area)
  {
    var eligible := Eligible(candidates, category, area);
    BeforeTotal();
    SortSorted(eligible, Before);
    forall c ensures c in Sort(eligible, Before) <==> c in eligible {
      assert c in Sort(eligible, Before) <==> c in multiset(Sort(eligible, Before));
      assert c in eligible <==> c in multiset(eligible);
    }
  }

  /** `ranked` lists the eligible candidates, each as often as it occurs, in the order of `Before`. */
  ghost predicate IsRanking(ranked: seq<Candidate>, candidates: seq<Candidate>, category: string, area: Option<string>) {
    && Sorted(ranked, Before)
    && forall c :: multiset(ranked)[c] == if IsEligible(c, category, area) then multiset(candidates)[c] else 0
  }

  /** Somebody is chosen exactly when somebody is eligible. */
  lemma RankAnswers(candidates: seq<Candidate>, category: string, area: Option<string>)
    ensures Rank(candidates, category, area).Some?
            <==> exists c :: c in candidates && IsEligible(c, category, area)
  {
    var ranked := Ranked(candidates, category, area);
    RankedSorted(candidates, category, area);
    if ranked != [] {
      assert ranked[0] in ranked;
    }
    if c :| c in candidates && IsEligible(c, category, area) {
      assert c in ranked;
    }
  }

  /** Nothing rules the candidate out. */
  ghost predicate Suits(c: Candidate, category: string, area: Option<string>) {
    !(|| c.category != category
      || !c.isActive || !c.available
      || |c.channels| == 0
      || (area.Some? && |c.serviceAreas| > 0 && area.value !in c.serviceAreas))
  }

  lemma SuitsExactly(c: Candidate, category: string, area: Option<string>)
    ensures Suits(c, category, area) <==> IsEligible(c, category, area)
  {
  }

  /** A higher rating, or the same and an id that comes first in the order of the code points. */
  ghost predicate IsBetter(c: Candidate, d: Candidate) {
    var rating, other := if c.rating.None? then 0.0 else c.rating.value, if d.rating.None? then 0.0 else d.rating.value;
    rating > other || (rating == other && IsSmaller(c.id, d.id))
  }

  /** `ranking` has exactly the candidates that suit, each as often as it occurs, nobody after a worse
      one; the partner is the first of them on the first of their channels, the chain the others. */
  ghost predicate IsBest(candidates: seq<Candidate>, category: string, area: Option<string>, ranking: seq<Candidate>,
                         partner: string, channel: string, chain: seq<string>)
  {
    && ranking != []
    && (forall c :: multiset(ranking)[c] == if Suits(c, category, area) then multiset(candidates)[c] else 0)
    && (forall i, j :: 0 <= i < j < |ranking| ==> !IsBetter(ranking[j], ranking[i]))
    && partner == ranking[0].id && ranking[0].channels != [] && channel == ranking[0].channels[0]
    && |chain| == |ranking| - 1 && forall i :: 0 <= i < |chain| ==> chain[i] == ranking[i + 1].id
  }

  lemma BetterIsBefore(c: Candidate, d: Candidate)
    ensures IsBetter(d, c) ==> !Before(c, d)
  {
    SmallerExactly(d.id, c.id);
    StringTotal(c.id, d.id);
  }

  lemma RankIsBest(candidates: seq<Candidate>, category: string, area: Option<string>)
    ensures var rank := Rank(candidates, category, area);
            rank.Some? ==>
              IsBest(candidates, category, area, Ranked(candidates, category, area),
                     rank.value.partner, rank.value.channel, rank.value.chain)
  {
    var rank, ranking := Rank(candidates, category, area), Ranked(candidates, category, area);
    if rank.Some? {
      RankExact(candidates, category, area);
      forall c ensures multiset(ranking)[c] == if Suits(c, category, area) then multiset(candidates)[c] else 0 {
        SuitsExactly(c, category, area);
      }
      forall i, j | 0 <= i < j < |ranking| ensures !IsBetter(ranking[j], ranking[i]) {
        BetterIsBefore(ranking[i], ranking[j]);
      }
    }
  }

  lemma IdsSplit(ranked: seq<Candidate>)
    requires ranked != []
    ensures [ranked[0].id] + Ids(ranked[1..]) == Ids(ranked)
  {
  }

  /** The chosen partner and the chain are together the ids of a ranking, in its order; the
      channel is the first one of the partner chosen. */
  lemma RankExact(candidates: seq<Candidate>, category: string, area: Option<string>)
    ensures IsRanking(Ranked(candidates, category, area), candidates, category, area)
    ensures var rank, ranked := Rank(candidates, category, area), Ranked(candidates, category, area);
            rank.Some? ==>
              && ranked != [] && ranked[0].channels != []
              && [rank.value.partner] + rank.value.chain == Ids(ranked)
              && rank.value.channel == ranked[0].channels[0]
  {
    RankedSorted(candidates, category, area);
    EligibleMultiset(candidates, category, area);
    if Ranked(candidates, category, area) != [] {
      IdsSplit(Ranked(candidates, category, area));
    }
  }

  lemma RankedUntied(candidates: seq<Candidate>, category: string, area: Option<string>)
    requires DistinctIds(candidates)
    ensures Untied(Ranked(candidates, category, area), Before)
  {
    var ranked := Ranked(candidates, category, area);
    RankedSorted(candidates, category, area);
    forall c, d | c in ranked && d in ranked && Before(c, d) && Before(d, c) ensures c == d {
      StringTotal(c.id, d.id);
    }
  }

  lemma EligibleAgree(a: seq<Candidate>, b: seq<Candidate>, category: string, area: Option<string>)
    requires multiset(a) == multiset(b)
    ensures multiset(Eligible(a, category, area)) == multiset(Eligible(b, category, area))
  {
    EligibleMultiset(a, category, area);
    EligibleMultiset(b, category, area);
  }

  lemma RankedAgree(a: seq<Candidate>, b: seq<Candidate>, category: string, area: Option<string>)
    requires multiset(a) == multiset(b) && DistinctIds(a)
    ensures Ranked(a, category, area) == Ranked(b, category, area)
  {
    EligibleAgree(a, b, category, area);
    RankedSorted(a, category, area);
    RankedSorted(b, category, area);
    RankedUntied(a, category, area);
    StringsReflexive();
    SortedUnique(Ranked(a, category, area), Ranked(b, category, area), Before);
  }

  lemma StringsReflexive()
    ensures Reflexive(Before)
  {
    forall c: Candidate ensures Before(c, c) {
      StringTotal(c.id, c.id);
    }
  }

  /** With distinct ids the answer does not depend on the order of the registry's list. */
  lemma RankCanonical(a: seq<Candidate>, b: seq<Candidate>, category: string, area: Option<string>)
    requires multiset(a) == multiset(b) && DistinctIds(a)
    ensures Rank(a, category, area) == Rank(b, category, area)
  {
    RankedAgree(a, b, category, area);
  }
}
