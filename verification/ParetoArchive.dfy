/** The incremental Pareto archive (src/gepa/pareto.py:53-193). */
module ParetoArchive {
  import opened Prelude
  import opened Ranking
  import opened Dominance
  import opened Crowding

  ghost predicate BeatenBy(sols: seq<Solution>, s: Solution, minimize: seq<string>) {
    exists e :: e in sols && Beats(e.objectives, s.objectives, minimize)
  }

  /** The members of `sols` that `s` does not dominate, in order. */
  ghost function Unbeaten(sols: seq<Solution>, s: Solution, minimize: seq<string>): (r: seq<Solution>)
    ensures forall x :: x in r <==> x in sols && !Beats(s.objectives, x.objectives, minimize)
  {
    if sols == [] then []
    else
      var n := |sols| - 1;
      Unbeaten(sols[..n], s, minimize) +
        (if Beats(s.objectives, sols[n].objectives, minimize) then [] else [sols[n]])
  }

  lemma {:induction false} NothingUnbeaten(s: Solution, minimize: seq<string>)
    ensures Unbeaten([], s, minimize) == []
  {
  }

  lemma {:induction false} UnbeatenSnoc(sols: seq<Solution>, x: Solution, s: Solution, minimize: seq<string>)
    ensures Unbeaten(sols + [x], s, minimize) ==
      Unbeaten(sols, s, minimize) + (if Beats(s.objectives, x.objectives, minimize) then [] else [x])
  {
    assert (sols + [x])[..|sols|] == sols;
    hide Beats;
  }

  lemma {:induction false} NothingToFilter(sols: seq<Solution>, s: Solution, minimize: seq<string>)
    requires forall x :: x in sols ==> !Beats(s.objectives, x.objectives, minimize)
    ensures Unbeaten(sols, s, minimize) == sols
  {
    hide Beats;
    if sols == [] {
    } else {
      var n := |sols| - 1;
      assert sols[n] in sols && sols == sols[..n] + [sols[n]];
      NothingToFilter(sols[..n], s, minimize);
    }
  }

  lemma {:induction false} PruneFits(sols: seq<Solution>, maxSize: int)
    ensures |sols| <= maxSize ==> Prune(sols, maxSize) == sols
  {
  }

  /** The archive after offering it `s`. */
  ghost function Offer(sols: seq<Solution>, s: Solution, minimize: seq<string>, maxSize: int): seq<Solution> {
    if BeatenBy(sols, s, minimize) then sols
    else Prune(Unbeaten(sols, s, minimize) + [s], maxSize)
  }

  /** The archive after offering every solution of `added` in turn. */
  ghost function OfferAll(added: seq<Solution>, minimize: seq<string>, maxSize: int): seq<Solution> {
    if added == [] then []
    else
      var n := |added| - 1;
      Offer(OfferAll(added[..n], minimize, maxSize), added[n], minimize, maxSize)
  }

  // ----- Python's min, max and weighted sums ----------------------------

  /** The index `max(..., key=)` picks, or `min(..., key=)` when `smallest`: the first extreme key. */
  function FirstExtreme(keys: seq<Ext>, smallest: bool): (r: nat)
    requires keys != []
    ensures r < |keys|
    ensures forall i :: 0 <= i < |keys| ==> !(if smallest then keys[i].Less(keys[r]) else keys[r].Less(keys[i]))
    ensures forall i :: 0 <= i < r ==> (if smallest then keys[r].Less(keys[i]) else keys[i].Less(keys[r]))
  {
    if |keys| == 1 then 0
    else
      var n := |keys| - 1;
      var r := FirstExtreme(keys[..n], smallest);
      if smallest then (if keys[n].Less(keys[r]) then n else r)
      else (if keys[r].Less(keys[n]) then n else r)
  }

  function BestKey(s: Solution, o: string, minimize: seq<string>): Ext {
    if o in s.objectives.at then Fin(s.objectives.at[o])
    else if o in minimize then PosInf
    else NegInf
  }

  function BestKeys(sols: seq<Solution>, o: string, minimize: seq<string>): (k: seq<Ext>)
    ensures |k| == |sols|
  {
    seq(|sols|, i requires 0 <= i < |sols| => BestKey(sols[i], o, minimize))
  }

  /** `get_best` on the listed solutions. */
  function BestOf(sols: seq<Solution>, o: string, minimize: seq<string>): Option<Solution> {
    if sols == [] then None
    else Some(sols[FirstExtreme(BestKeys(sols, o, minimize), o in minimize)])
  }

  /** What one weight adds to a score: minimised objectives count negatively. */
  ghost function Term(s: Solution, o: string, weight: real, minimize: seq<string>): real {
    var term := weight * Get(s.objectives, o, 0.0);
    if o in minimize then -term else term
  }

  /** The weighted sum over the first `k` weights. */
  ghost function WeightedScore(s: Solution, weights: Objectives, minimize: seq<string>, k: nat): real
    requires k <= |weights.order|
  {
    if k == 0 then 0.0
    else
      var o := weights.order[k - 1];
      WeightedScore(s, weights, minimize, k - 1) + Term(s, o, weights.at[o], minimize)
  }

  ghost function Score(s: Solution, weights: Objectives, minimize: seq<string>): real {
    WeightedScore(s, weights, minimize, |weights.order|)
  }

  /** Equal weights on the objectives of the first solution. */
  function EqualWeights(sols: seq<Solution>): Objectives
    requires sols != []
  {
    var d := sols[0].objectives;
    Dict(d.order, map o | o in d.at :: 1.0 / |d.order| as real)
  }

  /** The weights `get_compromise` works with. */
  function WeightsFor(sols: seq<Solution>, weights: Option<Objectives>): Objectives
    requires sols != []
  {
    if weights.Some? then weights.value else EqualWeights(sols)
  }

  ghost function ScoreKeys(sols: seq<Solution>, weights: Objectives, minimize: seq<string>): (k: seq<Ext>)
    ensures |k| == |sols| && forall i :: 0 <= i < |k| ==> k[i] == Fin(Score(sols[i], weights, minimize))
  {
    seq(|sols|, i requires 0 <= i < |sols| => Fin(Score(sols[i], weights, minimize)))
  }

  /** `get_compromise` on the listed solutions: the first with the largest weighted score. */
  ghost function CompromiseOf(sols: seq<Solution>, weights: Option<Objectives>,
        minimize: seq<string>): Option<Solution> {
    if sols == [] then None
    else Some(sols[FirstExtreme(ScoreKeys(sols, WeightsFor(sols, weights), minimize), false)])
  }

  class ParetoFrontier {
    const maxSize: int
    const minimize: seq<string>
    var solutions: seq<Solution>

    constructor (maxSize: int, minimize: seq<string>)
      ensures this.maxSize == maxSize && this.minimize == minimize
      ensures solutions == OfferAll([], minimize, maxSize)
    {
      this.maxSize := maxSize;
      this.minimize := minimize;
      this.solutions := [];
    }

    method Add(solution: Solution) returns (added: bool)
      modifies this
      ensures solutions == Offer(old(solutions), solution, minimize, maxSize)
      ensures added <==> !BeatenBy(old(solutions), solution, minimize)
    {
      hide Beats, Prune;
      for k := 0 to |solutions|
        invariant solutions == old(solutions)
        invariant forall j :: 0 <= j < k ==> !Beats(solutions[j].objectives, solution.objectives, minimize)
      {
        var dominated := solutions[k].Dominates(solution, minimize);
        if dominated {
          assert solutions[k] in solutions;
          return false;
        }
      }
      assert !BeatenBy(solutions, solution, minimize);
      hide BeatenBy, Unbeaten;
      solutions := KeepUnbeaten(solution);
      solutions := solutions + [solution];
      PruneFits(solutions, maxSize);
      if |solutions| > maxSize {
        PruneSolutions();
      }
      return true;
    }

    /** The list comprehension of `add`. */
    method KeepUnbeaten(solution: Solution) returns (kept: seq<Solution>)
      ensures kept == Unbeaten(solutions, solution, minimize)
    {
      hide Beats, Unbeaten;
      kept := [];
      NothingUnbeaten(solution, minimize);
      for k := 0 to |solutions|
        invariant kept == Unbeaten(solutions[..k], solution, minimize)
      {
        var dominated := solution.Dominates(solutions[k], minimize);
        UnbeatenSnoc(solutions[..k], solutions[k], solution, minimize);
        assert solutions[..k + 1] == solutions[..k] + [solutions[k]];
        if !dominated {
          kept := kept + [solutions[k]];
        }
      }
      assert solutions[..|solutions|] == solutions;
    }

    /** `_prune`. */
    method PruneSolutions()
      modifies this
      ensures solutions == Prune(old(solutions), maxSize)
    {
      hide SortedIndices, Crowded;
      if |solutions| <= maxSize {
        return;
      }
      var crowding := CalculateCrowdingDistances(solutions);
      var kept := Prefix(SortedIndices(crowding, true), maxSize);
      KeptInRange(solutions, maxSize);
      assert kept == KeptIndices(solutions, maxSize);
      solutions := Pick(solutions, kept);
    }

    /** `get_best`. */
    function GetBest(objective: string): Option<Solution>
      reads this
    {
      BestOf(solutions, objective, minimize)
    }

    /** `get_compromise`. */
    method GetCompromise(weights: Option<Objectives>) returns (r: Option<Solution>)
      ensures r == CompromiseOf(solutions, weights, minimize)
      ensures r.None? <==> solutions == []
      ensures solutions != [] ==>
        var w := WeightsFor(solutions, weights);
        exists i :: 0 <= i < |solutions| && r == Some(solutions[i])
          && (forall j :: 0 <= j < |solutions| ==> Score(solutions[j], w, minimize) <= Score(solutions[i], w, minimize))
          && (forall j :: 0 <= j < i ==> Score(solutions[j], w, minimize) < Score(solutions[i], w, minimize))
    {
      if solutions == [] {
        return None;
      }
      var w := WeightsFor(solutions, weights);
      var scores: seq<Ext> := [];
      for k := 0 to |solutions|
        invariant |scores| == k
        invariant forall j :: 0 <= j < k ==> scores[j] == Fin(Score(solutions[j], w, minimize))
      {
        var score := ComputeScore(solutions[k], w);
        scores := scores + [Fin(score)];
      }
      assert scores == ScoreKeys(solutions, w, minimize);
      r := Some(solutions[FirstExtreme(scores, false)]);
    }

    /** The nested function `weighted_score`. */
    method ComputeScore(solution: Solution, weights: Objectives) returns (score: real)
      ensures score == Score(solution, weights, minimize)
    {
      score := 0.0;
      for m := 0 to |weights.order|
        invariant score == WeightedScore(solution, weights, minimize, m)
      {
        var o := weights.order[m];
        var val := Get(solution.objectives, o, 0.0);
        if o in minimize {
          score := score - weights.at[o] * val;
        } else {
          score := score + weights.at[o] * val;
        }
      }
    }
  }

  // ----- what the queries answer ----------------------------------------

  /** `x` is strictly better than `y` on objective `o`; a solution that lacks it is worse than all
      that have it, and as bad as the others that lack it. */
  ghost predicate BetterOn(x: Solution, y: Solution, o: string, minimize: seq<string>) {
    && o in x.objectives.at
    && (o in y.objectives.at ==>
          if o in minimize then x.objectives.at[o] < y.objectives.at[o] else x.objectives.at[o] > y.objectives.at[o])
  }

  /** `get_best` answers with the first solution that none is better than. */
  lemma {:induction false} BestIsFirstBest(sols: seq<Solution>, o: string, minimize: seq<string>)
    ensures BestOf(sols, o, minimize).None? <==> sols == []
    ensures sols != [] ==> exists i ::
      && 0 <= i < |sols| && BestOf(sols, o, minimize) == Some(sols[i])
      && (forall j :: 0 <= j < |sols| ==> !BetterOn(sols[j], sols[i], o, minimize))
      && (forall j :: 0 <= j < i ==> BetterOn(sols[i], sols[j], o, minimize))
  {
    if sols != [] {
      var keys := BestKeys(sols, o, minimize);
      var i := FirstExtreme(keys, o in minimize);
      forall j | 0 <= j < |sols|
        ensures !BetterOn(sols[j], sols[i], o, minimize)
        ensures j < i ==> BetterOn(sols[i], sols[j], o, minimize)
      {
        assert keys[j] == BestKey(sols[j], o, minimize) && keys[i] == BestKey(sols[i], o, minimize);
      }
      hide FirstExtreme, BestKeys, BetterOn;
    }
  }

  /** The weighted values of a solution, minimised objectives with the opposite sign. */
  ghost function Weighted(s: Solution, weights: Objectives, minimize: seq<string>): (m: map<string, real>)
    ensures m.Keys == weights.at.Keys
  {
    map o | o in weights.at ::
      (if o in minimize then -1.0 else 1.0) * weights.at[o] *
      (if o in s.objectives.at then s.objectives.at[o] else 0.0)
  }

  lemma {:induction false} ScoreUpTo(s: Solution, weights: Objectives, minimize: seq<string>, k: nat)
    requires k <= |weights.order|
    ensures WeightedScore(s, weights, minimize, k) == Sum(weights.order[..k], Weighted(s, weights, minimize))
  {
    if k == 0 {
    } else {
      ScoreUpTo(s, weights, minimize, k - 1);
      var o, at := weights.order[k - 1], Weighted(s, weights, minimize);
      SignedTerm(s, o, weights.at[o], minimize);
      assert at[o] == Term(s, o, weights.at[o], minimize);
      hide Sum, Term, Weighted;
      assert weights.order[..k] == weights.order[..k - 1] + [o];
      SumConcat(weights.order[..k - 1], [o], at);
      SumOne(o, at);
    }
  }

  lemma {:induction false} SignedTerm(s: Solution, o: string, weight: real, minimize: seq<string>)
    ensures Term(s, o, weight, minimize) ==
      (if o in minimize then -1.0 else 1.0) * weight * (if o in s.objectives.at then s.objectives.at[o] else 0.0)
  {
  }

  /** The given weights; by default each objective of the first solution weighs the same, and together
      they weigh 1. */
  ghost predicate AreWeights(sols: seq<Solution>, given: Option<Objectives>, weights: Objectives)
    requires sols != []
  {
    if given.Some? then weights == given.value
    else
      && weights.order == sols[0].objectives.order
      && forall o :: o in weights.at ==> weights.at[o] * |weights.order| as real == 1.0
  }

  lemma {:induction false} WeightsAreRight(sols: seq<Solution>, given: Option<Objectives>)
    requires sols != []
    ensures AreWeights(sols, given, WeightsFor(sols, given))
  {
    var d := sols[0].objectives;
    forall o | o in d.at ensures 1.0 / |d.order| as real * |d.order| as real == 1.0 {
      assert o in d.order;
    }
  }

  /** `get_compromise` answers with the first solution whose weighted sum none exceeds. */
  lemma {:induction false} CompromiseIsFirstBest(sols: seq<Solution>, given: Option<Objectives>,
        minimize: seq<string>) returns (weights: Objectives, i: nat)
    requires sols != []
    ensures AreWeights(sols, given, weights) && i < |sols| && CompromiseOf(sols, given, minimize) == Some(sols[i])
    ensures forall j :: 0 <= j < |sols| ==>
      Sum(weights.order, Weighted(sols[j], weights, minimize)) <=
      Sum(weights.order, Weighted(sols[i], weights, minimize))
    ensures forall j :: 0 <= j < i ==>
      Sum(weights.order, Weighted(sols[j], weights, minimize)) <
      Sum(weights.order, Weighted(sols[i], weights, minimize))
  {
    weights := WeightsFor(sols, given);
    WeightsAreRight(sols, given);
    var keys := ScoreKeys(sols, weights, minimize);
    i := FirstExtreme(keys, false);
    assert weights.order[..|weights.order|] == weights.order;
    forall j | 0 <= j < |sols|
      ensures keys[j] == Fin(Sum(weights.order, Weighted(sols[j], weights, minimize)))
    {
      ScoreUpTo(sols[j], weights, minimize, |weights.order|);
    }
    hide Sum, Weighted, FirstExtreme, AreWeights, WeightsFor, Score;
  }

  // ----- what every archive keeps ---------------------------------------

  ghost predicate MutuallyUnbeaten(sols: seq<Solution>, minimize: seq<string>) {
    forall a, b :: a in sols && b in sols ==> !Beats(a.objectives, b.objectives, minimize)
  }

  lemma {:induction false} PruneMembers(sols: seq<Solution>, maxSize: int)
    ensures forall x :: x in Prune(sols, maxSize) ==> x in sols
    ensures |Prune(sols, maxSize)| <= Max(Max(0, maxSize), |sols| - 1)
    ensures maxSize < 0 ==> |Prune(sols, maxSize)| <= Max(0, |sols| + maxSize)
    ensures |sols| > maxSize >= 0 ==> |Prune(sols, maxSize)| == maxSize
  {
    KeptInRange(sols, maxSize);
  }

  /** For any objectives, shared or not: no member dominates another, the archive never exceeds
      its size, and it holds only solutions that were offered. */
  lemma {:induction false} ArchiveInvariant(added: seq<Solution>, minimize: seq<string>, maxSize: int)
    ensures MutuallyUnbeaten(OfferAll(added, minimize, maxSize), minimize)
    ensures |OfferAll(added, minimize, maxSize)| <= Max(0, maxSize)
    ensures forall x :: x in OfferAll(added, minimize, maxSize) ==> x in added
  {
    if added == [] {
    } else {
      var n := |added| - 1;
      ArchiveInvariant(added[..n], minimize, maxSize);
      OfferInvariant(OfferAll(added[..n], minimize, maxSize), added[n], minimize, maxSize);
    }
  }

  lemma {:induction false} GrownUnbeaten(before: seq<Solution>, s: Solution, minimize: seq<string>)
    requires MutuallyUnbeaten(before, minimize) && !BeatenBy(before, s, minimize)
    ensures MutuallyUnbeaten(Unbeaten(before, s, minimize) + [s], minimize)
  {
    BeatsIrreflexive(s.objectives, minimize);
    hide Beats;
  }

  lemma {:induction false} OfferInvariant(before: seq<Solution>, s: Solution, minimize: seq<string>, maxSize: int)
    requires MutuallyUnbeaten(before, minimize) && |before| <= Max(0, maxSize)
    ensures var after := Offer(before, s, minimize, maxSize);
      && MutuallyUnbeaten(after, minimize) && |after| <= Max(0, maxSize)
      && forall x :: x in after ==> x in before || x == s
  {
    var grown := Unbeaten(before, s, minimize) + [s];
    if !BeatenBy(before, s, minimize) {
      GrownUnbeaten(before, s, minimize);
    }
    UnbeatenShrinks(before, s, minimize);
    PruneMembers(grown, maxSize);
    hide Prune, Unbeaten, Beats;
  }

  lemma {:induction false} UnbeatenShrinks(sols: seq<Solution>, s: Solution, minimize: seq<string>)
    ensures |Unbeaten(sols, s, minimize)| <= |sols|
  {
    if sols == [] {
    } else {
      UnbeatenShrinks(sols[..|sols| - 1], s, minimize);
    }
  }
}
