/** The archive and the frontier of maximal solutions (src/gepa/pareto.py:68-87, 163-193). */
module Frontiers {
  import opened Prelude
  import opened Ranking
  import opened Dominance
  import opened Crowding
  import opened ParetoArchive

  /** The members of `candidates` that nothing in `all` dominates, in order. */
  ghost function Maximal(candidates: seq<Solution>, all: seq<Solution>, minimize: seq<string>): (r: seq<Solution>)
    ensures forall x :: x in r <==> x in candidates && !BeatenBy(all, x, minimize)
  {
    if candidates == [] then []
    else
      var n := |candidates| - 1;
      Maximal(candidates[..n], all, minimize) +
        (if BeatenBy(all, candidates[n], minimize) then [] else [candidates[n]])
  }

  ghost function Frontier(all: seq<Solution>, minimize: seq<string>): seq<Solution> {
    Maximal(all, all, minimize)
  }

  lemma {:induction false} UnbeatenConcat(front: seq<Solution>, tail: seq<Solution>, s: Solution, minimize: seq<string>)
    requires |tail| <= 1
    ensures Unbeaten(front + tail, s, minimize) == Unbeaten(front, s, minimize) + Unbeaten(tail, s, minimize)
  {
    hide Beats;
    assert Unbeaten([], s, minimize) == [];
    if tail == [] {
      assert front + tail == front;
    } else {
      assert (front + tail)[..|front|] == front && tail[..0] == [];
    }
  }

  /** One more dominator only filters further. */
  lemma {:induction false} MaximalWithOneMore(candidates: seq<Solution>, all: seq<Solution>, s: Solution,
        minimize: seq<string>)
    ensures Maximal(candidates, all + [s], minimize) == Unbeaten(Maximal(candidates, all, minimize), s, minimize)
  {
    hide Beats;
    if candidates == [] {
    } else {
      var n := |candidates| - 1;
      var x := candidates[n];
      MaximalWithOneMore(candidates[..n], all, s, minimize);
      assert BeatenBy(all + [s], x, minimize) <==>
        BeatenBy(all, x, minimize) || Beats(s.objectives, x.objectives, minimize) by {
        assert s in all + [s] && forall e :: e in all ==> e in all + [s];
      }
      var tail := if BeatenBy(all, x, minimize) then [] else [x];
      UnbeatenConcat(Maximal(candidates[..n], all, minimize), tail, s, minimize);
    }
  }

  /** Every objective set of `sols` is one of `kinds`. */
  ghost predicate AllOfKinds(sols: seq<Solution>, kinds: set<set<string>>) {
    forall s :: s in sols ==> s.objectives.at.Keys in kinds
  }

  /** Every solution is on the frontier or dominated by a member of it. */
  ghost predicate Covers(front: seq<Solution>, all: seq<Solution>, minimize: seq<string>) {
    forall s :: s in all ==> s in front || BeatenBy(front, s, minimize)
  }

  /** The frontier of one more solution is what `Offer` computes before any pruning. */
  lemma {:induction false} FrontierStep(all: seq<Solution>, s: Solution, kinds: set<set<string>>, minimize: seq<string>)
    requires AllOfKinds(all + [s], kinds) && TransitiveKinds(kinds)
    requires Covers(Frontier(all, minimize), all, minimize)
    ensures Frontier(all + [s], minimize) ==
      if BeatenBy(Frontier(all, minimize), s, minimize) then Frontier(all, minimize)
      else Unbeaten(Frontier(all, minimize), s, minimize) + [s]
  {
    hide Beats, TransitiveOn;
    var front := Frontier(all, minimize);
    assert s in all + [s] && forall e :: e in all ==> e in all + [s];
    assert (all + [s])[..|all|] == all;
    MaximalWithOneMore(all, all, s, minimize);
    BeatsIrreflexive(s.objectives, minimize);
    if BeatenBy(front, s, minimize) {
      var e :| e in front && Beats(e.objectives, s.objectives, minimize);
      assert e in all + [s] && BeatenBy(all + [s], s, minimize);
      forall x | x in front ensures !Beats(s.objectives, x.objectives, minimize) {
        if Beats(s.objectives, x.objectives, minimize) {
          BeatsTransitive(e.objectives, s.objectives, x.objectives, minimize);
        }
      }
      NothingToFilter(front, s, minimize);
    } else {
      forall e | e in all ensures !Beats(e.objectives, s.objectives, minimize) {
        if Beats(e.objectives, s.objectives, minimize) && e !in front {
          var f :| f in front && Beats(f.objectives, e.objectives, minimize);
          BeatsTransitive(f.objectives, e.objectives, s.objectives, minimize);
        }
      }
      assert !BeatenBy(all + [s], s, minimize);
    }
  }

  lemma {:induction false} CoversStep(front: seq<Solution>, all: seq<Solution>, s: Solution, kinds: set<set<string>>,
        minimize: seq<string>)
    requires AllOfKinds(all + [s], kinds) && TransitiveKinds(kinds)
    requires Covers(front, all, minimize) && forall x :: x in front ==> x in all
    ensures var next := if BeatenBy(front, s, minimize) then front else Unbeaten(front, s, minimize) + [s];
      Covers(next, all + [s], minimize)
  {
    assert s in all + [s] && forall e :: e in all ==> e in all + [s];
    if !BeatenBy(front, s, minimize) {
      var grown := Unbeaten(front, s, minimize) + [s];
      assert s in grown;
      forall a | a in all && a !in grown ensures BeatenBy(grown, a, minimize) {
        if a !in front {
          var f :| f in front && Beats(f.objectives, a.objectives, minimize);
          if f !in grown {
            BeatsTransitive(s.objectives, f.objectives, a.objectives, minimize);
          }
        }
      }
    }
  }

  /** Where dominance is transitive every discarded solution is dominated by a survivor. */
  lemma {:induction false} FrontierCovers(all: seq<Solution>, kinds: set<set<string>>, minimize: seq<string>)
    requires AllOfKinds(all, kinds) && TransitiveKinds(kinds)
    ensures Covers(Frontier(all, minimize), all, minimize)
    ensures all != [] ==> Frontier(all, minimize) != []
  {
    if all == [] {
    } else {
      var n := |all| - 1;
      assert all == all[..n] + [all[n]];
      FrontierCovers(all[..n], kinds, minimize);
      FrontierStep(all[..n], all[n], kinds, minimize);
      CoversStep(Frontier(all[..n], minimize), all[..n], all[n], kinds, minimize);
      assert all[n] in all;
    }
  }

  /** No frontier along the way exceeds the size limit. */
  ghost predicate NeverFull(added: seq<Solution>, minimize: seq<string>, maxSize: int) {
    && |Frontier(added, minimize)| <= maxSize
    && (added != [] ==> NeverFull(added[..|added| - 1], minimize, maxSize))
  }

  /** While the size limit is not reached, the archive is exactly the frontier of everything
      offered so far, in the order of arrival. */
  lemma {:induction false} ArchiveIsFrontier(added: seq<Solution>, kinds: set<set<string>>, minimize: seq<string>,
        maxSize: int)
    requires AllOfKinds(added, kinds) && TransitiveKinds(kinds)
    requires NeverFull(added, minimize, maxSize)
    ensures OfferAll(added, minimize, maxSize) == Frontier(added, minimize)
  {
    if added == [] {
    } else {
      var n := |added| - 1;
      assert added == added[..n] + [added[n]];
      ArchiveIsFrontier(added[..n], kinds, minimize, maxSize);
      FrontierCovers(added[..n], kinds, minimize);
      FrontierStep(added[..n], added[n], kinds, minimize);
      hide Frontier, BeatenBy, Unbeaten, AllOfKinds;
    }
  }

  lemma {:induction false} MaximalConcat(a: seq<Solution>, b: seq<Solution>, all: seq<Solution>, minimize: seq<string>)
    ensures Maximal(a + b, all, minimize) == Maximal(a, all, minimize) + Maximal(b, all, minimize)
  {
    hide Beats;
    if b == [] {
      assert a + b == a && Maximal(b, all, minimize) == [];
    } else {
      var n := |b| - 1;
      assert (a + b)[..|a + b| - 1] == a + b[..n];
      MaximalConcat(a, b[..n], all, minimize);
    }
  }

  lemma {:induction false} MaximalDependsOnBeaten(candidates: seq<Solution>, all: seq<Solution>, other: seq<Solution>,
        minimize: seq<string>)
    requires forall k :: 0 <= k < |candidates| ==>
      (BeatenBy(all, candidates[k], minimize) <==> BeatenBy(other, candidates[k], minimize))
    ensures Maximal(candidates, all, minimize) == Maximal(candidates, other, minimize)
  {
    hide BeatenBy;
    if candidates == [] {
    } else {
      var n := |candidates| - 1;
      MaximalDependsOnBeaten(candidates[..n], all, other, minimize);
    }
  }

  /** Filtering first by fewer dominators changes nothing. */
  lemma {:induction false} MaximalOfMaximal(candidates: seq<Solution>, some: seq<Solution>, all: seq<Solution>,
        minimize: seq<string>)
    requires forall x :: BeatenBy(some, x, minimize) ==> BeatenBy(all, x, minimize)
    ensures Maximal(Maximal(candidates, some, minimize), all, minimize) == Maximal(candidates, all, minimize)
  {
    hide BeatenBy;
    if candidates == [] {
    } else {
      var n := |candidates| - 1;
      MaximalOfMaximal(candidates[..n], some, all, minimize);
      var tail := if BeatenBy(some, candidates[n], minimize) then [] else [candidates[n]];
      MaximalConcat(Maximal(candidates[..n], some, minimize), tail, all, minimize);
      assert Maximal([], all, minimize) == [];
      assert [candidates[n]][..0] == [];
    }
  }

  /** Only the frontier of the past matters for what comes next. */
  lemma {:induction false} FrontierOfFrontier(past: seq<Solution>, more: seq<Solution>, kinds: set<set<string>>,
        minimize: seq<string>)
    requires AllOfKinds(past + more, kinds) && TransitiveKinds(kinds)
    ensures Frontier(Frontier(past, minimize) + more, minimize) == Frontier(past + more, minimize)
  {
    hide Beats;
    var front, all := Frontier(past, minimize), past + more;
    assert forall x :: x in past ==> x in all;
    FrontierCovers(past, kinds, minimize);
    forall x | x in all ensures BeatenBy(all, x, minimize) <==> BeatenBy(front + more, x, minimize) {
      if BeatenBy(all, x, minimize) {
        var e :| e in all && Beats(e.objectives, x.objectives, minimize);
        if e in more || e in front {
          assert e in front + more;
        } else {
          var f :| f in front && Beats(f.objectives, e.objectives, minimize);
          assert f in front + more && f in all;
          BeatsTransitive(f.objectives, e.objectives, x.objectives, minimize);
        }
      }
      if BeatenBy(front + more, x, minimize) {
        var e :| e in front + more && Beats(e.objectives, x.objectives, minimize);
        assert e in all;
      }
    }
    MaximalDependsOnBeaten(front + more, front + more, all, minimize);
    MaximalConcat(front, more, all, minimize);
    MaximalConcat(past, more, all, minimize);
    MaximalOfMaximal(past, past, all, minimize);
  }

  // ----- exactly when ----------------------------------------------------

  lemma {:induction false} MaximalShrinks(candidates: seq<Solution>, all: seq<Solution>, minimize: seq<string>)
    ensures |Maximal(candidates, all, minimize)| <= |candidates|
  {
    if candidates == [] {
    } else {
      MaximalShrinks(candidates[..|candidates| - 1], all, minimize);
    }
  }

  lemma {:induction false} ShortIsNeverFull(added: seq<Solution>, minimize: seq<string>, maxSize: int)
    requires |added| <= maxSize
    ensures NeverFull(added, minimize, maxSize)
  {
    MaximalShrinks(added, added, minimize);
    if added == [] {
    } else {
      ShortIsNeverFull(added[..|added| - 1], minimize, maxSize);
    }
  }

  lemma {:induction false} OfferFirst(a: Solution, minimize: seq<string>, maxSize: int)
    requires maxSize >= 1
    ensures OfferAll([a], minimize, maxSize) == [a]
  {
    assert [a][..0] == [] && [] + [a] == [a];
    NothingUnbeaten(a, minimize);
    PruneFits([a], maxSize);
    hide Prune, Unbeaten, Beats;
  }

  lemma {:induction false} OfferNext(front: seq<Solution>, past: seq<Solution>, s: Solution, minimize: seq<string>,
        maxSize: int)
    requires OfferAll(past, minimize, maxSize) == front && |front| < maxSize
    ensures OfferAll(past + [s], minimize, maxSize) ==
      if BeatenBy(front, s, minimize) then front else Unbeaten(front, s, minimize) + [s]
  {
    assert (past + [s])[..|past|] == past;
    UnbeatenShrinks(front, s, minimize);
    PruneFits(Unbeaten(front, s, minimize) + [s], maxSize);
    hide Prune, Unbeaten, BeatenBy;
  }

  /** Where dominance is not transitive, a solution can be dominated only by solutions that are
      dominated themselves: no survivor covers it, and the archive, which forgot its dominators,
      keeps it. */
  lemma {:induction false} NotCovered(a: Solution, b: Solution, c: Solution, minimize: seq<string>)
    requires Beats(a.objectives, b.objectives, minimize) && Beats(b.objectives, c.objectives, minimize)
    requires !Beats(a.objectives, c.objectives, minimize)
    ensures !Covers(Frontier([a, b, c], minimize), [a, b, c], minimize)
    ensures OfferAll([a, b, c], minimize, 3) != Frontier([a, b, c], minimize)
  {
    var all, front := [a, b, c], Frontier([a, b, c], minimize);
    BeatsIrreflexive(c.objectives, minimize);
    hide Beats;
    assert a in all && b in all && c in all;
    assert c !in front && b !in front;
    assert !BeatenBy(front, c, minimize);
    OfferFirst(a, minimize, 3);
    OfferNext([a], [a], b, minimize, 3);
    assert BeatenBy([a], b, minimize) by { assert a in [a]; }
    assert [a] + [b] == [a, b] && [a, b] + [c] == all;
    OfferNext([a], [a, b], c, minimize, 3);
    assert !BeatenBy([a], c, minimize);
    assert c in OfferAll(all, minimize, 3);
  }

  /** Every discarded solution is dominated by a survivor, for every population over these
      objective sets, exactly when dominance between them is transitive. */
  lemma {:induction false} FrontierCoversIff(kinds: set<set<string>>, minimize: seq<string>)
    ensures TransitiveKinds(kinds) <==>
      forall all :: AllOfKinds(all, kinds) ==> Covers(Frontier(all, minimize), all, minimize)
  {
    hide Covers, Frontier;
    if TransitiveKinds(kinds) {
      forall all | AllOfKinds(all, kinds) ensures Covers(Frontier(all, minimize), all, minimize) {
        FrontierCovers(all, kinds, minimize);
      }
    } else {
      var all := Uncovered(kinds, minimize);
    }
  }

  /** The archive is the frontier of everything offered, for every run over these objective sets
      that never fills it, exactly under the same condition. */
  lemma {:induction false} ArchiveIsFrontierIff(kinds: set<set<string>>, minimize: seq<string>)
    ensures TransitiveKinds(kinds) <==>
      forall added, maxSize :: AllOfKinds(added, kinds) && NeverFull(added, minimize, maxSize)
        ==> OfferAll(added, minimize, maxSize) == Frontier(added, minimize)
  {
    hide NeverFull, OfferAll, Frontier;
    if TransitiveKinds(kinds) {
      forall added, maxSize | AllOfKinds(added, kinds) && NeverFull(added, minimize, maxSize)
        ensures OfferAll(added, minimize, maxSize) == Frontier(added, minimize)
      {
        ArchiveIsFrontier(added, kinds, minimize, maxSize);
      }
    } else {
      var added := Uncovered(kinds, minimize);
      ShortIsNeverFull(added, minimize, 3);
    }
  }

  /** What was forgotten with the past can be missing later. */
  lemma {:induction false} PastIsForgotten(a: Solution, b: Solution, c: Solution, minimize: seq<string>)
    requires Beats(a.objectives, b.objectives, minimize) && Beats(b.objectives, c.objectives, minimize)
    requires !Beats(a.objectives, c.objectives, minimize)
    ensures c in Frontier(Frontier([a, b], minimize) + [c], minimize) && c !in Frontier([a, b] + [c], minimize)
  {
    var front, later, all := Frontier([a, b], minimize), Frontier([a, b], minimize) + [c], [a, b] + [c];
    BeatsIrreflexive(c.objectives, minimize);
    hide Beats;
    assert a in [a, b] && b in [a, b] && b in all && c in later;
    assert BeatenBy([a, b], b, minimize) && BeatenBy(all, c, minimize);
    assert forall x :: x in later ==> x == a || x == c;
    assert !BeatenBy(later, c, minimize);
  }

  /** Only the frontier of the past matters for what comes next, for every population over these
      objective sets, exactly under the same condition. */
  lemma {:induction false} FrontierOfFrontierIff(kinds: set<set<string>>, minimize: seq<string>)
    ensures TransitiveKinds(kinds) <==>
      forall past, more :: AllOfKinds(past + more, kinds)
        ==> Frontier(Frontier(past, minimize) + more, minimize) == Frontier(past + more, minimize)
  {
    hide Frontier;
    if TransitiveKinds(kinds) {
      forall past, more | AllOfKinds(past + more, kinds)
        ensures Frontier(Frontier(past, minimize) + more, minimize) == Frontier(past + more, minimize)
      {
        FrontierOfFrontier(past, more, kinds, minimize);
      }
    } else {
      var s, t, u :| s in kinds && t in kinds && u in kinds && !TransitiveOn(s, t, u);
      var x, y, z := NotTransitive(s, t, u, minimize);
      hide TransitiveOn, Beats;
      var a, b, c := Solution("a", x, ""), Solution("b", y, ""), Solution("c", z, "");
      PastIsForgotten(a, b, c, minimize);
      assert AllOfKinds([a, b] + [c], kinds);
    }
  }

  lemma {:induction false} Uncovered(kinds: set<set<string>>, minimize: seq<string>) returns (all: seq<Solution>)
    requires !TransitiveKinds(kinds)
    ensures |all| == 3 && AllOfKinds(all, kinds)
    ensures !Covers(Frontier(all, minimize), all, minimize)
    ensures OfferAll(all, minimize, 3) != Frontier(all, minimize)
  {
    var s, t, u :| s in kinds && t in kinds && u in kinds && !TransitiveOn(s, t, u);
    var a, b, c := NotTransitive(s, t, u, minimize);
    hide TransitiveOn, Beats, Covers, Frontier;
    NotCovered(Solution("a", a, ""), Solution("b", b, ""), Solution("c", c, ""), minimize);
    all := [Solution("a", a, ""), Solution("b", b, ""), Solution("c", c, "")];
  }

  // ----- weighted scores -------------------------------------------------

  lemma {:induction false} Scale(w: real, x: real, y: real)
    requires w >= 0.0 && x <= y
    ensures w * x <= w * y
  {
  }

  lemma {:induction false} TermMonotone(a: Solution, b: Solution, o: string, weight: real, minimize: seq<string>)
    requires a.objectives.at.Keys == b.objectives.at.Keys && Beats(a.objectives, b.objectives, minimize)
    requires weight >= 0.0
    ensures Term(a, o, weight, minimize) >= Term(b, o, weight, minimize)
  {
    var x, y := Get(a.objectives, o, 0.0), Get(b.objectives, o, 0.0);
    if o in a.objectives.at {
      assert o in b.objectives.at.Keys && !Worse(minimize, o, x, y);
    } else {
      assert o !in b.objectives.at.Keys;
    }
    if o in minimize {
      Scale(weight, x, y);
    } else {
      Scale(weight, y, x);
    }
  }

  lemma {:induction false} ScoreMonotone(a: Solution, b: Solution, weights: Objectives, minimize: seq<string>, k: nat)
    requires k <= |weights.order| && Nonnegative(weights)
    requires a.objectives.at.Keys == b.objectives.at.Keys
    requires Beats(a.objectives, b.objectives, minimize)
    ensures WeightedScore(a, weights, minimize, k) >= WeightedScore(b, weights, minimize, k)
  {
    hide Term, Beats;
    if k == 0 {
    } else {
      ScoreMonotone(a, b, weights, minimize, k - 1);
      TermMonotone(a, b, weights.order[k - 1], weights.at[weights.order[k - 1]], minimize);
    }
  }

  ghost predicate Nonnegative(weights: Objectives) {
    forall o :: o in weights.at ==> weights.at[o] >= 0.0
  }

  lemma {:induction false} DefaultsNonnegative(sols: seq<Solution>)
    requires sols != []
    ensures Nonnegative(EqualWeights(sols))
  {
    var d := sols[0].objectives;
    forall o | o in d.at ensures 1.0 / |d.order| as real >= 0.0 {
      assert o in d.order && |d.order| > 0;
    }
  }

  /** What `get_compromise` picks from `front` was offered, and nothing offered has a larger
      weighted score. */
  ghost predicate CompromiseIsBest(front: seq<Solution>, added: seq<Solution>, weights: Option<Objectives>,
        minimize: seq<string>) {
    var best := CompromiseOf(front, weights, minimize);
    && front != [] && best.Some? && best.value in added
    && forall s :: s in added ==>
      Score(s, WeightsFor(front, weights), minimize) <= Score(best.value, WeightsFor(front, weights), minimize)
  }

  lemma {:induction false} CompromiseBeatsAll(front: seq<Solution>, weights: Option<Objectives>, minimize: seq<string>)
    requires front != []
    ensures var best := CompromiseOf(front, weights, minimize);
      && best.Some? && best.value in front
      && forall f :: f in front ==>
        Score(f, WeightsFor(front, weights), minimize) <= Score(best.value, WeightsFor(front, weights), minimize)
  {
    var keys := ScoreKeys(front, WeightsFor(front, weights), minimize);
    var r := FirstExtreme(keys, false);
    assert front[r] in front;
    forall f | f in front
      ensures Score(f, WeightsFor(front, weights), minimize) <= Score(front[r], WeightsFor(front, weights), minimize)
    {
      var i :| 0 <= i < |front| && front[i] == f;
      assert !keys[r].Less(keys[i]);
    }
  }

  /** For nonnegative weights, given or by default, as long as nothing was pruned and solutions are
      comparable on all objectives or on none, `get_compromise` finds the best score of everything
      ever offered. */
  lemma {:induction false} Scalarisation(added: seq<Solution>, kinds: set<set<string>>, weights: Option<Objectives>,
        minimize: seq<string>, maxSize: int)
    requires AllOfKinds(added, kinds) && EqualOrDisjoint(kinds) && added != []
    requires NeverFull(added, minimize, maxSize)
    requires weights.Some? ==> Nonnegative(weights.value)
    ensures CompromiseIsBest(OfferAll(added, minimize, maxSize), added, weights, minimize)
  {
    EqualOrDisjointIsTransitive(kinds);
    var front := OfferAll(added, minimize, maxSize);
    ArchiveIsFrontier(added, kinds, minimize, maxSize);
    FrontierCovers(added, kinds, minimize);
    CompromiseBeatsAll(front, weights, minimize);
    DefaultsNonnegative(front);
    var w, best := WeightsFor(front, weights), CompromiseOf(front, weights, minimize).value;
    hide Score, CompromiseOf, WeightsFor, OfferAll, NeverFull, Beats;
    forall s | s in added ensures Score(s, w, minimize) <= Score(best, w, minimize) {
      if s !in front {
        var f :| f in front && Beats(f.objectives, s.objectives, minimize);
        ScoreRaised(f, s, kinds, w, minimize);
      }
    }
  }

  lemma {:induction false} ScoreRaised(f: Solution, s: Solution, kinds: set<set<string>>, w: Objectives,
        minimize: seq<string>)
    requires EqualOrDisjoint(kinds) && f.objectives.at.Keys in kinds && s.objectives.at.Keys in kinds
    requires Nonnegative(w) && Beats(f.objectives, s.objectives, minimize)
    ensures Score(f, w, minimize) >= Score(s, w, minimize)
  {
    BeatsComparable(f.objectives, s.objectives, minimize);
    ScoreMonotone(f, s, w, minimize, |w.order|);
  }

  /** A weight on an objective that only the defeated solution has. */
  lemma {:induction false} CompromiseMisses(s: set<string>, t: set<string>, o: string, minimize: seq<string>)
    returns (added: seq<Solution>, weights: Objectives)
    requires s * t != {} && o in s && o !in t
    ensures |added| == 2 && AllOfKinds(added, {s, t}) && Nonnegative(weights)
    ensures !CompromiseIsBest(OfferAll(added, minimize, 2), added, Some(weights), minimize)
  {
    var a, b := OverlapDefeats(s, t, o, 1.0, minimize);
    var first, second := Solution("a", a, ""), Solution("b", b, "");
    added, weights := [first, second], Dict([o], map[o := 1.0]);
    SecondReplacesFirst(first, second, minimize);
    assert o in a.at.Keys && o !in b.at.Keys;
    LoneWeight(first, o, minimize);
    LoneWeight(second, o, minimize);
    CompromiseBeatsAll([second], Some(weights), minimize);
    assert first in added;
    hide Score, CompromiseOf, OfferAll, Beats;
  }

  lemma {:induction false} LoneWeight(s: Solution, o: string, minimize: seq<string>)
    ensures Score(s, Dict([o], map[o := 1.0]), minimize) == Signed(minimize, o, Get(s.objectives, o, 0.0))
  {
    var weights: Objectives := Dict([o], map[o := 1.0]);
    assert WeightedScore(s, weights, minimize, 0) == 0.0 && weights.order[0] == o;
    assert WeightedScore(s, weights, minimize, 1) == Term(s, o, 1.0, minimize);
  }

  lemma {:induction false} SecondReplacesFirst(a: Solution, b: Solution, minimize: seq<string>)
    requires Beats(b.objectives, a.objectives, minimize)
    ensures OfferAll([a, b], minimize, 2) == [b]
  {
    BeatsAsymmetric(b.objectives, a.objectives, minimize);
    hide Beats, OfferAll, Unbeaten;
    assert !BeatenBy([a], b, minimize);
    OfferFirst(a, minimize, 2);
    OfferNext([a], [a], b, minimize, 2);
    NothingUnbeaten(b, minimize);
    UnbeatenSnoc([], a, b, minimize);
    hide BeatenBy;
    assert [a] + [b] == [a, b] && [] + [a] == [a] && [] + [b] == [b];
  }

  lemma {:induction false} TermOf(s: Solution, o: string, w: real, merit: real, minimize: seq<string>)
    requires o in s.objectives.at && s.objectives.at[o] == Signed(minimize, o, merit)
    ensures Term(s, o, w, minimize) == merit * w
  {
  }

  /** With equal weights, a solution that is good on `p`, bad on `o` and neutral elsewhere. */
  lemma {:induction false} TwoTerms(s: Solution, weights: Objectives, w: real, o: string, p: string,
        minimize: seq<string>, k: nat)
    requires k <= |weights.order| && s.objectives.at.Keys == weights.at.Keys && o != p
    requires forall x :: x in weights.at ==>
      && weights.at[x] == w
      && s.objectives.at[x] == Signed(minimize, x, if x == o then -2.0 else if x == p then 1.0 else 0.0)
    ensures WeightedScore(s, weights, minimize, k) ==
      (if p in weights.order[..k] then w else 0.0) - (if o in weights.order[..k] then 2.0 * w else 0.0)
  {
    if k == 0 {
    } else {
      var x := weights.order[k - 1];
      TwoTerms(s, weights, w, o, p, minimize, k - 1);
      assert weights.order[..k] == weights.order[..k - 1] + [x];
      assert x in weights.at && x in s.objectives.at.Keys;
      TermOf(s, x, w, if x == o then -2.0 else if x == p then 1.0 else 0.0, minimize);
      OnlyOnce(weights, k);
      hide Term, Signed;
      assert WeightedScore(s, weights, minimize, k) ==
        WeightedScore(s, weights, minimize, k - 1) + Term(s, x, w, minimize);
      hide WeightedScore;
    }
  }

  lemma {:induction false} OnlyOnce(weights: Objectives, k: nat)
    requires 1 <= k <= |weights.order|
    ensures weights.order[k - 1] !in weights.order[..k - 1]
  {
  }

  lemma {:induction false} NoTerms(s: Solution, weights: Objectives, minimize: seq<string>, k: nat)
    requires k <= |weights.order| && forall x :: x in s.objectives.at ==> s.objectives.at[x] == 0.0
    ensures WeightedScore(s, weights, minimize, k) == 0.0
  {
    if k == 0 {
    } else {
      NoTerms(s, weights, minimize, k - 1);
      var x := weights.order[k - 1];
      assert Get(s.objectives, x, 0.0) == 0.0;
      assert Term(s, x, weights.at[x], minimize) == 0.0;
      hide Term;
    }
  }

  /** A dominating solution that is bad on an objective of its own, on which the default weights then
      depend. */
  lemma {:induction false} BadWinner(s: set<string>, t: set<string>, o: string, p: string, minimize: seq<string>)
    returns (a: Objectives, b: Objectives)
    requires p in s && p in t && o in s && o !in t
    ensures a.at.Keys == t && (forall x :: x in t ==> a.at[x] == 0.0)
    ensures b.at.Keys == s
    ensures forall x :: x in s ==> b.at[x] == Signed(minimize, x, if x == o then -2.0 else if x == p then 1.0 else 0.0)
    ensures Beats(b, a, minimize)
  {
    var first: string -> real := x => if x == o then -2.0 else if x == p then 1.0 else 0.0;
    var second: string -> real := _ => 0.0;
    a, b := Scored(t, second, minimize), Scored(s, first, minimize);
    assert p in s * t && first(p) > second(p);
    ScoredBeats(s, first, t, second, minimize);
    hide Beats;
  }

  lemma {:induction false} DefaultMisses(s: set<string>, t: set<string>, o: string, minimize: seq<string>)
    returns (added: seq<Solution>)
    requires s * t != {} && o in s && o !in t
    ensures |added| == 2 && AllOfKinds(added, {s, t})
    ensures !CompromiseIsBest(OfferAll(added, minimize, 2), added, None, minimize)
  {
    var p :| p in s * t;
    var a, b := BadWinner(s, t, o, p, minimize);
    var first, second := Solution("a", a, ""), Solution("b", b, "");
    added := [first, second];
    SecondReplacesFirst(first, second, minimize);
    hide Beats, OfferAll;
    CompromiseBeatsAll([second], None, minimize);
    LoserScoresMore(first, second, o, p, minimize);
    assert first in added;
    hide Score, CompromiseOf, WeightsFor;
  }

  lemma {:induction false} LoserScoresMore(a: Solution, b: Solution, o: string, p: string, minimize: seq<string>)
    requires forall x :: x in a.objectives.at ==> a.objectives.at[x] == 0.0
    requires o in b.objectives.at && p in b.objectives.at && o != p
    requires forall x :: x in b.objectives.at ==>
      b.objectives.at[x] == Signed(minimize, x, if x == o then -2.0 else if x == p then 1.0 else 0.0)
    ensures Score(a, WeightsFor([b], None), minimize) > Score(b, WeightsFor([b], None), minimize)
  {
    var weights, n := WeightsFor([b], None), |b.objectives.order|;
    var w := AllWeigh([b], o);
    hide WeightsFor, WeightedScore, Signed;
    assert o in weights.at.Keys && p in weights.at.Keys;
    TwoTerms(b, weights, w, o, p, minimize, n);
    NoTerms(a, weights, minimize, n);
    assert weights.order[..n] == weights.order;
  }

  lemma {:induction false} AllWeigh(sols: seq<Solution>, o: string) returns (w: real)
    requires sols != [] && o in sols[0].objectives.at
    ensures var weights, d := WeightsFor(sols, None), sols[0].objectives;
      && weights.order == d.order && weights.at.Keys == d.at.Keys
      && w > 0.0 && forall x :: x in weights.at ==> weights.at[x] == w
  {
    var d := sols[0].objectives;
    assert o in d.order && |d.order| > 0;
    w := 1.0 / |d.order| as real;
  }

  /** With default weights, exactly under the same condition. */
  lemma {:induction false} DefaultScalarisationIff(kinds: set<set<string>>, minimize: seq<string>)
    ensures EqualOrDisjoint(kinds) <==>
      forall added, maxSize :: AllOfKinds(added, kinds) && added != [] && NeverFull(added, minimize, maxSize)
        ==> CompromiseIsBest(OfferAll(added, minimize, maxSize), added, None, minimize)
  {
    hide CompromiseIsBest, OfferAll, NeverFull;
    if EqualOrDisjoint(kinds) {
      forall added, maxSize | AllOfKinds(added, kinds) && added != [] && NeverFull(added, minimize, maxSize)
        ensures CompromiseIsBest(OfferAll(added, minimize, maxSize), added, None, minimize)
      {
        Scalarisation(added, kinds, None, minimize, maxSize);
      }
    } else {
      var s, t, o := Overlap(kinds);
      var added := DefaultMisses(s, t, o, minimize);
      assert forall x :: x in {s, t} ==> x in kinds;
      ShortIsNeverFull(added, minimize, 2);
    }
  }

  /** For all nonnegative weights and every run over these objective sets that never fills the
      archive, exactly when no two of the sets overlap without being equal. */
  lemma {:induction false} ScalarisationIff(kinds: set<set<string>>, minimize: seq<string>)
    ensures EqualOrDisjoint(kinds) <==>
      forall added, weights: Objectives, maxSize ::
        AllOfKinds(added, kinds) && added != [] && NeverFull(added, minimize, maxSize) && Nonnegative(weights)
        ==> CompromiseIsBest(OfferAll(added, minimize, maxSize), added, Some(weights), minimize)
  {
    hide CompromiseIsBest, OfferAll, NeverFull, Nonnegative;
    if EqualOrDisjoint(kinds) {
      forall added, weights: Objectives, maxSize
        | AllOfKinds(added, kinds) && added != [] && NeverFull(added, minimize, maxSize) && Nonnegative(weights)
        ensures CompromiseIsBest(OfferAll(added, minimize, maxSize), added, Some(weights), minimize)
      {
        Scalarisation(added, kinds, Some(weights), minimize, maxSize);
      }
    } else {
      var s, t, o := Overlap(kinds);
      var added, weights := CompromiseMisses(s, t, o, minimize);
      assert forall x :: x in {s, t} ==> x in kinds;
      ShortIsNeverFull(added, minimize, 2);
    }
  }
}
