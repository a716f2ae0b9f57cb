/** When the best value of every objective survives pruning (src/gepa/pareto.py:68-161). */
module Extremes {
  import opened Prelude
  import opened Ranking
  import opened Dominance
  import opened Crowding
  import opened ParetoArchive

  ghost predicate ShareObjectives(sols: seq<Solution>, objectives: set<string>) {
    forall s :: s in sols ==> s.objectives.at.Keys == objectives
  }

  /** `f` is at least as good as `s` on `o`. */
  ghost predicate AsGood(f: Solution, s: Solution, o: string, minimize: seq<string>) {
    && o in f.objectives.at && o in s.objectives.at
    && !Worse(minimize, o, f.objectives.at[o], s.objectives.at[o])
  }

  /** Every solution of `sols` is matched on `o` by one of `front`. */
  ghost predicate Matches(front: seq<Solution>, sols: seq<Solution>, o: string, minimize: seq<string>) {
    forall s :: s in sols ==> exists f :: f in front && AsGood(f, s, o, minimize)
  }

  lemma {:induction false} ObjectiveListSize(sols: seq<Solution>, objectives: set<string>)
    requires sols != [] && ShareObjectives(sols, objectives)
    ensures |ObjectiveList(sols)| == |objectives|
    ensures forall o :: o in objectives <==> o in ObjectiveList(sols)
  {
    assert sols[0] in sols;
    DistinctCardinality(ObjectiveList(sols));
    assert (set o | o in ObjectiveList(sols)) == objectives;
  }

  // ----- the ends of an objective ---------------------------------------

  /** The first index with the least value. */
  ghost predicate Least(vals: seq<real>, i: nat) {
    i < |vals| && forall j: nat :: j < |vals| ==> vals[i] < vals[j] || (vals[i] == vals[j] && i <= j)
  }

  /** The last index with the greatest value. */
  ghost predicate Greatest(vals: seq<real>, i: nat) {
    i < |vals| && forall j: nat :: j < |vals| ==> vals[j] < vals[i] || (vals[j] == vals[i] && j <= i)
  }

  /** Ties at the low end go to the earliest solution, ties at the high end to the latest. */
  lemma {:induction false} EndsOfColumn(vals: seq<real>)
    requires vals != []
    ensures Least(vals, Ascending(vals)[0]) && Greatest(vals, Ascending(vals)[|vals| - 1])
  {
    var order, n := Ascending(vals), |vals| - 1;
    forall j: nat | j < |vals|
      ensures vals[order[0]] < vals[j] || (vals[order[0]] == vals[j] && order[0] <= j)
      ensures vals[j] < vals[order[n]] || (vals[j] == vals[order[n]] && j <= order[n])
    {
      EndsAgainst(vals, order, PositionOf(order, j));
    }
    hide Ascending;
  }

  lemma {:induction false} EndsAgainst(vals: seq<real>, order: seq<nat>, p: nat)
    requires Ranked(AsKeys(vals), false, order) && p < |order|
    ensures var first, mid, last := order[0], order[p], order[|order| - 1];
      && (vals[first] < vals[mid] || (vals[first] == vals[mid] && first <= mid))
      && (vals[mid] < vals[last] || (vals[mid] == vals[last] && mid <= last))
  {
    assert p > 0 ==> Ahead(AsKeys(vals), false, order[0], order[p]);
    assert p < |order| - 1 ==> Ahead(AsKeys(vals), false, order[p], order[|order| - 1]);
  }

  lemma {:induction false} EndIsUnique(vals: seq<real>, i: nat)
    requires vals != []
    ensures Least(vals, i) ==> Ascending(vals)[0] == i
    ensures Greatest(vals, i) ==> Ascending(vals)[|vals| - 1] == i
  {
    EndsOfColumn(vals);
  }

  /** The index of the best value of `o`. */
  ghost function BestEnd(sols: seq<Solution>, o: string, minimize: seq<string>): (end: nat)
    requires sols != []
    ensures end < |sols|
  {
    var order := Ascending(Column(sols, o));
    if o in minimize then order[0] else order[|sols| - 1]
  }

  /** The index of the worst value of `o`. */
  ghost function WorstEnd(sols: seq<Solution>, o: string, minimize: seq<string>): (end: nat)
    requires sols != []
    ensures end < |sols|
  {
    var order := Ascending(Column(sols, o));
    if o in minimize then order[|sols| - 1] else order[0]
  }

  lemma {:induction false} BestAndWorst(sols: seq<Solution>, o: string, minimize: seq<string>)
    requires sols != []
    ensures var vals, best, worst := Column(sols, o), BestEnd(sols, o, minimize), WorstEnd(sols, o, minimize);
      if o in minimize then Least(vals, best) && Greatest(vals, worst) else Greatest(vals, best) && Least(vals, worst)
  {
    EndsOfColumn(Column(sols, o));
    hide Ascending, Least, Greatest;
  }

  lemma {:induction false} ColumnAt(sols: seq<Solution>, o: string, i: nat)
    requires i < |sols| && o in sols[i].objectives.at
    ensures Column(sols, o)[i] == sols[i].objectives.at[o]
  {
  }

  lemma {:induction false} BestEndIsBest(sols: seq<Solution>, o: string, minimize: seq<string>, i: nat)
    requires i < |sols| && forall j :: 0 <= j < |sols| ==> o in sols[j].objectives.at
    ensures AsGood(sols[BestEnd(sols, o, minimize)], sols[i], o, minimize)
    ensures AsGood(sols[i], sols[WorstEnd(sols, o, minimize)], o, minimize)
  {
    BestAndWorst(sols, o, minimize);
    ColumnAt(sols, o, i);
    ColumnAt(sols, o, BestEnd(sols, o, minimize));
    ColumnAt(sols, o, WorstEnd(sols, o, minimize));
    hide BestEnd, WorstEnd, Column;
  }

  lemma {:induction false} EndSetOf(ends: seq<(nat, nat)>, k: nat, i: nat)
    requires k <= |ends| && i in EndSet(ends, k)
    ensures exists j :: 0 <= j < k && (i == ends[j].0 || i == ends[j].1)
  {
    if k == 0 {
    } else if i in EndSet(ends, k - 1) {
      EndSetOf(ends, k - 1, i);
    }
  }

  lemma {:induction false} EndOf(sols: seq<Solution>, i: nat, minimize: seq<string>) returns (o: string)
    requires sols != [] && i in FrontierEnds(sols)
    ensures o in ObjectiveList(sols) && (i == BestEnd(sols, o, minimize) || i == WorstEnd(sols, o, minimize))
  {
    var objectives := ObjectiveList(sols);
    var ends := EndsTable(sols, objectives);
    EndSetOf(ends, |objectives|, i);
    var j :| 0 <= j < |objectives| && (i == ends[j].0 || i == ends[j].1);
    o := objectives[j];
  }

  // ----- with room enough nothing is lost -------------------------------

  /** The archive size from which no best value is lost. Two objectives are special: a solution
      that is best on one is worst on the other, and if one is minimised and the other maximised
      even ties choose the same solution for both ends. */
  ghost function Room(objectives: set<string>, minimize: seq<string>): nat {
    if |objectives| >= 3 then 2 * |objectives|
    else if |objectives| == 2 then (if Mixed(objectives, minimize) then 2 else 3)
    else |objectives|
  }

  /** Some objective is minimised and some is not. */
  ghost predicate Mixed(objectives: set<string>, minimize: seq<string>) {
    exists o, p :: o in objectives && p in objectives && o in minimize && p !in minimize
  }

  lemma {:induction false} KeptSurvives(sols: seq<Solution>, maxSize: int, i: nat)
    requires i < |sols| && (|sols| <= maxSize || i in KeptIndices(sols, maxSize))
    ensures sols[i] in Prune(sols, maxSize)
  {
    if |sols| > maxSize {
      KeptInRange(sols, maxSize);
      var kept := KeptIndices(sols, maxSize);
      var k :| 0 <= k < |kept| && kept[k] == i;
      assert Pick(sols, kept)[k] == sols[i];
    }
  }

  lemma {:induction false} TwoShared(sols: seq<Solution>, o: string, p: string)
    requires ShareObjectives(sols, {o, p})
    ensures forall i :: 0 <= i < |sols| ==> o in sols[i].objectives.at && p in sols[i].objectives.at
    ensures forall i, x :: 0 <= i < |sols| && x in sols[i].objectives.at ==> x == o || x == p
  {
    forall i | 0 <= i < |sols| ensures sols[i].objectives.at.Keys == {o, p} {
      assert sols[i] in sols;
    }
  }

  /** Of two solutions that do not beat each other, one that is as good on both objectives is equal. */
  lemma {:induction false} NoTradeNoGain(e: Dict, w: Dict, o: string, p: string, minimize: seq<string>)
    requires o in e.at && p in e.at && o in w.at && p in w.at
    requires forall x :: x in e.at ==> x == o || x == p
    requires !Worse(minimize, o, e.at[o], w.at[o]) && !Worse(minimize, p, e.at[p], w.at[p])
    requires !Beats(e, w, minimize)
    ensures e.at[o] == w.at[o] && e.at[p] == w.at[p]
  {
    assert !Worse(minimize, o, w.at[o], e.at[o]) && !Worse(minimize, p, w.at[p], e.at[p]);
  }

  /** Of two objectives, what is best on one is worst on the other. */
  lemma {:induction false} TradeOff(sols: seq<Solution>, o: string, p: string, minimize: seq<string>)
    requires sols != [] && ShareObjectives(sols, {o, p}) && MutuallyUnbeaten(sols, minimize)
    ensures var e, w := BestEnd(sols, o, minimize), WorstEnd(sols, p, minimize);
      && Column(sols, o)[e] == Column(sols, o)[w] && Column(sols, p)[e] == Column(sols, p)[w]
      && AsGood(sols[w], sols[e], o, minimize)
  {
    var i, j := BestEnd(sols, o, minimize), WorstEnd(sols, p, minimize);
    TwoShared(sols, o, p);
    BestEndIsBest(sols, o, minimize, j);
    BestEndIsBest(sols, p, minimize, i);
    assert sols[i] in sols && sols[j] in sols;
    NoTradeNoGain(sols[i].objectives, sols[j].objectives, o, p, minimize);
    ColumnAt(sols, o, i);
    ColumnAt(sols, o, j);
    ColumnAt(sols, p, i);
    ColumnAt(sols, p, j);
    hide BestEnd, WorstEnd, Column, Beats, ShareObjectives;
  }

  /** If just one of the two is minimised, ties are broken alike at both ends. */
  lemma {:induction false} EndsCoincide(sols: seq<Solution>, o: string, p: string, minimize: seq<string>)
    requires sols != [] && ShareObjectives(sols, {o, p}) && MutuallyUnbeaten(sols, minimize)
    requires o in minimize <==> p !in minimize
    ensures BestEnd(sols, o, minimize) == WorstEnd(sols, p, minimize)
  {
    TradeOff(sols, o, p, minimize);
    BestAndWorst(sols, o, minimize);
    BestAndWorst(sols, p, minimize);
    hide MutuallyUnbeaten, ShareObjectives, BestEnd, WorstEnd, Column;
  }

  /** If four ends fill a front part of an order, the first three are all but one of them. */
  lemma {:induction false} ThreeOfFour(order: seq<nat>, e: nat, w: nat, x: nat, y: nat, ends: set<nat>)
    requires |order| >= 3 && Distinct(order) && e in order
    requires e in ends && ends <= {e, w, x, y}
    requires forall p, q :: 0 <= p < q < |order| && order[q] in ends ==> order[p] in ends
    ensures e in order[..3] || w in order[..3]
  {
    var q := PositionOf(order, e);
    if q < 3 {
      assert order[..3][q] == e;
    } else {
      assert order[0] in ends && order[1] in ends && order[2] in ends;
      assert order[0] != order[1] && order[1] != order[2] && order[0] != order[2];
      assert order[0] != order[q] && order[1] != order[q] && order[2] != order[q];
      assert order[..3] == [order[0], order[1], order[2]];
    }
  }

  lemma {:induction false} EndsAreEnds(sols: seq<Solution>, o: string, minimize: seq<string>)
    requires sols != [] && o in ObjectiveList(sols)
    ensures BestEnd(sols, o, minimize) in FrontierEnds(sols)
  {
  }

  lemma {:induction false} ListedObjectives(sols: seq<Solution>, objectives: set<string>)
    requires sols != [] && ShareObjectives(sols, objectives)
    ensures forall x :: x in ObjectiveList(sols) <==> x in objectives
  {
    assert sols[0] in sols;
    assert forall x :: x in sols[0].objectives.at.Keys <==> x in ObjectiveList(sols);
  }

  /** The ends of two objectives. */
  lemma {:induction false} EndsOfTwo(sols: seq<Solution>, o: string, p: string, minimize: seq<string>)
    requires sols != [] && ShareObjectives(sols, {o, p})
    ensures BestEnd(sols, o, minimize) in FrontierEnds(sols)
    ensures FrontierEnds(sols) <=
      {BestEnd(sols, o, minimize), WorstEnd(sols, o, minimize), BestEnd(sols, p, minimize), WorstEnd(sols, p, minimize)}
  {
    hide BestEnd, WorstEnd, FrontierEnds, ObjectiveList;
    ListedObjectives(sols, {o, p});
    hide ShareObjectives;
    assert o in {o, p};
    EndsAreEnds(sols, o, minimize);
    forall i | i in FrontierEnds(sols)
      ensures i in
        {BestEnd(sols, o, minimize), WorstEnd(sols, o, minimize),
         BestEnd(sols, p, minimize), WorstEnd(sols, p, minimize)}
    {
      var x := EndOf(sols, i, minimize);
      assert x in {o, p};
    }
  }

  /** Where at least three are kept, one with the best value of `o` is among them. */
  lemma {:induction false} BestOfTwoIsKept(sols: seq<Solution>, o: string, p: string, minimize: seq<string>,
        maxSize: int)
    requires |sols| > maxSize >= 3 && ShareObjectives(sols, {o, p})
    ensures var kept := KeptIndices(sols, maxSize);
      BestEnd(sols, o, minimize) in kept || WorstEnd(sols, p, minimize) in kept
  {
    var e, w := BestEnd(sols, o, minimize), WorstEnd(sols, p, minimize);
    var order, ends := SortedIndices(Crowded(sols), true), FrontierEnds(sols);
    RankedDistinct(Crowded(sols), true, order);
    EndsOfTwo(sols, o, p, minimize);
    forall i, j | 0 <= i < j < |order| && order[j] in ends ensures order[i] in ends {
      EndsComeFirst(sols, i, j);
    }
    ThreeOfFour(order, e, w, WorstEnd(sols, o, minimize), BestEnd(sols, p, minimize), ends);
    hide BestEnd, WorstEnd, FrontierEnds, Crowded, SortedIndices, ShareObjectives;
    assert order[..3] <= KeptIndices(sols, maxSize);
  }

  /** Where ties are broken alike, only two solutions are ends at all. */
  lemma {:induction false} TwoEnds(sols: seq<Solution>, o: string, p: string, minimize: seq<string>)
    requires sols != [] && ShareObjectives(sols, {o, p}) && MutuallyUnbeaten(sols, minimize)
    requires o in minimize <==> p !in minimize
    ensures |FrontierEnds(sols)| <= 2
  {
    EndsCoincide(sols, o, p, minimize);
    assert {o, p} == {p, o};
    EndsCoincide(sols, p, o, minimize);
    EndsOfTwo(sols, o, p, minimize);
    hide BestEnd, WorstEnd, FrontierEnds;
    var ends := {BestEnd(sols, o, minimize), BestEnd(sols, p, minimize)};
    SubsetCardinality(FrontierEnds(sols), ends);
  }

  /** With a single objective all members are equal. */
  lemma {:induction false} AllEqual(sols: seq<Solution>, o: string, minimize: seq<string>, i: nat, j: nat)
    requires i < |sols| && j < |sols| && ShareObjectives(sols, {o}) && MutuallyUnbeaten(sols, minimize)
    ensures AsGood(sols[i], sols[j], o, minimize)
  {
    var e, w := sols[i], sols[j];
    assert e in sols && w in sols && o in e.objectives.at.Keys && o in w.objectives.at.Keys;
    assert forall x :: x in e.objectives.at ==> x in {o};
    assert !Beats(w.objectives, e.objectives, minimize);
  }

  lemma {:induction false} OneOrTwo(objectives: set<string>, o: string) returns (p: string)
    requires o in objectives && |objectives| <= 2
    ensures objectives == {o, p}
    ensures |objectives| == 1 <==> p == o
  {
    var rest := objectives - {o};
    if rest == {} {
      p := o;
      assert objectives == {o};
    } else {
      p :| p in rest;
      SubsetCardinality({o, p}, objectives);
      assert |rest - {p}| == 0;
      assert objectives == {o, p};
    }
  }

  /** When the archive has to prune, a solution with the best value of `o` stays. */
  lemma {:induction false} BestStays(sols: seq<Solution>, objectives: set<string>, o: string, minimize: seq<string>,
        maxSize: int)
    returns (f: Solution)
    requires ShareObjectives(sols, objectives) && MutuallyUnbeaten(sols, minimize) && o in objectives
    requires |sols| > maxSize >= Room(objectives, minimize)
    ensures f in Prune(sols, maxSize) && AsGood(f, sols[BestEnd(sols, o, minimize)], o, minimize)
  {
    hide Crowded, SortedIndices, BestEnd, WorstEnd, Prune, Beats, KeptIndices, FrontierEnds;
    assert sols[0] in sols;
    var e := BestEnd(sols, o, minimize);
    var kept := e;
    if |objectives| <= 2 {
      var p := OneOrTwo(objectives, o);
      if p == o {
        kept := FirstKept(sols, maxSize);
        assert objectives == {o};
        AllEqual(sols, o, minimize, kept, e);
      } else {
        kept := BestOfTwoStays(sols, o, p, minimize, maxSize);
      }
    } else {
      ObjectiveListSize(sols, objectives);
      EndsAreEnds(sols, o, minimize);
      EndsAreKept(sols, maxSize, e);
      SharedAsGood(sols, objectives, o, minimize, e);
    }
    KeptSurvives(sols, maxSize, kept);
    f := sols[kept];
  }

  lemma {:induction false} SharedAsGood(sols: seq<Solution>, objectives: set<string>, o: string,
        minimize: seq<string>, i: nat)
    requires ShareObjectives(sols, objectives) && o in objectives && i < |sols|
    ensures AsGood(sols[i], sols[i], o, minimize)
  {
    assert sols[i] in sols && o in sols[i].objectives.at.Keys;
  }

  lemma {:induction false} FirstKept(sols: seq<Solution>, maxSize: int) returns (i: nat)
    requires |sols| > maxSize >= 1
    ensures i in KeptIndices(sols, maxSize) && i < |sols|
  {
    KeptInRange(sols, maxSize);
    assert |KeptIndices(sols, maxSize)| == maxSize;
    i := KeptIndices(sols, maxSize)[0];
  }

  lemma {:induction false} BestOfTwoStays(sols: seq<Solution>, o: string, p: string, minimize: seq<string>,
        maxSize: int)
    returns (kept: nat)
    requires o != p && ShareObjectives(sols, {o, p}) && MutuallyUnbeaten(sols, minimize)
    requires |sols| > maxSize >= Room({o, p}, minimize)
    ensures kept in KeptIndices(sols, maxSize) && kept < |sols|
    ensures AsGood(sols[kept], sols[BestEnd(sols, o, minimize)], o, minimize)
  {
    hide Crowded, SortedIndices, BestEnd, WorstEnd, Prune, Beats, KeptIndices, FrontierEnds;
    var e := BestEnd(sols, o, minimize);
    SharedAsGood(sols, {o, p}, o, minimize, e);
    if o in minimize <==> p !in minimize {
      TwoEnds(sols, o, p, minimize);
      EndsOfTwo(sols, o, p, minimize);
      assert Mixed({o, p}, minimize) by {
        assert (o in minimize && p !in minimize) || (p in minimize && o !in minimize);
        assert o in {o, p} && p in {o, p};
      }
      EndsAreKept(sols, maxSize, e);
      kept := e;
    } else {
      assert !Mixed({o, p}, minimize);
      BestOfTwoIsKept(sols, o, p, minimize, maxSize);
      TradeOff(sols, o, p, minimize);
      kept := if e in KeptIndices(sols, maxSize) then e else WorstEnd(sols, p, minimize);
    }
  }

  lemma {:induction false} PruneKeepsExtremes(sols: seq<Solution>, objectives: set<string>, o: string,
        minimize: seq<string>, maxSize: int)
    requires ShareObjectives(sols, objectives) && MutuallyUnbeaten(sols, minimize) && o in objectives
    requires maxSize >= Room(objectives, minimize)
    ensures Matches(Prune(sols, maxSize), sols, o, minimize)
  {
    hide Crowded, SortedIndices, BestEnd, WorstEnd, Beats, KeptIndices, FrontierEnds, MutuallyUnbeaten, Room;
    forall s | s in sols ensures exists f :: f in Prune(sols, maxSize) && AsGood(f, s, o, minimize) {
      var i :| 0 <= i < |sols| && sols[i] == s;
      SharedAsGood(sols, objectives, o, minimize, i);
      if |sols| > maxSize {
        var f := BestStays(sols, objectives, o, minimize, maxSize);
        forall j | 0 <= j < |sols| ensures o in sols[j].objectives.at {
          assert sols[j] in sols && o in sols[j].objectives.at.Keys;
        }
        BestEndIsBest(sols, o, minimize, i);
      } else {
        PruneFits(sols, maxSize);
      }
      hide Prune;
    }
  }

  /** What survives the dominance filter still matches everything offered so far. */
  lemma {:induction false} GrownMatches(front: seq<Solution>, added: seq<Solution>, s: Solution, o: string,
        minimize: seq<string>)
    requires Matches(front, added, o, minimize) && o in s.objectives.at
    ensures Matches(Unbeaten(front, s, minimize) + [s], added + [s], o, minimize)
  {
    var grown := Unbeaten(front, s, minimize) + [s];
    assert s in grown && AsGood(s, s, o, minimize);
    forall a | a in added + [s] ensures exists f :: f in grown && AsGood(f, a, o, minimize) {
      if a in added {
        var f :| f in front && AsGood(f, a, o, minimize);
        if f !in grown {
          assert AsGood(s, a, o, minimize);
        }
      }
    }
  }

  lemma {:induction false} RejectedMatches(front: seq<Solution>, added: seq<Solution>, s: Solution, o: string,
        minimize: seq<string>)
    requires BeatenBy(front, s, minimize) && Matches(front, added, o, minimize)
    requires o in s.objectives.at && forall f :: f in front ==> o in f.objectives.at
    ensures Matches(front, added + [s], o, minimize)
  {
    var e :| e in front && Beats(e.objectives, s.objectives, minimize);
    assert AsGood(e, s, o, minimize);
  }

  lemma {:induction false} MatchesTransitive(a: seq<Solution>, b: seq<Solution>, c: seq<Solution>, o: string,
        minimize: seq<string>)
    requires Matches(a, b, o, minimize) && Matches(b, c, o, minimize)
    ensures Matches(a, c, o, minimize)
  {
    forall s | s in c ensures exists f :: f in a && AsGood(f, s, o, minimize) {
      var g :| g in b && AsGood(g, s, o, minimize);
      var f :| f in a && AsGood(f, g, o, minimize);
      assert AsGood(f, s, o, minimize);
    }
  }

  lemma {:induction false} OfferMatches(front: seq<Solution>, added: seq<Solution>, s: Solution,
        objectives: set<string>, o: string, minimize: seq<string>, maxSize: int)
    requires ShareObjectives(front + [s], objectives) && MutuallyUnbeaten(front, minimize) && o in objectives
    requires maxSize >= Room(objectives, minimize)
    requires Matches(front, added, o, minimize)
    ensures Matches(Offer(front, s, minimize, maxSize), added + [s], o, minimize)
  {
    assert s in front + [s] && forall f :: f in front ==> f in front + [s];
    var grown := Unbeaten(front, s, minimize) + [s];
    if BeatenBy(front, s, minimize) {
      RejectedMatches(front, added, s, o, minimize);
    } else {
      GrownMatches(front, added, s, o, minimize);
      GrownUnbeaten(front, s, minimize);
      PruneKeepsExtremes(grown, objectives, o, minimize, maxSize);
      MatchesTransitive(Prune(grown, maxSize), grown, added + [s], o, minimize);
    }
    hide Beats, Matches, Prune;
  }

  lemma {:induction false} ArchiveMatches(added: seq<Solution>, objectives: set<string>, o: string,
        minimize: seq<string>, maxSize: int)
    requires ShareObjectives(added, objectives) && o in objectives
    requires maxSize >= Room(objectives, minimize)
    ensures Matches(OfferAll(added, minimize, maxSize), added, o, minimize)
  {
    if added == [] {
    } else {
      var n := |added| - 1;
      assert added == added[..n] + [added[n]];
      ArchiveMatches(added[..n], objectives, o, minimize, maxSize);
      ArchiveInvariant(added[..n], minimize, maxSize);
      var front := OfferAll(added[..n], minimize, maxSize);
      forall f | f in front + [added[n]] ensures f.objectives.at.Keys == objectives {
        assert f in added;
      }
      OfferMatches(front, added[..n], added[n], objectives, o, minimize, maxSize);
      hide MutuallyUnbeaten, Offer;
    }
  }

  lemma {:induction false} BestOfIsBest(front: seq<Solution>, o: string, minimize: seq<string>, f: Solution)
    requires f in front && forall g :: g in front ==> o in g.objectives.at
    ensures BestOf(front, o, minimize).Some? && BestOf(front, o, minimize).value in front
    ensures AsGood(BestOf(front, o, minimize).value, f, o, minimize)
  {
    var keys := BestKeys(front, o, minimize);
    var r := FirstExtreme(keys, o in minimize);
    var i :| 0 <= i < |front| && front[i] == f;
    assert front[r] in front && front[i] in front;
    assert keys[i] == Fin(f.objectives.at[o]) && keys[r] == Fin(front[r].objectives.at[o]);
  }

  lemma {:induction false} BestOfMatches(front: seq<Solution>, added: seq<Solution>, o: string, minimize: seq<string>)
    requires added != [] && Matches(front, added, o, minimize)
    requires forall g :: g in front ==> o in g.objectives.at
    ensures BestOf(front, o, minimize).Some? && BestOf(front, o, minimize).value in front
    ensures forall s :: s in added ==> AsGood(BestOf(front, o, minimize).value, s, o, minimize)
  {
    assert added[0] in added;
    var f0 :| f0 in front && AsGood(f0, added[0], o, minimize);
    BestOfIsBest(front, o, minimize, f0);
    var best := BestOf(front, o, minimize).value;
    forall s | s in added ensures AsGood(best, s, o, minimize) {
      var f :| f in front && AsGood(f, s, o, minimize);
      BestOfIsBest(front, o, minimize, f);
    }
  }

  /** `get_best` finds the best value of `o` ever offered. */
  ghost predicate BestSurvives(added: seq<Solution>, o: string, minimize: seq<string>, maxSize: int) {
    var best := BestOf(OfferAll(added, minimize, maxSize), o, minimize);
    && best.Some? && best.value in added
    && forall s :: s in added ==> AsGood(best.value, s, o, minimize)
  }

  /** With room enough, the best value of each objective ever offered is still what `get_best`
      finds, whatever was dominated or pruned in between. */
  lemma {:induction false} ExtremesSurvive(added: seq<Solution>, objectives: set<string>, o: string,
        minimize: seq<string>, maxSize: int)
    requires added != [] && ShareObjectives(added, objectives) && o in objectives
    requires maxSize >= Room(objectives, minimize)
    ensures BestSurvives(added, o, minimize, maxSize)
  {
    ArchiveInvariant(added, minimize, maxSize);
    ArchiveMatches(added, objectives, o, minimize, maxSize);
    forall g | g in OfferAll(added, minimize, maxSize) ensures o in g.objectives.at {
      assert g in added && o in g.objectives.at.Keys;
    }
    BestOfMatches(OfferAll(added, minimize, maxSize), added, o, minimize);
    hide BestOf, OfferAll, MutuallyUnbeaten;
  }

  // ----- with less room something can be lost ---------------------------

  lemma {:induction false} NothingIsKept(s: Solution, o: string, minimize: seq<string>, maxSize: int)
    requires maxSize <= 0
    ensures !BestSurvives([s], o, minimize, maxSize)
  {
    ArchiveInvariant([s], minimize, maxSize);
    hide OfferAll, MutuallyUnbeaten;
  }

  /** Members that do not dominate each other are all accepted. */
  lemma {:induction false} AllAccepted(added: seq<Solution>, minimize: seq<string>, maxSize: int)
    requires MutuallyUnbeaten(added, minimize) && |added| <= maxSize
    ensures OfferAll(added, minimize, maxSize) == added
  {
    if added == [] {
    } else {
      var n := |added| - 1;
      var front, last := added[..n], added[n];
      assert added == front + [last] && last in added && forall x :: x in front ==> x in added;
      AllAccepted(front, minimize, maxSize);
      NothingToFilter(front, last, minimize);
      PruneFits(added, maxSize);
      hide Beats, Unbeaten, Prune;
    }
  }

  lemma {:induction false} SameKeysKeepOrder(keys: seq<Ext>)
    requires forall i :: 0 <= i < |keys| ==> keys[i] == PosInf
    ensures SortedIndices(keys, true) == Indices(|keys|)
  {
    RankingIsUnique(keys, true, SortedIndices(keys, true), Indices(|keys|));
  }

  /** If every member is an end, pruning drops the latest. */
  lemma {:induction false} AllEndsDropLast(front: seq<Solution>, last: Solution)
    requires front != [] && forall i: nat :: i <= |front| ==> i in FrontierEnds(front + [last])
    ensures Prune(front + [last], |front|) == front
  {
    var sols, n := front + [last], |front|;
    forall i | 0 <= i <= n ensures Crowded(sols)[i] == PosInf {
      CrowdedAtEnds(sols, i);
    }
    SameKeysKeepOrder(Crowded(sols));
    hide Crowded, SortedIndices, FrontierEnds;
    KeptInRange(sols, n);
    assert KeptIndices(sols, n) == Indices(n + 1)[..n];
    assert Pick(sols, KeptIndices(sols, n)) == front;
  }

  /** A best value is lost when all members are ends and the latest has it alone. */
  lemma {:induction false} LastIsLost(front: seq<Solution>, last: Solution, o: string, minimize: seq<string>)
    requires front != [] && MutuallyUnbeaten(front + [last], minimize)
    requires forall i: nat :: i <= |front| ==> i in FrontierEnds(front + [last])
    requires forall i :: 0 <= i < |front| ==> !AsGood(front[i], last, o, minimize)
    ensures !BestSurvives(front + [last], o, minimize, |front|)
  {
    var added := front + [last];
    assert last in added && forall x :: x in front ==> x in added;
    AllEndsDropLast(front, last);
    AllAccepted(front, minimize, |front|);
    NothingToFilter(front, last, minimize);
    assert added[..|front|] == front;
    assert OfferAll(added, minimize, |front|) == front by {
      hide Beats, Prune, Unbeaten, FrontierEnds;
    }
    hide OfferAll, MutuallyUnbeaten, FrontierEnds, AsGood;
  }

  lemma {:induction false} IsAnEnd(sols: seq<Solution>, o: string, i: nat)
    requires sols != [] && o in ObjectiveList(sols)
    requires Least(Column(sols, o), i) || Greatest(Column(sols, o), i)
    ensures i in FrontierEnds(sols)
  {
    hide Ascending, Column, Least, Greatest, ObjectiveList;
    EndIsUnique(Column(sols, o), i);
    hide FrontierEnds;
  }

  // ----- two objectives -------------------------------------------------

  /** Scores 1 on `good` and 0 on the other objective. */
  ghost function OneSided(objectives: set<string>, good: string, minimize: seq<string>): Objectives {
    Scored(objectives, x => if x == good then 1.0 else 0.0, minimize)
  }

  lemma {:induction false} OneSidedScores(o: string, p: string, minimize: seq<string>)
    requires o != p
    ensures var a, c := OneSided({o, p}, p, minimize), OneSided({o, p}, o, minimize);
      && a.at.Keys == c.at.Keys == {o, p} && o in a.order && p in a.order
      && a.at[o] == c.at[p] == 0.0
      && c.at[o] == (if o in minimize then -1.0 else 1.0) && a.at[p] == (if p in minimize then -1.0 else 1.0)
      && Worse(minimize, o, a.at[o], c.at[o])
      && !Beats(a, c, minimize) && !Beats(c, a, minimize)
  {
    var first: string -> real := x => if x == p then 1.0 else 0.0;
    var second: string -> real := x => if x == o then 1.0 else 0.0;
    ScoredBeats({o, p}, first, {o, p}, second, minimize);
    ScoredBeats({o, p}, second, {o, p}, first, minimize);
    assert {o, p} * {o, p} == {o, p} && first(o) < second(o) && second(p) < first(p);
    hide Beats;
  }

  /** Index `i` is the low or the high end of one of two columns. */
  ghost predicate EndsOne(u: seq<real>, v: seq<real>, i: nat) {
    Least(u, i) || Greatest(u, i) || Least(v, i) || Greatest(v, i)
  }

  lemma {:induction false} PairEnds(u: seq<real>, v: seq<real>)
    requires |u| == 2 && u[0] != u[1]
    ensures EndsOne(u, v, 0) && EndsOne(u, v, 1)
  {
    if u[0] < u[1] {
      assert Least(u, 0) && Greatest(u, 1);
    } else {
      assert Greatest(u, 0) && Least(u, 1);
    }
  }

  /** Of two tied solutions one is the earliest low end, the other the latest high end. */
  lemma {:induction false} TiedEnds(u: seq<real>, v: seq<real>)
    requires |u| == 3 && u[0] == u[1] && |v| == 3 && v[0] == v[1]
    requires (u[2] > u[0] && v[2] < v[0]) || (u[2] < u[0] && v[2] > v[0])
    ensures EndsOne(u, v, 0) && EndsOne(u, v, 1) && EndsOne(u, v, 2)
  {
    if u[2] > u[0] {
      assert Least(u, 0) && Greatest(v, 1) && Greatest(u, 2);
    } else {
      assert Least(v, 0) && Greatest(u, 1) && Least(u, 2);
    }
  }

  lemma {:induction false} AreEnds(sols: seq<Solution>, o: string, p: string)
    requires sols != [] && o in ObjectiveList(sols) && p in ObjectiveList(sols)
    requires forall i: nat :: i < |sols| ==> EndsOne(Column(sols, o), Column(sols, p), i)
    ensures forall i: nat :: i < |sols| ==> i in FrontierEnds(sols)
  {
    forall i: nat | i < |sols| ensures i in FrontierEnds(sols) {
      assert EndsOne(Column(sols, o), Column(sols, p), i);
      if Least(Column(sols, o), i) || Greatest(Column(sols, o), i) {
        IsAnEnd(sols, o, i);
      } else {
        IsAnEnd(sols, p, i);
      }
      hide Column, Least, Greatest, FrontierEnds;
    }
  }

  /** Solutions scored `a`, before one scored `c`. */
  ghost function Before(a: Objectives, c: Objectives, n: nat): (r: seq<Solution>)
    ensures |r| == n + 1 && r[n].objectives == c
    ensures forall i :: 0 <= i < n ==> r[i].objectives == a
  {
    seq(n, i => Solution("a", a, "")) + [Solution("c", c, "")]
  }

  lemma {:induction false} BeforeUnbeaten(a: Objectives, c: Objectives, n: nat, minimize: seq<string>)
    requires !Beats(a, c, minimize) && !Beats(c, a, minimize)
    ensures MutuallyUnbeaten(Before(a, c, n), minimize)
  {
    BeatsIrreflexive(a, minimize);
    BeatsIrreflexive(c, minimize);
    hide Beats;
  }

  lemma {:induction false} BeforeEnds(a: Objectives, c: Objectives, o: string, p: string, n: nat)
    requires o in a.order && p in a.order && o in c.at && p in c.at && 1 <= n <= 2
    requires (c.at[o] > a.at[o] && c.at[p] < a.at[p]) || (n == 1 && c.at[o] != a.at[o])
      || (c.at[o] < a.at[o] && c.at[p] > a.at[p])
    ensures forall i: nat :: i <= n ==> i in FrontierEnds(Before(a, c, n))
  {
    var sols := Before(a, c, n);
    var u, v := Column(sols, o), Column(sols, p);
    forall i | 0 <= i <= n
      ensures u[i] == sols[i].objectives.at[o] && v[i] == sols[i].objectives.at[p]
    {
      ColumnAt(sols, o, i);
      ColumnAt(sols, p, i);
    }
    hide Column, Before, EndsOne, FrontierEnds;
    if n == 1 {
      PairEnds(u, v);
    } else {
      TiedEnds(u, v);
    }
    AreEnds(sols, o, p);
  }

  lemma {:induction false} BeforeLoses(a: Objectives, c: Objectives, o: string, minimize: seq<string>, n: nat)
    requires n >= 1 && o in a.at && o in c.at && Worse(minimize, o, a.at[o], c.at[o])
    requires !Beats(a, c, minimize) && !Beats(c, a, minimize)
    requires forall i: nat :: i <= n ==> i in FrontierEnds(Before(a, c, n))
    ensures !BestSurvives(Before(a, c, n), o, minimize, n)
  {
    var added := Before(a, c, n);
    BeforeUnbeaten(a, c, n, minimize);
    assert added == added[..n] + [added[n]];
    hide MutuallyUnbeaten, FrontierEnds, Before, BestSurvives, Beats;
    LastIsLost(added[..n], added[n], o, minimize);
  }

  lemma {:induction false} RoomForTwo(o: string, p: string, minimize: seq<string>)
    requires o != p
    ensures Room({o, p}, minimize) == if o in minimize <==> p in minimize then 3 else 2
  {
    var both := {o, p};
    assert |both| == 2 && o in both && p in both;
  }

  /** One or two solutions that are good on `p` only, before one that is good on `o` only. */
  lemma {:induction false} LostOfTwo(o: string, p: string, minimize: seq<string>, maxSize: int)
    returns (added: seq<Solution>)
    requires o != p && 1 <= maxSize < Room({o, p}, minimize)
    ensures added != [] && ShareObjectives(added, {o, p}) && !BestSurvives(added, o, minimize, maxSize)
  {
    hide Room, OneSided, Beats, FrontierEnds, BestSurvives, Scored;
    RoomForTwo(o, p, minimize);
    OneSidedScores(o, p, minimize);
    var a, c := OneSided({o, p}, p, minimize), OneSided({o, p}, o, minimize);
    assert o in c.at.Keys && p in c.at.Keys;
    BeforeEnds(a, c, o, p, maxSize);
    BeforeLoses(a, c, o, minimize, maxSize);
    added := Before(a, c, maxSize);
  }

  // ----- three objectives or more ---------------------------------------

  /** The objective on which number `j` of the family is extreme: first all low ends, then all
      high ends, that of the first objective last. */
  ghost function Peculiar(order: seq<string>, j: nat): string
    requires j < 2 * |order|
  {
    if j < |order| then order[j] else order[2 * |order| - 1 - j]
  }

  /** Number `j` scores 0 on its objective and 6 elsewhere, or 10 there and 5 elsewhere. */
  ghost function Merit(order: seq<string>, j: nat, o: string): real
    requires j < 2 * |order|
  {
    if j < |order| then (if o == Peculiar(order, j) then 0.0 else 6.0)
    else (if o == Peculiar(order, j) then 10.0 else 5.0)
  }

  ghost function Member(objectives: set<string>, order: seq<string>, j: nat, minimize: seq<string>): (d: Objectives)
    requires j < 2 * |order|
    ensures d.at.Keys == objectives
    ensures forall o :: o in objectives ==> d.at[o] == Signed(minimize, o, Merit(order, j, o))
  {
    Scored(objectives, o => Merit(order, j, o), minimize)
  }

  ghost predicate Lists(order: seq<string>, objectives: set<string>) {
    Distinct(order) && forall o :: o in order <==> o in objectives
  }

  lemma {:induction false} PeculiarDiffers(order: seq<string>, i: nat, j: nat)
    requires Distinct(order) && i < 2 * |order| && j < 2 * |order| && i != j
    requires (i < |order|) == (j < |order|)
    ensures Peculiar(order, i) != Peculiar(order, j)
  {
    var n := 2 * |order| - 1;
    if i < |order| {
      assert if i < j then order[i] != order[j] else order[j] != order[i];
    } else {
      assert if i < j then order[n - j] != order[n - i] else order[n - i] != order[n - j];
    }
  }

  /** Each is somewhere better than each other one. */
  lemma {:induction false} SomewhereBetter(order: seq<string>, i: nat, j: nat) returns (o: string)
    requires Distinct(order) && |order| >= 3 && i < 2 * |order| && j < 2 * |order| && i != j
    ensures o in order && Merit(order, i, o) < Merit(order, j, o)
  {
    assert Peculiar(order, i) in order && Peculiar(order, j) in order;
    if i < |order| {
      o := Peculiar(order, i);
      if j < |order| { PeculiarDiffers(order, i, j); }
    } else if j >= |order| {
      o := Peculiar(order, j);
      PeculiarDiffers(order, i, j);
    } else {
      assert order[0] != order[1] && order[1] != order[2] && order[0] != order[2];
      var k :| 0 <= k < 3 && order[k] != Peculiar(order, i) && order[k] != Peculiar(order, j);
      o := order[k];
    }
  }

  lemma {:induction false} MembersUnbeaten(objectives: set<string>, order: seq<string>, i: nat, j: nat,
        minimize: seq<string>)
    requires Lists(order, objectives) && |order| >= 3 && i < 2 * |order| && j < 2 * |order|
    ensures !Beats(Member(objectives, order, i, minimize), Member(objectives, order, j, minimize), minimize)
  {
    var a, b := Member(objectives, order, i, minimize), Member(objectives, order, j, minimize);
    if i == j {
      BeatsIrreflexive(a, minimize);
    } else {
      var o := SomewhereBetter(order, i, j);
      assert o in a.at.Keys && o in b.at.Keys && Worse(minimize, o, a.at[o], b.at[o]);
    }
  }

  /** Number `j` alone has the least, or the greatest, merit on its objective. */
  lemma {:induction false} MeritIsExtreme(order: seq<string>, i: nat, j: nat)
    requires Distinct(order) && i < 2 * |order| && j < 2 * |order| && i != j
    ensures var o := Peculiar(order, j);
      if j < |order| then Merit(order, j, o) < Merit(order, i, o) else Merit(order, j, o) > Merit(order, i, o)
  {
    if (i < |order|) == (j < |order|) {
      PeculiarDiffers(order, i, j);
    }
  }

  /** The first `n` of the family, then its last. */
  ghost function Family(objectives: set<string>, order: seq<string>, n: nat, minimize: seq<string>): (r: seq<Solution>)
    requires n < 2 * |order|
    ensures |r| == n + 1
    ensures forall i :: 0 <= i <= n ==> r[i].objectives == Member(objectives, order, Number(order, n, i), minimize)
  {
    seq(n, i requires 0 <= i < n => Solution("", Member(objectives, order, i, minimize), "")) +
    [Solution("last", Member(objectives, order, 2 * |order| - 1, minimize), "")]
  }

  ghost function Number(order: seq<string>, n: nat, i: nat): (j: nat)
    requires i <= n < 2 * |order|
    ensures j < 2 * |order|
  {
    if i < n then i else 2 * |order| - 1
  }

  lemma {:induction false} FamilyUnbeaten(objectives: set<string>, order: seq<string>, n: nat, minimize: seq<string>)
    requires Lists(order, objectives) && |order| >= 3 && n < 2 * |order|
    ensures MutuallyUnbeaten(Family(objectives, order, n, minimize), minimize)
  {
    var sols := Family(objectives, order, n, minimize);
    forall a, b | a in sols && b in sols ensures !Beats(a.objectives, b.objectives, minimize) {
      var i :| 0 <= i < |sols| && sols[i] == a;
      var j :| 0 <= j < |sols| && sols[j] == b;
      MembersUnbeaten(objectives, order, Number(order, n, i), Number(order, n, j), minimize);
      hide Beats, Member, Family;
    }
  }

  lemma {:induction false} FamilyColumn(objectives: set<string>, order: seq<string>, n: nat, o: string, i: nat,
        minimize: seq<string>)
    requires Lists(order, objectives) && i <= n < 2 * |order| && o in objectives
    ensures Column(Family(objectives, order, n, minimize), o)[i] ==
      Signed(minimize, o, Merit(order, Number(order, n, i), o))
  {
    var sols := Family(objectives, order, n, minimize);
    assert o in sols[i].objectives.at.Keys;
    ColumnAt(sols, o, i);
  }

  lemma {:induction false} FamilyAreEnds(objectives: set<string>, order: seq<string>, n: nat, i: nat,
        minimize: seq<string>)
    requires Lists(order, objectives) && i <= n < 2 * |order|
    ensures i in FrontierEnds(Family(objectives, order, n, minimize))
  {
    var sols, j := Family(objectives, order, n, minimize), Number(order, n, i);
    var o := Peculiar(order, j);
    assert o in order && o in objectives && o in sols[0].objectives.at.Keys;
    var vals := Column(sols, o);
    FamilyColumn(objectives, order, n, o, i, minimize);
    forall k: nat | k <= n && k != i
      ensures if (j < |order|) == (o !in minimize) then vals[i] < vals[k] else vals[i] > vals[k]
    {
      FamilyColumn(objectives, order, n, o, k, minimize);
      MeritIsExtreme(order, Number(order, n, k), j);
    }
    assert if (j < |order|) == (o !in minimize) then Least(vals, i) else Greatest(vals, i);
    hide Column, Family, Merit, Peculiar, FrontierEnds;
    IsAnEnd(sols, o, i);
  }

  lemma {:induction false} LastIsBest(objectives: set<string>, order: seq<string>, n: nat, i: nat,
        minimize: seq<string>)
    requires Lists(order, objectives) && objectives != {} && i < n < 2 * |order|
    ensures var sols := Family(objectives, order, n, minimize);
      order[0] in objectives && !AsGood(sols[i], sols[n], order[0], minimize)
  {
    assert order[0] in order;
    MeritIsExtreme(order, i, 2 * |order| - 1);
    hide Family, Member;
  }

  lemma {:induction false} SomeOrder(objectives: set<string>) returns (order: seq<string>)
    ensures Lists(order, objectives) && |order| == |objectives|
  {
    order := Listed(objectives);
    DistinctCardinality(order);
    assert (set x | x in order) == objectives;
  }

  lemma {:induction false} FamilyIsGood(objectives: set<string>, order: seq<string>, n: nat, minimize: seq<string>)
    requires Lists(order, objectives) && |order| >= 3 && n < 2 * |order|
    ensures var sols := Family(objectives, order, n, minimize);
      && MutuallyUnbeaten(sols, minimize) && ShareObjectives(sols, objectives)
      && (forall i: nat :: i <= n ==> i in FrontierEnds(sols))
      && order[0] in objectives && (forall i: nat :: i < n ==> !AsGood(sols[i], sols[n], order[0], minimize))
  {
    hide MutuallyUnbeaten, FrontierEnds, Member, AsGood, Lists;
    FamilyUnbeaten(objectives, order, n, minimize);
    forall i: nat | i <= n ensures i in FrontierEnds(Family(objectives, order, n, minimize)) {
      FamilyAreEnds(objectives, order, n, i, minimize);
    }
    FirstListed(objectives, order);
    var sols := Family(objectives, order, n, minimize);
    forall i: nat | i < n ensures !AsGood(sols[i], sols[n], order[0], minimize) {
      LastIsBest(objectives, order, n, i, minimize);
    }
    hide Family;
  }

  lemma {:induction false} FirstListed(objectives: set<string>, order: seq<string>)
    requires Lists(order, objectives) && order != []
    ensures order[0] in objectives && objectives != {}
  {
    assert order[0] in order;
  }

  /** Any `maxSize` of the family, before the one that is best on `o`. */
  lemma {:induction false} LostOfMany(objectives: set<string>, minimize: seq<string>, maxSize: int)
    returns (added: seq<Solution>, o: string)
    requires |objectives| >= 3 && 1 <= maxSize < 2 * |objectives|
    ensures added != [] && ShareObjectives(added, objectives) && o in objectives
      && !BestSurvives(added, o, minimize, maxSize)
  {
    var order := SomeOrder(objectives);
    FamilyIsGood(objectives, order, maxSize, minimize);
    hide *;
    o, added := order[0], Family(objectives, order, maxSize, minimize);
    assert added == added[..maxSize] + [added[maxSize]];
    LastIsLost(added[..maxSize], added[maxSize], o, minimize);
  }

  /** For every run and every objective, `get_best` finds the best value ever offered, exactly
      when the archive has that much room. */
  lemma {:induction false} ExtremesSurviveIff(objectives: set<string>, minimize: seq<string>, maxSize: int)
    requires objectives != {}
    ensures maxSize >= Room(objectives, minimize) <==>
      forall added, o :: added != [] && ShareObjectives(added, objectives) && o in objectives
        ==> BestSurvives(added, o, minimize, maxSize)
  {
    hide BestSurvives, ShareObjectives;
    if maxSize >= Room(objectives, minimize) {
      forall added, o | added != [] && ShareObjectives(added, objectives) && o in objectives
        ensures BestSurvives(added, o, minimize, maxSize)
      {
        ExtremesSurvive(added, objectives, o, minimize, maxSize);
      }
    } else {
      var added, o := SomethingIsLost(objectives, minimize, maxSize);
    }
  }

  lemma {:induction false} SomethingIsLost(objectives: set<string>, minimize: seq<string>, maxSize: int)
    returns (added: seq<Solution>, o: string)
    requires objectives != {} && maxSize < Room(objectives, minimize)
    ensures added != [] && ShareObjectives(added, objectives) && o in objectives
      && !BestSurvives(added, o, minimize, maxSize)
  {
    hide BestSurvives;
    o :| o in objectives;
    if maxSize <= 0 {
      var s := Solution("", Scored(objectives, _ => 0.0, minimize), "");
      NothingIsKept(s, o, minimize, maxSize);
      added := [s];
    } else if |objectives| >= 3 {
      added, o := LostOfMany(objectives, minimize, maxSize);
    } else {
      var p := OneOrTwo(objectives, o);
      hide Mixed;
      added := LostOfTwo(o, p, minimize, maxSize);
    }
  }
}
