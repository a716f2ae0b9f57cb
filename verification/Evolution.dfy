/** The batch frontier of prompt variants (src/gepa/evolution.py:213-218, 397-439). */
module Evolution {
  import opened Prelude
  import opened Ranking
  import opened Dominance
  import opened ParetoArchive
  import opened Frontiers

  datatype Trajectory = Trajectory(task: string, output: string, success: bool)

  ghost predicate DominatedIn(all: seq<PromptVariant>, c: PromptVariant) {
    exists v :: v in all && v.id != c.id && Beats(v.scores, c.scores, [])
  }

  /** The candidates that no differently named variant of `all` dominates, in order. */
  ghost function Surviving(candidates: seq<PromptVariant>, all: seq<PromptVariant>): (r: seq<PromptVariant>)
    ensures forall x :: x in r <==> x in candidates && !DominatedIn(all, x)
  {
    if candidates == [] then []
    else
      var n := |candidates| - 1;
      Surviving(candidates[..n], all) + (if DominatedIn(all, candidates[n]) then [] else [candidates[n]])
  }

  lemma {:induction false} SurvivingNone(all: seq<PromptVariant>)
    ensures Surviving([], all) == []
  {
  }

  lemma {:induction false} SurvivingSnoc(candidates: seq<PromptVariant>, c: PromptVariant, all: seq<PromptVariant>)
    ensures Surviving(candidates + [c], all) == Surviving(candidates, all) + (if DominatedIn(all, c) then [] else [c])
  {
    assert (candidates + [c])[..|candidates|] == candidates;
    hide DominatedIn;
  }

  function ScoreSum(v: PromptVariant): real {
    Sum(v.scores.order, v.scores.at)
  }

  function SumKeys(vs: seq<PromptVariant>): (k: seq<Ext>)
    ensures |k| == |vs|
    ensures forall i :: 0 <= i < |vs| ==> k[i] == Fin(ScoreSum(vs[i]))
  {
    seq(|vs|, i requires 0 <= i < |vs| => Fin(ScoreSum(vs[i])))
  }

  function ByScore(vs: seq<PromptVariant>): (r: seq<PromptVariant>)
    ensures |r| == |vs|
    ensures forall x :: x in r ==> x in vs
    ensures vs != [] ==> forall x :: x in vs ==> ScoreSum(x) <= ScoreSum(r[0])
  {
    var order := SortedIndices(SumKeys(vs), true);
    var r := seq(|vs|, k requires 0 <= k < |vs| => vs[order[k]]);
    assert vs != [] ==> forall i: nat :: i < |vs| ==> ScoreSum(vs[i]) <= ScoreSum(r[0]) by {
      if vs != [] {
        forall i: nat | i < |vs| ensures ScoreSum(vs[i]) <= ScoreSum(r[0]) {
          var p := PositionOf(order, i);
          assert p > 0 ==> Ahead(SumKeys(vs), true, order[0], order[p]);
        }
      }
    }
    r
  }

  function Trim(vs: seq<PromptVariant>, maxSize: int): seq<PromptVariant> {
    if |vs| > maxSize then Prefix(ByScore(vs), maxSize) else vs
  }

  /** The frontier after one `_update_pareto_frontier`. */
  ghost function Update(front: seq<PromptVariant>, batch: seq<PromptVariant>, maxSize: int): seq<PromptVariant> {
    Trim(Surviving(front + batch, front + batch), maxSize)
  }

  /** The frontier after a whole run of evolution cycles, starting empty. */
  ghost function Evolve(batches: seq<seq<PromptVariant>>, maxSize: int): seq<PromptVariant> {
    if batches == [] then []
    else
      var n := |batches| - 1;
      Update(Evolve(batches[..n], maxSize), batches[n], maxSize)
  }

  ghost function Submitted(batches: seq<seq<PromptVariant>>): seq<PromptVariant> {
    if batches == [] then []
    else
      var n := |batches| - 1;
      Submitted(batches[..n]) + batches[n]
  }

  /** The variants of one model, in order. */
  function OfModel(vs: seq<PromptVariant>, model: string): (r: seq<PromptVariant>) {
    if vs == [] then []
    else
      var n := |vs| - 1;
      OfModel(vs[..n], model) + (if vs[n].model == model then [vs[n]] else [])
  }

  function AccuracyKeys(vs: seq<PromptVariant>): (k: seq<Ext>)
    ensures |k| == |vs|
    ensures forall i :: 0 <= i < |vs| ==> k[i] == Fin(Get(vs[i].scores, "accuracy", 0.0))
  {
    seq(|vs|, i requires 0 <= i < |vs| => Fin(Get(vs[i].scores, "accuracy", 0.0)))
  }

  /** The buffer after recording one trajectory. */
  function Record(buffer: seq<Trajectory>, t: Trajectory, sampleSize: int): seq<Trajectory> {
    var grown := buffer + [t];
    if |grown| > sampleSize * 2 then Suffix(grown, -(sampleSize * 2)) else grown
  }

  function RecordAll(ts: seq<Trajectory>, sampleSize: int): seq<Trajectory> {
    if ts == [] then []
    else
      var n := |ts| - 1;
      Record(RecordAll(ts[..n], sampleSize), ts[n], sampleSize)
  }

  class EvolutionEngine {
    const frontierSize: int
    const sampleSize: int
    var paretoFrontier: seq<PromptVariant>
    var trajectoryBuffer: seq<Trajectory>

    constructor (frontierSize: int, sampleSize: int)
      ensures this.frontierSize == frontierSize && this.sampleSize == sampleSize
      ensures paretoFrontier == [] && trajectoryBuffer == []
    {
      this.frontierSize := frontierSize;
      this.sampleSize := sampleSize;
      this.paretoFrontier := [];
      this.trajectoryBuffer := [];
    }

    /** `record_trajectory`. */
    method RecordTrajectory(t: Trajectory)
      modifies this`trajectoryBuffer
      ensures trajectoryBuffer == Record(old(trajectoryBuffer), t, sampleSize)
    {
      trajectoryBuffer := trajectoryBuffer + [t];
      var maxBuffer := sampleSize * 2;
      if |trajectoryBuffer| > maxBuffer {
        trajectoryBuffer := Suffix(trajectoryBuffer, -maxBuffer);
      }
    }

    /** `_update_pareto_frontier`. */
    method UpdateParetoFrontier(newVariants: seq<PromptVariant>)
      modifies this`paretoFrontier
      ensures paretoFrontier == Update(old(paretoFrontier), newVariants, frontierSize)
    {
      hide DominatedIn, ByScore, Surviving;
      SurvivingNone(paretoFrontier + newVariants);
      var allVariants := paretoFrontier + newVariants;
      var nonDominated := [];
      for k := 0 to |allVariants|
        invariant nonDominated == Surviving(allVariants[..k], allVariants)
      {
        var isDominated := FindDominator(allVariants, allVariants[k]);
        SurvivingSnoc(allVariants[..k], allVariants[k], allVariants);
        assert allVariants[..k + 1] == allVariants[..k] + [allVariants[k]];
        if !isDominated {
          nonDominated := nonDominated + [allVariants[k]];
        }
      }
      assert allVariants[..|allVariants|] == allVariants;
      if |nonDominated| > frontierSize {
        nonDominated := ByScore(nonDominated);
        nonDominated := Prefix(nonDominated, frontierSize);
      }
      paretoFrontier := nonDominated;
    }

    /** The inner loop of `_update_pareto_frontier`, which stops at the first dominator. */
    static method FindDominator(all: seq<PromptVariant>, candidate: PromptVariant) returns (isDominated: bool)
      ensures isDominated <==> DominatedIn(all, candidate)
    {
      hide Beats;
      isDominated := false;
      for m := 0 to |all|
        invariant forall j :: 0 <= j < m ==> all[j].id == candidate.id || !Beats(all[j].scores, candidate.scores, [])
      {
        var other := all[m];
        var beats := other.Dominates(candidate);
        if other.id != candidate.id && beats {
          assert other in all;
          return true;
        }
      }
    }

    /** `_combine_lessons`: per model, the content of its first most accurate variant. */
    method CombineLessons() returns (best: map<string, string>)
      ensures forall m :: m in best <==> OfModel(paretoFrontier, m) != []
      ensures forall m :: m in best ==>
        var vs := OfModel(paretoFrontier, m);
        best[m] == vs[FirstExtreme(AccuracyKeys(vs), false)].content
      ensures forall m :: m in best <==> exists v :: v in paretoFrontier && v.model == m
      ensures forall m :: m in best ==> IsLesson(paretoFrontier, m, best[m])
    {
      var byModel := GroupByModel();
      hide FirstExtreme, AccuracyKeys;
      best := map[];
      var models := byModel.Keys;
      while models != {}
        invariant models <= byModel.Keys
        invariant best.Keys == byModel.Keys - models
        invariant forall m :: m in best ==>
          best[m] == byModel[m][FirstExtreme(AccuracyKeys(byModel[m]), false)].content
        decreases models
      {
        var m :| m in models;
        models := models - {m};
        var variants := byModel[m];
        if variants != [] {
          best := best[m := variants[FirstExtreme(AccuracyKeys(variants), false)].content];
        }
      }
      forall m
        ensures m in best <==> exists v :: v in paretoFrontier && v.model == m
        ensures m in best ==> IsLesson(paretoFrontier, m, best[m])
      {
        ModelPresent(paretoFrontier, m);
        if m in best {
          LessonIsFirstBest(paretoFrontier, m);
        }
      }
    }

    /** Its first loop: the frontier's variants by model, each group in order. */
    method GroupByModel() returns (byModel: map<string, seq<PromptVariant>>)
      ensures forall m :: m in byModel <==> OfModel(paretoFrontier, m) != []
      ensures forall m :: m in byModel ==> byModel[m] == OfModel(paretoFrontier, m)
    {
      byModel := map[];
      for k := 0 to |paretoFrontier|
        invariant forall m :: m in byModel <==> OfModel(paretoFrontier[..k], m) != []
        invariant forall m :: m in byModel ==> byModel[m] == OfModel(paretoFrontier[..k], m)
      {
        var v := paretoFrontier[k];
        OfModelSnoc(paretoFrontier[..k], v);
        assert paretoFrontier[..k + 1] == paretoFrontier[..k] + [v];
        hide OfModel;
        if v.model !in byModel {
          byModel := byModel[v.model := []];
        }
        byModel := byModel[v.model := byModel[v.model] + [v]];
      }
      assert paretoFrontier[..|paretoFrontier|] == paretoFrontier;
    }
  }

  lemma {:induction false} OfModelSnoc(vs: seq<PromptVariant>, v: PromptVariant)
    ensures forall m :: OfModel(vs + [v], m) == if m == v.model then OfModel(vs, m) + [v] else OfModel(vs, m)
  {
    assert (vs + [v])[..|vs|] == vs;
  }

  // ----- which variants a trimmed frontier keeps ------------------------

  /** `v` has the larger sum of scores. */
  ghost predicate Outscores(v: PromptVariant, w: PromptVariant) {
    Sum(v.scores.order, v.scores.at) > Sum(w.scores.order, w.scores.at)
  }

  /** `vs[i]` has the larger sum of scores, or the same and comes first. */
  ghost predicate Precedes(vs: seq<PromptVariant>, i: nat, j: nat)
    requires i < |vs| && j < |vs|
  {
    Outscores(vs[i], vs[j]) || (!Outscores(vs[j], vs[i]) && i < j)
  }

  lemma {:induction false} AheadPrecedes(vs: seq<PromptVariant>, i: nat, j: nat)
    requires i < |vs| && j < |vs| && Ahead(SumKeys(vs), true, i, j)
    ensures Precedes(vs, i, j)
  {
  }

  /** The positions of the variants a trim keeps, in the order it leaves them. */
  lemma {:induction false} TrimInOrder(vs: seq<PromptVariant>, maxSize: int) returns (kept: seq<nat>)
    requires |vs| > maxSize
    ensures |kept| == (if maxSize >= 0 then maxSize else Max(0, |vs| + maxSize)) && Distinct(kept)
    ensures |Trim(vs, maxSize)| == |kept|
    ensures forall a :: 0 <= a < |kept| ==> kept[a] < |vs| && Trim(vs, maxSize)[a] == vs[kept[a]]
    ensures forall a, b :: 0 <= a < b < |kept| ==> Precedes(vs, kept[a], kept[b])
    ensures forall a, j: nat :: 0 <= a < |kept| && j < |vs| && j !in kept ==> Precedes(vs, kept[a], j)
  {
    var order := SortedIndices(SumKeys(vs), true);
    kept := Prefix(order, maxSize);
    TrimIsFront(vs, maxSize);
    FrontIsAhead(SumKeys(vs), true, order, |kept|);
    hide *;
    forall a, b | 0 <= a < b < |kept| ensures Precedes(vs, kept[a], kept[b]) {
      AheadPrecedes(vs, kept[a], kept[b]);
    }
    forall a, j: nat | 0 <= a < |kept| && j < |vs| && j !in kept ensures Precedes(vs, kept[a], j) {
      AheadPrecedes(vs, kept[a], j);
    }
  }

  lemma {:induction false} ByScoreInOrder(vs: seq<PromptVariant>, k: nat)
    requires k < |vs|
    ensures ByScore(vs)[k] == vs[SortedIndices(SumKeys(vs), true)[k]]
  {
    hide Ranked, ScoreSum, SumKeys;
  }

  lemma {:induction false} TrimIsFront(vs: seq<PromptVariant>, maxSize: int)
    requires |vs| > maxSize
    ensures var order := SortedIndices(SumKeys(vs), true);
      var kept := Prefix(order, maxSize);
      && |kept| == (if maxSize >= 0 then maxSize else Max(0, |vs| + maxSize)) && kept == order[..|kept|]
      && |Trim(vs, maxSize)| == |kept|
      && forall a :: 0 <= a < |kept| ==> kept[a] < |vs| && Trim(vs, maxSize)[a] == vs[kept[a]]
  {
    hide Ranked, ScoreSum, SumKeys, SortedIndices, Prefix, ByScore;
    var order := SortedIndices(SumKeys(vs), true);
    var m := |Prefix(order, maxSize)|;
    PrefixIs(order, maxSize);
    PrefixIs(ByScore(vs), maxSize);
    forall a | 0 <= a < m ensures order[a] < |vs| && Trim(vs, maxSize)[a] == vs[order[a]] {
      ByScoreInOrder(vs, a);
      assert order[a] in order;
    }
  }

  /** An update leaves the undominated variants as they come if they are not too many; otherwise
      `maxSize` of them, by descending sum of scores, none of which a dropped one outscores, and the
      earlier of equals. */
  lemma {:induction false} UpdateKeepsBest(front: seq<PromptVariant>, batch: seq<PromptVariant>, maxSize: int)
    returns (kept: seq<nat>)
    ensures var vs, after := Surviving(front + batch, front + batch), Update(front, batch, maxSize);
      && |after| == |kept| && Distinct(kept)
      && (|vs| <= maxSize ==> after == vs)
      && (|vs| > maxSize ==> |kept| == if maxSize >= 0 then maxSize else Max(0, |vs| + maxSize))
      && (forall a :: 0 <= a < |kept| ==> kept[a] < |vs| && after[a] == vs[kept[a]])
      && (|vs| > maxSize ==> forall a, b :: 0 <= a < b < |kept| ==> Precedes(vs, kept[a], kept[b]))
      && (forall a, j: nat :: 0 <= a < |kept| && j < |vs| && j !in kept ==> Precedes(vs, kept[a], j))
  {
    var vs := Surviving(front + batch, front + batch);
    hide Precedes, Surviving, ByScore;
    if |vs| > maxSize {
      kept := TrimInOrder(vs, maxSize);
    } else {
      kept := seq(|vs|, k => k);
      forall j: nat | j < |vs| ensures j in kept {
        assert kept[j] == j;
      }
    }
  }

  /** No variant of another name dominates it. */
  ghost predicate Stands(all: seq<PromptVariant>, v: PromptVariant) {
    forall w :: w in all && w.id != v.id ==> !Beats(w.scores, v.scores, [])
  }

  lemma {:induction false} StandsIff(all: seq<PromptVariant>, v: PromptVariant)
    ensures Stands(all, v) <==> !DominatedIn(all, v)
  {
    hide Beats;
  }

  /** `r` lists, each at its place, the candidates that stand. */
  ghost predicate ListsStanding(r: seq<PromptVariant>, at: seq<nat>, candidates: seq<PromptVariant>,
        all: seq<PromptVariant>)
  {
    && |at| == |r|
    && (forall k :: 0 <= k < |at| ==> at[k] < |candidates| && candidates[at[k]] == r[k])
    && (forall j, k :: 0 <= j < k < |at| ==> at[j] < at[k])
    && forall i: nat :: i < |candidates| ==> (i in at <==> Stands(all, candidates[i]))
  }

  lemma {:induction false} OneMoreStands(r: seq<PromptVariant>, at: seq<nat>, candidates: seq<PromptVariant>,
        c: PromptVariant, all: seq<PromptVariant>)
    requires ListsStanding(r, at, candidates, all)
    ensures Stands(all, c) ==> ListsStanding(r + [c], at + [|candidates|], candidates + [c], all)
    ensures !Stands(all, c) ==> ListsStanding(r, at, candidates + [c], all)
  {
    hide Stands;
    var more := candidates + [c];
    assert forall k :: 0 <= k < |candidates| ==> more[k] == candidates[k];
    assert forall i :: i in at + [|candidates|] <==> i in at || i == |candidates|;
    assert forall k :: 0 <= k < |at| ==> at[k] != |candidates|;
  }

  lemma {:induction false} NoneStand(all: seq<PromptVariant>)
    ensures ListsStanding(Surviving([], all), [], [], all)
  {
  }

  /** The survivors are the candidates that no variant of another name dominates; variants of the same
      name never evict each other. */
  lemma {:induction false} SurvivorsStand(candidates: seq<PromptVariant>, all: seq<PromptVariant>)
    returns (at: seq<nat>)
    ensures ListsStanding(Surviving(candidates, all), at, candidates, all)
  {
    hide *;
    if candidates == [] {
      at := [];
      NoneStand(all);
    } else {
      var n := |candidates| - 1;
      at := SurvivorsStand(candidates[..n], all);
      assert candidates == candidates[..n] + [candidates[n]];
      StandsIff(all, candidates[n]);
      SurvivingSnoc(candidates[..n], candidates[n], all);
      OneMoreStands(Surviving(candidates[..n], all), at, candidates[..n], candidates[n], all);
      assert Surviving(candidates[..n], all) + [] == Surviving(candidates[..n], all);
      if Stands(all, candidates[n]) {
        at := at + [n];
      }
    }
  }

  // ----- which lessons are kept -----------------------------------------

  /** The accuracy of a variant, 0 where it has none. */
  ghost function AccuracyOf(v: PromptVariant): real {
    if "accuracy" in v.scores.at then v.scores.at["accuracy"] else 0.0
  }

  /** The content of the first of the most accurate variants of a model. */
  ghost predicate IsLesson(front: seq<PromptVariant>, model: string, content: string) {
    exists i ::
      && 0 <= i < |front| && front[i].model == model && front[i].content == content
      && (forall j :: 0 <= j < |front| && front[j].model == model ==> AccuracyOf(front[j]) <= AccuracyOf(front[i]))
      && (forall j :: 0 <= j < i && front[j].model == model ==> AccuracyOf(front[j]) < AccuracyOf(front[i]))
  }

  /** Where the variants of one model are found. */
  lemma {:induction false} ModelPositions(front: seq<PromptVariant>, model: string) returns (at: seq<nat>)
    ensures |at| == |OfModel(front, model)|
    ensures forall k :: 0 <= k < |at| ==> at[k] < |front| && front[at[k]] == OfModel(front, model)[k]
    ensures forall j, k :: 0 <= j < k < |at| ==> at[j] < at[k]
    ensures forall i: nat :: i < |front| ==> (front[i].model == model <==> i in at)
  {
    if front == [] {
      at := [];
    } else {
      var n := |front| - 1;
      at := ModelPositions(front[..n], model);
      if front[n].model == model {
        at := at + [n];
      }
    }
  }

  lemma {:induction false} ExtremeAccuracy(vs: seq<PromptVariant>, k: nat)
    requires k < |vs|
    ensures var r := FirstExtreme(AccuracyKeys(vs), false);
      AccuracyOf(vs[k]) <= AccuracyOf(vs[r]) && (k < r ==> AccuracyOf(vs[k]) < AccuracyOf(vs[r]))
  {
    var keys := AccuracyKeys(vs);
    var r := FirstExtreme(keys, false);
    assert keys[k] == Fin(AccuracyOf(vs[k])) && keys[r] == Fin(AccuracyOf(vs[r]));
    assert !keys[r].Less(keys[k]);
    assert k < r ==> keys[k].Less(keys[r]);
    hide FirstExtreme, AccuracyKeys, AccuracyOf;
  }

  lemma {:induction false} ModelPresent(front: seq<PromptVariant>, model: string)
    ensures OfModel(front, model) != [] <==> exists v :: v in front && v.model == model
  {
    var at := ModelPositions(front, model);
    if v :| v in front && v.model == model {
      var i :| 0 <= i < |front| && front[i] == v;
      assert i in at;
    }
    if at != [] {
      assert at[0] in at && front[at[0]] in front;
    }
  }

  lemma {:induction false} PositionOfLesson(front: seq<PromptVariant>, model: string, vs: seq<PromptVariant>,
        at: seq<nat>, r: nat, j: nat)
    requires |vs| == |at| && forall k :: 0 <= k < |at| ==> at[k] < |front| && front[at[k]] == vs[k]
    requires forall a, b :: 0 <= a < b < |at| ==> at[a] < at[b]
    requires vs != [] && r == FirstExtreme(AccuracyKeys(vs), false) && j < |front| && j in at
    ensures AccuracyOf(front[j]) <= AccuracyOf(front[at[r]])
    ensures j < at[r] ==> AccuracyOf(front[j]) < AccuracyOf(front[at[r]])
  {
    hide AccuracyOf, FirstExtreme, AccuracyKeys;
    var k := PositionOf(at, j);
    assert k > r ==> at[r] < at[k];
    ExtremeAccuracy(vs, k);
  }

  lemma {:induction false} LessonIsFirstBest(front: seq<PromptVariant>, model: string)
    requires OfModel(front, model) != []
    ensures var vs := OfModel(front, model);
      IsLesson(front, model, vs[FirstExtreme(AccuracyKeys(vs), false)].content)
  {
    var vs := OfModel(front, model);
    var at := ModelPositions(front, model);
    var r := FirstExtreme(AccuracyKeys(vs), false);
    hide OfModel, AccuracyOf, FirstExtreme, AccuracyKeys;
    assert at[r] in at;
    forall j: nat | j < |front| && front[j].model == model
      ensures AccuracyOf(front[j]) <= AccuracyOf(front[at[r]])
      ensures j < at[r] ==> AccuracyOf(front[j]) < AccuracyOf(front[at[r]])
    {
      PositionOfLesson(front, model, vs, at, r, j);
    }
  }

  // ----- elitism ---------------------------------------------------------

  /** Every variant is scored on one of these sets of objectives. */
  ghost predicate ScoredOn(vs: seq<PromptVariant>, kinds: set<set<string>>) {
    forall v :: v in vs ==> v.scores.at.Keys in kinds
  }

  lemma {:induction false} SumAtMost<T(!new)>(ks: seq<T>, a: map<T, real>, b: map<T, real>)
    requires forall k :: k in ks ==> k in a && k in b && a[k] <= b[k]
    ensures Sum(ks, a) <= Sum(ks, b)
    ensures (exists k :: k in ks && a[k] < b[k]) ==> Sum(ks, a) < Sum(ks, b)
  {
    if ks == [] {
    } else {
      SumAtMost(ks[1..], a, b);
    }
  }

  /** Some member of `front` has a score sum no member of `all` exceeds. */
  ghost predicate HasTop(front: seq<PromptVariant>, all: seq<PromptVariant>) {
    exists f :: f in front && (forall v :: v in all ==> ScoreSum(v) <= ScoreSum(f))
  }

  /** With shared objectives a dominating variant has the larger score sum. */
  lemma {:induction false} DominanceRaisesSum(a: PromptVariant, b: PromptVariant)
    requires a.scores.at.Keys == b.scores.at.Keys && Beats(a.scores, b.scores, [])
    ensures ScoreSum(a) > ScoreSum(b)
  {
    var ks := a.scores.order;
    assert forall k :: k in ks <==> k in a.scores.at.Keys;
    SumSameKeys(ks, b.scores.order, b.scores.at);
    var o :| o in a.scores.at && o in b.scores.at && Worse([], o, b.scores.at[o], a.scores.at[o]);
    SumAtMost(ks, b.scores.at, a.scores.at);
  }

  lemma {:induction false} TopExists(vs: seq<PromptVariant>) returns (top: PromptVariant)
    requires vs != []
    ensures top in vs && forall v :: v in vs ==> ScoreSum(v) <= ScoreSum(top)
  {
    var n := |vs| - 1;
    assert vs == vs[..n] + [vs[n]];
    if n == 0 {
      top := vs[0];
    } else {
      top := TopExists(vs[..n]);
      if ScoreSum(top) < ScoreSum(vs[n]) {
        top := vs[n];
      }
    }
  }

  lemma {:induction false} UpdateKeepsTop(front: seq<PromptVariant>, batch: seq<PromptVariant>,
        kinds: set<set<string>>, maxSize: int)
    requires ScoredOn(front + batch, kinds) && EqualOrDisjoint(kinds) && front + batch != [] && maxSize >= 1
    ensures HasTop(Update(front, batch, maxSize), front + batch)
    ensures forall f :: f in Update(front, batch, maxSize) ==> f in front + batch
  {
    var all := front + batch;
    var top := TopExists(all);
    forall v | v in all && v.id != top.id ensures !Beats(v.scores, top.scores, []) {
      if Beats(v.scores, top.scores, []) {
        BeatsComparable(v.scores, top.scores, []);
        DominanceRaisesSum(v, top);
      }
    }
    var survivors := Surviving(all, all);
    assert top in survivors;
    if |survivors| > maxSize {
      var sorted := ByScore(survivors);
      assert sorted[0] in survivors && sorted[0] in Prefix(sorted, maxSize);
    }
  }

  /** Despite dominance filtering and trimming, the best score sum ever submitted is always
      attained in the frontier, if variants are comparable on all their objectives or on none. */
  lemma {:induction false} Elitism(batches: seq<seq<PromptVariant>>, kinds: set<set<string>>, maxSize: int)
    requires ScoredOn(Submitted(batches), kinds) && EqualOrDisjoint(kinds) && Submitted(batches) != [] && maxSize >= 1
    ensures forall f :: f in Evolve(batches, maxSize) ==> f in Submitted(batches)
    ensures HasTop(Evolve(batches, maxSize), Submitted(batches))
  {
    var n := |batches| - 1;
    var earlier := Submitted(batches[..n]);
    var front := Evolve(batches[..n], maxSize);
    assert forall v :: v in earlier ==> v in Submitted(batches);
    assert forall v :: v in batches[n] ==> v in Submitted(batches);
    if earlier == [] {
      EvolveNothing(batches[..n], maxSize);
    } else {
      Elitism(batches[..n], kinds, maxSize);
    }
    assert forall v :: v in front + batches[n] ==> v in front || v in batches[n];
    UpdateKeepsTop(front, batches[n], kinds, maxSize);
    var f :| f in Evolve(batches, maxSize) && forall v :: v in front + batches[n] ==> ScoreSum(v) <= ScoreSum(f);
    forall v | v in Submitted(batches) ensures ScoreSum(v) <= ScoreSum(f) {
      if v in earlier {
        var g :| g in front && forall u :: u in earlier ==> ScoreSum(u) <= ScoreSum(g);
        assert g in front + batches[n];
      } else {
        assert v in front + batches[n];
      }
    }
  }

  lemma {:induction false} EvolveNothing(batches: seq<seq<PromptVariant>>, maxSize: int)
    requires Submitted(batches) == [] && maxSize >= 0
    ensures Evolve(batches, maxSize) == []
  {
    if batches == [] {
    } else {
      EvolveNothing(batches[..|batches| - 1], maxSize);
    }
  }

  /** The scores a failed benchmark falls back to can evict a variant with a larger score sum. */
  lemma {:induction false} FallbackScoresEvict(maxSize: int) returns (a: PromptVariant, b: PromptVariant)
    requires maxSize >= 1
    ensures b.scores == Dict(["accuracy"], map["accuracy" := 0.5])
    ensures ScoreSum(a) > ScoreSum(b) && Update([], [a, b], maxSize) == [b]
  {
    a := PromptVariant("a", "m", "", TwoScores("accuracy", 0.4, "latency", 1.0));
    b := PromptVariant("b", "m", "", Dict(["accuracy"], map["accuracy" := 0.5]));
    assert a.scores.order == ["accuracy", "latency"] && a.scores.order[1..] == ["latency"];
    assert Sum(["latency"], a.scores.at) == 1.0 by { assert ["latency"][1..] == []; }
    assert ScoreSum(a) == 1.4;
    assert ScoreSum(b) == 0.5 by { assert ["accuracy"][1..] == []; }
    BeatsOnOnlyCommon(b.scores, a.scores, "accuracy");
    SecondEvictsFirst(a, b, maxSize);
  }

  lemma {:induction false} SecondEvictsFirst(a: PromptVariant, b: PromptVariant, maxSize: int)
    requires maxSize >= 1 && a.id != b.id && Beats(b.scores, a.scores, [])
    ensures Update([], [a, b], maxSize) == [b]
  {
    var all := [a, b];
    BeatsAsymmetric(b.scores, a.scores, []);
    hide Beats;
    assert [] + all == all && all[..1] == [a] && [a][..0] == [];
    assert b in all && a in all;
    assert DominatedIn(all, a) && !DominatedIn(all, b);
    assert Surviving([a], all) == [] + [];
    assert Surviving(all, all) == [b];
  }

  lemma {:induction false} SumOfSame(ks: seq<string>, at: map<string, real>, x: real)
    requires forall k :: k in ks ==> k in at && at[k] == x
    ensures Sum(ks, at) == |ks| as real * x
  {
    if ks == [] {
    } else {
      SumOfSame(ks[1..], at, x);
    }
  }

  /** Where two sets overlap without being equal, a variant can be evicted for a smaller sum. */
  lemma {:induction false} OverlapEvicts(s: set<string>, t: set<string>, o: string, maxSize: int)
    returns (a: PromptVariant, b: PromptVariant)
    requires s * t != {} && o in s && o !in t && maxSize >= 1
    ensures a.scores.at.Keys == s && b.scores.at.Keys == t
    ensures ScoreSum(a) > ScoreSum(b) && Update([], [a, b], maxSize) == [b]
  {
    var value := |t| as real + 1.0;
    var first, second := OverlapDefeats(s, t, o, value, []);
    a, b := PromptVariant("a", "m", "", first), PromptVariant("b", "m", "", second);
    hide Update, Beats, Sum;
    assert o in first.at.Keys;
    LoneScore(first, o, value);
    AllOnes(second);
    SecondEvictsFirst(a, b, maxSize);
  }

  lemma {:induction false} AllOnes(d: Objectives)
    requires forall k :: k in d.at ==> d.at[k] == 1.0
    ensures Sum(d.order, d.at) == |d.at.Keys| as real
  {
    var ks := d.order;
    DistinctCardinality(ks);
    assert (set k | k in ks) == d.at.Keys;
    SumOfSame(ks, d.at, 1.0);
  }

  lemma {:induction false} LoneSum(ks: seq<string>, at: map<string, real>, j: nat, value: real)
    requires Distinct(ks) && j < |ks|
    requires forall k :: k in ks ==> k in at && at[k] == if k == ks[j] then value else 0.0
    ensures Sum(ks, at) == value
  {
    hide Sum, Distinct;
    SumSplit(ks, j, at);
    RemoveDistinct(ks, j);
    SumOfSame(ks[..j] + ks[j + 1..], at, 0.0);
  }

  lemma {:induction false} LoneScore(d: Objectives, o: string, value: real)
    requires o in d.at && forall k :: k in d.at ==> d.at[k] == if k == o then value else 0.0
    ensures Sum(d.order, d.at) == value
  {
    hide Sum;
    var j :| 0 <= j < |d.order| && d.order[j] == o;
    LoneSum(d.order, d.at, j, value);
  }

  lemma {:induction false} FirstUpdate(batch: seq<PromptVariant>, maxSize: int)
    ensures Update([], batch, maxSize) == Trim(Surviving(batch, batch), maxSize)
  {
    assert [] + batch == batch;
    hide Surviving, Trim;
  }

  lemma {:induction false} NothingSurvives(v: PromptVariant, maxSize: int)
    requires maxSize <= 0
    ensures Update([], [v], maxSize) == []
  {
    FirstUpdate([v], maxSize);
    SurvivingNone([v]);
    SurvivingSnoc([], v, [v]);
    assert [] + [v] == [v];
    hide Surviving, DominatedIn;
    assert |Surviving([v], [v])| <= 1;
  }

  /** Elitism holds of every run over these objective sets exactly when no two of them overlap
      without being equal and the frontier may hold a variant at all. */
  lemma {:induction false} ElitismIff(kinds: set<set<string>>, maxSize: int)
    requires kinds != {}
    ensures EqualOrDisjoint(kinds) && maxSize >= 1 <==>
      forall batches :: ScoredOn(Submitted(batches), kinds) && Submitted(batches) != []
        ==> HasTop(Evolve(batches, maxSize), Submitted(batches))
  {
    hide HasTop;
    if EqualOrDisjoint(kinds) && maxSize >= 1 {
      forall batches | ScoredOn(Submitted(batches), kinds) && Submitted(batches) != []
        ensures HasTop(Evolve(batches, maxSize), Submitted(batches))
      {
        Elitism(batches, kinds, maxSize);
      }
    } else {
      var batch := TopIsLost(kinds, maxSize);
      OneBatch(batch, maxSize);
      assert !HasTop(Evolve([batch], maxSize), Submitted([batch]));
    }
  }

  lemma {:induction false} OneBatch(batch: seq<PromptVariant>, maxSize: int)
    ensures Submitted([batch]) == batch && Evolve([batch], maxSize) == Update([], batch, maxSize)
  {
    assert [batch][..0] == [] && [] + batch == batch;
    hide Update;
  }

  lemma {:induction false} TopIsLost(kinds: set<set<string>>, maxSize: int) returns (batch: seq<PromptVariant>)
    requires kinds != {} && (!EqualOrDisjoint(kinds) || maxSize < 1)
    ensures batch != [] && ScoredOn(batch, kinds) && !HasTop(Update([], batch, maxSize), batch)
  {
    if maxSize < 1 {
      var s :| s in kinds;
      var v := PromptVariant("", "", "", Scored(s, _ => 0.0, []));
      NothingSurvives(v, maxSize);
      batch := [v];
    } else {
      var s, t, o := Overlap(kinds);
      var a, b := OverlapEvicts(s, t, o, maxSize);
      batch := [a, b];
      assert a in batch;
      hide Update, ScoreSum;
    }
  }

  lemma {:induction false} AllDominated(candidates: seq<PromptVariant>, all: seq<PromptVariant>)
    requires forall k :: 0 <= k < |candidates| ==> DominatedIn(all, candidates[k])
    ensures Surviving(candidates, all) == []
  {
    hide DominatedIn;
    if candidates == [] {
    } else {
      AllDominated(candidates[..|candidates| - 1], all);
    }
  }

  lemma {:induction false} EvictEachOther(batch: seq<PromptVariant>, maxSize: int)
    requires |batch| == 3
    requires batch[0].id != batch[1].id && batch[1].id != batch[2].id && batch[2].id != batch[0].id
    requires Beats(batch[0].scores, batch[1].scores, []) && Beats(batch[1].scores, batch[2].scores, [])
    requires Beats(batch[2].scores, batch[0].scores, [])
    ensures DistinctIds(batch) && Update([], batch, maxSize) == []
  {
    hide *;
    forall k | 0 <= k < |batch| ensures DominatedIn(batch, batch[k]) {
      Evicted(batch, if k == 0 then batch[2] else batch[k - 1], batch[k]);
    }
    AllDominated(batch, batch);
    FirstUpdate(batch, maxSize);
    NothingToTrim(maxSize);
    ThreeDistinctIds(batch);
  }

  lemma {:induction false} ThreeDistinctIds(batch: seq<PromptVariant>)
    requires |batch| == 3
    requires batch[0].id != batch[1].id && batch[1].id != batch[2].id && batch[2].id != batch[0].id
    ensures DistinctIds(batch)
  {
  }

  lemma {:induction false} NothingToTrim(maxSize: int)
    ensures Trim([], maxSize) == []
  {
  }

  lemma {:induction false} Evicted(all: seq<PromptVariant>, v: PromptVariant, c: PromptVariant)
    requires v in all && v.id != c.id && Beats(v.scores, c.scores, [])
    ensures DominatedIn(all, c)
  {
  }

  /** Three variants with given scores. */
  lemma {:induction false} Named(a: Objectives, b: Objectives, c: Objectives)
    returns (p: PromptVariant, q: PromptVariant, r: PromptVariant)
    ensures p.scores == a && q.scores == b && r.scores == c
    ensures p.id != q.id && q.id != r.id && r.id != p.id
  {
    p, q, r := PromptVariant("a", "", "", a), PromptVariant("b", "", "", b), PromptVariant("c", "", "", c);
  }

  /** Without transitivity even a non-empty batch can leave nothing: three variants that beat each
      other in a cycle evict each other. */
  lemma {:induction false} CycleEmptiesFrontier(x: string, y: string, z: string, maxSize: int)
    returns (batch: seq<PromptVariant>)
    requires x != y && y != z && z != x
    ensures |batch| == 3 && DistinctIds(batch) && Update([], batch, maxSize) == []
  {
    var a, b, c := MixedObjectivesCanCycle(x, y, z);
    hide *;
    var p, q, r := Named(a, b, c);
    batch := [p, q, r];
    EvictEachOther(batch, maxSize);
  }

  // ----- batch and archive agree ----------------------------------------

  function AsSolution(v: PromptVariant): Solution {
    Solution(v.id, v.scores, v.content)
  }

  function AsSolutions(vs: seq<PromptVariant>): (r: seq<Solution>)
    ensures |r| == |vs|
    ensures forall i :: 0 <= i < |vs| ==> r[i] == AsSolution(vs[i])
  {
    seq(|vs|, i requires 0 <= i < |vs| => AsSolution(vs[i]))
  }

  ghost predicate DistinctIds(vs: seq<PromptVariant>) {
    forall i, j :: 0 <= i < j < |vs| ==> vs[i].id != vs[j].id
  }

  lemma {:induction false} DominatedIsBeaten(all: seq<PromptVariant>, c: PromptVariant)
    requires DistinctIds(all) && c in all
    ensures DominatedIn(all, c) <==> BeatenBy(AsSolutions(all), AsSolution(c), [])
  {
    BeatsIrreflexive(c.scores, []);
    hide Beats;
    var sols := AsSolutions(all);
    if DominatedIn(all, c) {
      var v :| v in all && v.id != c.id && Beats(v.scores, c.scores, []);
      var i :| 0 <= i < |all| && all[i] == v;
      assert sols[i] in sols;
    }
    if BeatenBy(sols, AsSolution(c), []) {
      var e :| e in sols && Beats(e.objectives, c.scores, []);
      var i :| 0 <= i < |all| && sols[i] == e;
      var j :| 0 <= j < |all| && all[j] == c;
      assert i != j && all[i] in all;
    }
  }

  lemma {:induction false} SurvivingIsMaximal(candidates: seq<PromptVariant>, all: seq<PromptVariant>)
    requires DistinctIds(all) && forall c :: c in candidates ==> c in all
    ensures AsSolutions(Surviving(candidates, all)) == Maximal(AsSolutions(candidates), AsSolutions(all), [])
  {
    if candidates == [] {
    } else {
      var n := |candidates| - 1;
      SurvivingIsMaximal(candidates[..n], all);
      DominatedIsBeaten(all, candidates[n]);
      hide DominatedIn, BeatenBy;
      assert AsSolutions(candidates)[..n] == AsSolutions(candidates[..n]);
    }
  }

  /** Two algorithms, one frontier: while no size limit is reached, offering variants one by one
      to the archive leaves the same solutions in the same order as one batch update. */
  lemma {:induction false} IncrementalEqualsBatch(vs: seq<PromptVariant>, kinds: set<set<string>>, archiveSize: int,
        frontierSize: int)
    requires DistinctIds(vs) && ScoredOn(vs, kinds) && TransitiveKinds(kinds)
    requires NeverFull(AsSolutions(vs), [], archiveSize)
    requires |Surviving(vs, vs)| <= frontierSize
    ensures OfferAll(AsSolutions(vs), [], archiveSize) == AsSolutions(Update([], vs, frontierSize))
  {
    assert [] + vs == vs;
    AsSolutionsMembers(vs, kinds);
    SurvivingIsMaximal(vs, vs);
    ArchiveIsFrontier(AsSolutions(vs), kinds, [], archiveSize);
  }

  lemma {:induction false} SurvivingShrinks(candidates: seq<PromptVariant>, all: seq<PromptVariant>)
    ensures |Surviving(candidates, all)| <= |candidates|
  {
    if candidates == [] {
    } else {
      SurvivingShrinks(candidates[..|candidates| - 1], all);
    }
  }

  lemma {:induction false} ThreeDiffer(vs: seq<PromptVariant>)
    requires |vs| == 3
    requires vs[0].id != vs[1].id && vs[1].id != vs[2].id && vs[2].id != vs[0].id
    requires Beats(vs[0].scores, vs[1].scores, []) && Beats(vs[1].scores, vs[2].scores, [])
    requires !Beats(vs[0].scores, vs[2].scores, [])
    ensures DistinctIds(vs) && OfferAll(AsSolutions(vs), [], 3) != AsSolutions(Update([], vs, 3))
  {
    var a, b, c := AsSolution(vs[0]), AsSolution(vs[1]), AsSolution(vs[2]);
    assert AsSolutions(vs) == [a, b, c];
    assert a.objectives == vs[0].scores && b.objectives == vs[1].scores && c.objectives == vs[2].scores;
    hide *;
    ThreeDistinctIds(vs);
    NotCovered(a, b, c, []);
    UntrimmedUpdate(vs, 3);
  }

  /** Three variants on which the two algorithms differ. */
  lemma {:induction false} BatchDiffers(s: set<string>, t: set<string>, u: set<string>) returns (vs: seq<PromptVariant>)
    requires !TransitiveOn(s, t, u)
    ensures |vs| == 3 && DistinctIds(vs) && ScoredOn(vs, {s, t, u})
    ensures OfferAll(AsSolutions(vs), [], 3) != AsSolutions(Update([], vs, 3))
  {
    var a, b, c := NotTransitive(s, t, u, []);
    hide *;
    var p, q, r := Named(a, b, c);
    vs := [p, q, r];
    ThreeDiffer(vs);
    ThreeScored(vs, {s, t, u});
  }

  lemma {:induction false} UntrimmedUpdate(vs: seq<PromptVariant>, maxSize: int)
    requires DistinctIds(vs) && |vs| <= maxSize
    ensures AsSolutions(Update([], vs, maxSize)) == Frontier(AsSolutions(vs), [])
  {
    FirstUpdate(vs, maxSize);
    SurvivingShrinks(vs, vs);
    SurvivingIsMaximal(vs, vs);
  }

  /** They agree for every population over these objective sets that reaches no size limit exactly
      when dominance between the sets is transitive. */
  lemma {:induction false} IncrementalEqualsBatchIff(kinds: set<set<string>>)
    ensures TransitiveKinds(kinds) <==>
      forall vs, archiveSize, frontierSize ::
        && DistinctIds(vs) && ScoredOn(vs, kinds)
        && NeverFull(AsSolutions(vs), [], archiveSize) && |Surviving(vs, vs)| <= frontierSize
        ==> OfferAll(AsSolutions(vs), [], archiveSize) == AsSolutions(Update([], vs, frontierSize))
  {
    hide NeverFull, OfferAll, Update, Surviving, TransitiveOn;
    if TransitiveKinds(kinds) {
      forall vs, archiveSize, frontierSize
        | DistinctIds(vs) && ScoredOn(vs, kinds) && NeverFull(AsSolutions(vs), [], archiveSize)
          && |Surviving(vs, vs)| <= frontierSize
        ensures OfferAll(AsSolutions(vs), [], archiveSize) == AsSolutions(Update([], vs, frontierSize))
      {
        IncrementalEqualsBatch(vs, kinds, archiveSize, frontierSize);
      }
    } else {
      var s, t, u :| s in kinds && t in kinds && u in kinds && !TransitiveOn(s, t, u);
      var vs := BatchDiffers(s, t, u);
      assert forall x :: x in {s, t, u} ==> x in kinds;
      ShortIsNeverFull(AsSolutions(vs), [], 3);
      SurvivingShrinks(vs, vs);
    }
  }

  lemma {:induction false} AsSolutionsConcat(a: seq<PromptVariant>, b: seq<PromptVariant>)
    ensures AsSolutions(a + b) == AsSolutions(a) + AsSolutions(b)
  {
  }

  lemma {:induction false} AsSolutionsMembers(vs: seq<PromptVariant>, kinds: set<set<string>>)
    requires ScoredOn(vs, kinds)
    ensures AllOfKinds(AsSolutions(vs), kinds)
  {
    forall s | s in AsSolutions(vs) ensures s.objectives.at.Keys in kinds {
      var i :| 0 <= i < |vs| && AsSolutions(vs)[i] == s;
      assert vs[i] in vs;
    }
  }

  /** After no cycle do the undominated variants exceed the frontier size. */
  ghost predicate NeverTrimmed(batches: seq<seq<PromptVariant>>, maxSize: int) {
    && |Frontier(AsSolutions(Submitted(batches)), [])| <= maxSize
    && (batches != [] ==> NeverTrimmed(batches[..|batches| - 1], maxSize))
  }

  /** However the variants are grouped into cycles, as long as nothing was trimmed the frontier is
      that of all of them together. */
  lemma {:induction false} GroupingDoesNotMatter(batches: seq<seq<PromptVariant>>, kinds: set<set<string>>,
        maxSize: int)
    requires DistinctIds(Submitted(batches)) && ScoredOn(Submitted(batches), kinds) && TransitiveKinds(kinds)
    requires NeverTrimmed(batches, maxSize)
    ensures AsSolutions(Evolve(batches, maxSize)) == Frontier(AsSolutions(Submitted(batches)), [])
    ensures DistinctIds(Evolve(batches, maxSize))
    ensures forall v :: v in Evolve(batches, maxSize) ==> v in Submitted(batches)
  {
    if batches == [] {
    } else {
      var n := |batches| - 1;
      var past, front, batch := Submitted(batches[..n]), Evolve(batches[..n], maxSize), batches[n];
      assert forall v :: v in past || v in batch ==> v in past + batch;
      DistinctIdsSplit(past, batch);
      GroupingDoesNotMatter(batches[..n], kinds, maxSize);
      DistinctIdsJoin(front, past, batch);
      AsSolutionsConcat(front, batch);
      AsSolutionsConcat(past, batch);
      AsSolutionsMembers(past + batch, kinds);
      FrontierOfFrontier(AsSolutions(past), AsSolutions(batch), kinds, []);
      SurvivingIsMaximal(front + batch, front + batch);
      SurvivingDistinct(front + batch, front + batch);
    }
  }

  /** A variant whose dominator was itself dominated earlier comes back in a later cycle. */
  lemma {:induction false} LaterCycleForgets(p: PromptVariant, q: PromptVariant, r: PromptVariant)
    requires p.id != q.id && q.id != r.id && r.id != p.id
    requires Beats(p.scores, q.scores, []) && Beats(q.scores, r.scores, []) && !Beats(p.scores, r.scores, [])
    ensures r in Update(Update([], [p, q], 3), [r], 3)
  {
    var front := Update([], [p, q], 3);
    BeatsIrreflexive(r.scores, []);
    hide Beats;
    FirstUpdate([p, q], 3);
    SurvivingShrinks([p, q], [p, q]);
    assert p in [p, q] && DominatedIn([p, q], q);
    assert forall v :: v in front ==> v == p;
    assert !DominatedIn(front + [r], r);
    SurvivingShrinks(front + [r], front + [r]);
    assert r in front + [r] && r in Surviving(front + [r], front + [r]);
    hide Surviving, DominatedIn, ByScore;
  }

  /** Two cycles over three variants whose frontier is not that of all of them together. */
  lemma {:induction false} ThreeGrouped(p: PromptVariant, q: PromptVariant, r: PromptVariant)
    returns (batches: seq<seq<PromptVariant>>)
    requires p.id != q.id && q.id != r.id && r.id != p.id
    requires Beats(p.scores, q.scores, []) && Beats(q.scores, r.scores, []) && !Beats(p.scores, r.scores, [])
    ensures var all := Submitted(batches); |all| == 3 && all[0] == p && all[1] == q && all[2] == r
    ensures DistinctIds(Submitted(batches)) && NeverTrimmed(batches, 3)
    ensures AsSolutions(Evolve(batches, 3)) != Frontier(AsSolutions(Submitted(batches)), [])
  {
    hide *;
    batches := [[p, q], [r]];
    TwoCycles([p, q], [r], 3);
    assert [p, q] + [r] == [p, q, r];
    ThreeDistinctIds([p, q, r]);
    LaterCycleForgets(p, q, r);
    CycleDiffers(p, q, r, Evolve(batches, 3));
  }

  lemma {:induction false} GroupingMatters(s: set<string>, t: set<string>, u: set<string>)
    returns (batches: seq<seq<PromptVariant>>)
    requires !TransitiveOn(s, t, u)
    ensures ScoredOn(Submitted(batches), {s, t, u}) && DistinctIds(Submitted(batches)) && NeverTrimmed(batches, 3)
    ensures AsSolutions(Evolve(batches, 3)) != Frontier(AsSolutions(Submitted(batches)), [])
  {
    var a, b, c := NotTransitive(s, t, u, []);
    hide *;
    var p, q, r := Named(a, b, c);
    batches := ThreeGrouped(p, q, r);
    ThreeScored(Submitted(batches), {s, t, u});
  }

  lemma {:induction false} ThreeScored(vs: seq<PromptVariant>, kinds: set<set<string>>)
    requires |vs| == 3
    requires vs[0].scores.at.Keys in kinds && vs[1].scores.at.Keys in kinds && vs[2].scores.at.Keys in kinds
    ensures ScoredOn(vs, kinds)
  {
  }

  lemma {:induction false} TwoCycles(first: seq<PromptVariant>, second: seq<PromptVariant>, maxSize: int)
    requires |first| + |second| <= maxSize
    ensures Submitted([first, second]) == first + second
    ensures Evolve([first, second], maxSize) == Update(Update([], first, maxSize), second, maxSize)
    ensures NeverTrimmed([first, second], maxSize)
  {
    var both := [first, second];
    assert both[..1] == [first];
    OneBatch(first, maxSize);
    assert Submitted(both) == first + second && [first][..0] == [] && Submitted([]) == [];
    MaximalShrinks(AsSolutions(first + second), AsSolutions(first + second), []);
    MaximalShrinks(AsSolutions(first), AsSolutions(first), []);
    MaximalShrinks([], [], []);
    assert AsSolutions([]) == [];
    hide Update, Maximal;
    assert NeverTrimmed([], maxSize);
    assert NeverTrimmed([first], maxSize);
  }

  lemma {:induction false} CycleDiffers(p: PromptVariant, q: PromptVariant, r: PromptVariant, front: seq<PromptVariant>)
    requires Beats(q.scores, r.scores, []) && r in front
    ensures AsSolutions(front) != Frontier(AsSolutions([p, q, r]), [])
  {
    hide Beats;
    var all, x := AsSolutions([p, q, r]), AsSolution(r);
    assert all[1] == AsSolution(q) && all[1] in all;
    assert BeatenBy(all, x, []);
    var i :| 0 <= i < |front| && front[i] == r;
    assert AsSolutions(front)[i] == x && x in AsSolutions(front);
    hide BeatenBy;
    assert x !in Frontier(all, []);
  }

  /** For every untrimmed run over these objective sets, exactly when dominance between them is
      transitive. */
  lemma {:induction false} GroupingDoesNotMatterIff(kinds: set<set<string>>)
    ensures TransitiveKinds(kinds) <==>
      forall batches, maxSize ::
        DistinctIds(Submitted(batches)) && ScoredOn(Submitted(batches), kinds) && NeverTrimmed(batches, maxSize)
        ==> AsSolutions(Evolve(batches, maxSize)) == Frontier(AsSolutions(Submitted(batches)), [])
  {
    hide NeverTrimmed, Evolve, Frontier, Submitted, TransitiveOn, DistinctIds;
    if TransitiveKinds(kinds) {
      forall batches, maxSize
        | DistinctIds(Submitted(batches)) && ScoredOn(Submitted(batches), kinds) && NeverTrimmed(batches, maxSize)
        ensures AsSolutions(Evolve(batches, maxSize)) == Frontier(AsSolutions(Submitted(batches)), [])
      {
        GroupingDoesNotMatter(batches, kinds, maxSize);
      }
    } else {
      var s, t, u :| s in kinds && t in kinds && u in kinds && !TransitiveOn(s, t, u);
      var batches := GroupingMatters(s, t, u);
      assert forall x :: x in {s, t, u} ==> x in kinds;
    }
  }

  lemma {:induction false} DistinctIdsSplit(a: seq<PromptVariant>, b: seq<PromptVariant>)
    requires DistinctIds(a + b)
    ensures DistinctIds(a)
  {
    forall i, j | 0 <= i < j < |a| ensures a[i].id != a[j].id {
      assert (a + b)[i].id != (a + b)[j].id;
    }
  }

  lemma {:induction false} DistinctIdsJoin(front: seq<PromptVariant>, past: seq<PromptVariant>,
        batch: seq<PromptVariant>)
    requires DistinctIds(front) && DistinctIds(past + batch) && forall v :: v in front ==> v in past
    ensures DistinctIds(front + batch)
  {
    var all := front + batch;
    forall i, j | 0 <= i < j < |all| ensures all[i].id != all[j].id {
      if i < |front| <= j {
        assert front[i] in front;
        var k :| 0 <= k < |past| && past[k] == front[i];
        assert (past + batch)[k].id != (past + batch)[|past| + j - |front|].id;
      } else if |front| <= i {
        assert (past + batch)[|past| + i - |front|].id != (past + batch)[|past| + j - |front|].id;
      }
    }
  }

  lemma {:induction false} SurvivingDistinct(candidates: seq<PromptVariant>, all: seq<PromptVariant>)
    requires DistinctIds(candidates)
    ensures DistinctIds(Surviving(candidates, all))
  {
    if candidates == [] {
    } else {
      var n := |candidates| - 1;
      SurvivingDistinct(candidates[..n], all);
      forall x | x in Surviving(candidates[..n], all) ensures x.id != candidates[n].id {
        var i :| 0 <= i < n && candidates[i] == x;
      }
    }
  }

  // ----- the trajectory buffer ------------------------------------------

  /** What the buffer holds after the trajectories `ts`. */
  function Latest(ts: seq<Trajectory>, sampleSize: int): seq<Trajectory> {
    if sampleSize > 0 then ts[Max(0, |ts| - 2 * sampleSize)..]
    else if sampleSize == 0 then ts
    else []
  }

  lemma {:induction false} RecordLatest(ts: seq<Trajectory>, t: Trajectory, sampleSize: int)
    ensures Record(Latest(ts, sampleSize), t, sampleSize) == Latest(ts + [t], sampleSize)
  {
  }

  /** For a positive sample size the buffer holds exactly the latest `2 * sampleSize`
      trajectories; for zero the slice `[-0:]` never drops anything; for a negative one nothing
      is ever kept. */
  lemma {:induction false} BufferContents(ts: seq<Trajectory>, sampleSize: int)
    ensures RecordAll(ts, sampleSize) == Latest(ts, sampleSize)
  {
    if ts == [] {
    } else {
      var n := |ts| - 1;
      BufferContents(ts[..n], sampleSize);
      assert ts == ts[..n] + [ts[n]];
      RecordLatest(ts[..n], ts[n], sampleSize);
      hide Record, Latest;
    }
  }

  /** Hence the buffer is bounded by twice the sample size exactly when that size is not zero. */
  lemma {:induction false} BufferBoundedIff(sampleSize: int)
    ensures (forall ts :: |RecordAll(ts, sampleSize)| <= Max(0, sampleSize * 2)) <==> sampleSize != 0
  {
    forall ts ensures sampleSize != 0 ==> |RecordAll(ts, sampleSize)| <= Max(0, sampleSize * 2) {
      BufferContents(ts, sampleSize);
    }
    if sampleSize == 0 {
      var one := [Trajectory("", "", true)];
      BufferContents(one, sampleSize);
      assert |RecordAll(one, sampleSize)| == 1;
    }
  }
}
