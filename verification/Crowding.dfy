/** Crowding distances and pruning (src/gepa/pareto.py:94-145). */
module Crowding {
  import opened Prelude
  import opened Ranking
  import opened Dominance

  /** The values of one objective, 0 where a solution lacks it. */
  function Column(sols: seq<Solution>, o: string): (v: seq<real>)
    ensures |v| == |sols|
  {
    seq(|sols|, i requires 0 <= i < |sols| => Get(sols[i].objectives, o, 0.0))
  }

  function AsKeys(vals: seq<real>): (k: seq<Ext>)
    ensures |k| == |vals|
    ensures forall i :: 0 <= i < |vals| ==> k[i] == Fin(vals[i])
  {
    seq(|vals|, i requires 0 <= i < |vals| => Fin(vals[i]))
  }

  /** The indices in ascending order of value. */
  function Ascending(vals: seq<real>): (order: seq<nat>)
    ensures |order| == |vals|
    ensures forall m: nat :: m in order <==> m < |vals|
    ensures forall p :: 0 <= p < |order| ==> order[p] < |vals|
  {
    SortedIndices(AsKeys(vals), false)
  }

  /** The values in ascending order. */
  function Sorted(vals: seq<real>): (w: seq<real>)
    ensures |w| == |vals|
  {
    var order := Ascending(vals);
    seq(|vals|, p requires 0 <= p < |vals| => vals[order[p]])
  }

  ghost predicate Increasing(w: seq<real>) {
    forall p, q :: 0 <= p <= q < |w| ==> w[p] <= w[q]
  }

  lemma {:induction false} AscendingIncreases(vals: seq<real>)
    ensures Distinct(Ascending(vals)) && Increasing(Sorted(vals))
  {
    var order := Ascending(vals);
    RankedDistinct(AsKeys(vals), false, order);
    forall p, q | 0 <= p <= q < |vals| ensures vals[order[p]] <= vals[order[q]] {
      if p < q { assert Ahead(AsKeys(vals), false, order[p], order[q]); }
    }
  }

  function Share(x: real, range: real): real
    requires range != 0.0
  {
    x / range
  }

  /** What position `p` of the ascending values `w` contributes: infinity at both ends, and
      inside the gap between the two neighbours as a share of the whole range. */
  function GapAt(w: seq<real>, p: nat): Ext
    requires p < |w|
  {
    var range := w[|w| - 1] - w[0];
    if p == 0 || p == |w| - 1 then PosInf
    else if range == 0.0 then Fin(0.0)
    else Fin(Share(w[p + 1] - w[p - 1], range))
  }

  /** What one objective adds to the distance of solution `i`. */
  function Gap(vals: seq<real>, i: nat): Ext
    requires i < |vals|
  {
    GapAt(Sorted(vals), PositionOf(Ascending(vals), i))
  }

  function Combine(d: Ext, gap: Ext): Ext {
    if gap.Fin? then d.Plus(gap.r) else PosInf
  }

  /** The contributions of one objective to every solution. */
  function Gaps(vals: seq<real>): (g: seq<Ext>)
    ensures |g| == |vals|
    ensures forall i :: 0 <= i < |g| ==> g[i] == Gap(vals, i)
  {
    seq(|vals|, i requires 0 <= i < |vals| => Gap(vals, i))
  }

  /** One row of contributions per objective. */
  function GapTable(sols: seq<Solution>, objectives: seq<string>): (t: seq<seq<Ext>>)
    ensures |t| == |objectives|
    ensures forall k :: 0 <= k < |t| ==> t[k] == Gaps(Column(sols, objectives[k])) && |t[k]| == |sols|
  {
    seq(|objectives|, k requires 0 <= k < |objectives| => Gaps(Column(sols, objectives[k])))
  }

  /** The distance of solution `i` over the first `k` rows. */
  function Distance(table: seq<seq<Ext>>, k: nat, i: nat): Ext
    requires k <= |table| && forall j :: 0 <= j < k ==> i < |table[j]|
  {
    if k == 0 then Fin(0.0) else Combine(Distance(table, k - 1, i), table[k - 1][i])
  }

  function Distances(table: seq<seq<Ext>>, k: nat, n: nat): (d: seq<Ext>)
    requires k <= |table| && forall j :: 0 <= j < k ==> |table[j]| == n
    ensures |d| == n
    ensures forall i :: 0 <= i < n ==> d[i] == Distance(table, k, i)
  {
    seq(n, i requires 0 <= i < n => Distance(table, k, i))
  }

  /** The objectives the distance is measured on: those of the first solution. */
  function ObjectiveList(sols: seq<Solution>): seq<string> {
    if sols == [] then [] else sols[0].objectives.order
  }

  /** The crowding distances of a frontier. */
  function Crowded(sols: seq<Solution>): (d: seq<Ext>)
    ensures |d| == |sols|
  {
    Distances(GapTable(sols, ObjectiveList(sols)), |ObjectiveList(sols)|, |sols|)
  }

  // ----- the algorithm ---------------------------------------------------

  method MaxOf(vals: seq<real>) returns (m: real)
    requires vals != []
    ensures m in vals && forall i :: 0 <= i < |vals| ==> vals[i] <= m
  {
    m := vals[0];
    for k := 1 to |vals|
      invariant m in vals && forall i :: 0 <= i < k ==> vals[i] <= m
    {
      if vals[k] > m { m := vals[k]; }
    }
  }

  method MinOf(vals: seq<real>) returns (m: real)
    requires vals != []
    ensures m in vals && forall i :: 0 <= i < |vals| ==> m <= vals[i]
  {
    m := vals[0];
    for k := 1 to |vals|
      invariant m in vals && forall i :: 0 <= i < k ==> m <= vals[i]
    {
      if vals[k] < m { m := vals[k]; }
    }
  }

  /** The pass of `_calculate_crowding_distances` over one objective, in place. */
  method AddGaps(vals: seq<real>, distances: array<Ext>)
    requires vals != [] && distances.Length == |vals|
    modifies distances
    ensures forall i: nat :: i < |vals| ==> distances[i] == Combine(old(distances[i]), Gaps(vals)[i])
  {
    var n := |vals|;
    var order := SortedIndices(AsKeys(vals), false);
    assert order == Ascending(vals);
    var objValues := seq(n, p requires 0 <= p < n => vals[order[p]]);
    assert objValues == Sorted(vals);
    AscendingIncreases(vals);
    AddGapsInOrder(order, objValues, distances);
    forall i: nat | i < n ensures distances[i] == Combine(old(distances[i]), Gaps(vals)[i]) {
      assert order[PositionOf(order, i)] == i;
    }
  }

  method AddGapsInOrder(order: seq<nat>, objValues: seq<real>, distances: array<Ext>)
    requires |order| == |objValues| == distances.Length > 0
    requires forall p :: 0 <= p < |order| ==> order[p] < distances.Length
    requires Distinct(order) && Increasing(objValues)
    modifies distances
    ensures forall p: nat :: p < |order| ==>
      distances[order[p]] == Combine(old(distances[order[p]]), GapAt(objValues, p))
  {
    var n := |order|;
    distances[order[0]] := PosInf;
    distances[order[n - 1]] := PosInf;

    var high := MaxOf(objValues);
    var low := MinOf(objValues);
    assert objValues[0] == low && objValues[n - 1] == high;
    var objRange := high - low;
    if objRange == 0.0 {
      forall p: nat | p < n
        ensures distances[order[p]] == Combine(old(distances[order[p]]), GapAt(objValues, p))
      {
        PlusZero(old(distances[order[p]]));
      }
    } else {
      var p := 1;
      while p < n - 1
        invariant 1 <= p <= Max(1, n - 1)
        invariant forall q: nat :: q < n && (q < p || q == n - 1) ==>
          distances[order[q]] == Combine(old(distances[order[q]]), GapAt(objValues, q))
        invariant forall q: nat :: p <= q < n - 1 ==> distances[order[q]] == old(distances[order[q]])
      {
        distances[order[p]] := distances[order[p]].Plus((objValues[p + 1] - objValues[p - 1]) / objRange);
        p := p + 1;
      }
    }
  }

  lemma {:induction false} PlusZero(d: Ext)
    ensures d.Plus(0.0) == d
  {
  }

  /** `_calculate_crowding_distances`. */
  method CalculateCrowdingDistances(sols: seq<Solution>) returns (d: seq<Ext>)
    ensures d == Crowded(sols)
  {
    var n := |sols|;
    if n == 0 {
      return [];
    }
    var distances := new Ext[n](_ => Fin(0.0));
    var objectives := sols[0].objectives.order;
    ghost var table := GapTable(sols, objectives);
    for k := 0 to |objectives|
      invariant forall i: nat :: i < n ==> distances[i] == Distance(table, k, i)
    {
      ghost var before := distances[..];
      AddGaps(Column(sols, objectives[k]), distances);
      assert forall i: nat :: i < n ==> distances[i] == Combine(before[i], table[k][i]);
    }
    return distances[..];
  }

  // ----- bounds ----------------------------------------------------------

  function FinitePart(d: Ext): real {
    if d.Fin? then d.r else 0.0
  }

  /** Every finite contribution lies between 0 and 1. */
  lemma {:induction false} GapBounds(w: seq<real>, p: nat)
    requires p < |w| && Increasing(w)
    ensures !GapAt(w, p).NegInf?
    ensures 0.0 <= FinitePart(GapAt(w, p)) <= 1.0
  {
    var range := w[|w| - 1] - w[0];
    if p != 0 && p != |w| - 1 && range != 0.0 {
      Ratio(w[p + 1] - w[p - 1], range);
    }
  }

  lemma {:induction false} Ratio(x: real, range: real)
    requires 0.0 <= x <= range && range > 0.0
    ensures 0.0 <= Share(x, range) <= 1.0
  {
  }

  lemma {:induction false} AddRatio(x: real, range: real, rest: real, total: real)
    requires range > 0.0 && rest * range == total
    ensures (Share(x, range) + rest) * range == x + total
  {
    assert (x / range) * range == x;
  }

  lemma {:induction false} AtMostTwice(x: real, range: real, total: real)
    requires range > 0.0 && x * range == total && total <= 2.0 * range
    ensures x <= 2.0
  {
  }

  ghost function TailGaps(w: seq<real>, p: nat): real
    requires p <= |w|
    decreases |w| - p
  {
    if p == |w| then 0.0 else FinitePart(GapAt(w, p)) + TailGaps(w, p + 1)
  }

  /** The interior gaps from position `p` on telescope to the last two values less the two
      before the start. */
  lemma {:induction false} GapsTelescope(w: seq<real>, p: nat, range: real)
    requires 1 <= p < |w| && range == w[|w| - 1] - w[0] > 0.0
    ensures TailGaps(w, p) * range == w[|w| - 1] + w[|w| - 2] - w[p] - w[p - 1]
    decreases |w| - p
  {
    var rest := TailGaps(w, p + 1);
    if p == |w| - 1 {
      assert TailGaps(w, p) == FinitePart(GapAt(w, p)) + rest == 0.0;
    } else {
      GapsTelescope(w, p + 1, range);
      AddRatio(w[p + 1] - w[p - 1], range, rest, w[|w| - 1] + w[|w| - 2] - w[p + 1] - w[p]);
      assert TailGaps(w, p) == Share(w[p + 1] - w[p - 1], range) + rest;
    }
  }

  lemma {:induction false} FlatGaps(w: seq<real>, p: nat)
    requires 1 <= p <= |w| && w[|w| - 1] == w[0]
    ensures TailGaps(w, p) == 0.0
    decreases |w| - p
  {
    if p == |w| {
    } else {
      FlatGaps(w, p + 1);
    }
  }

  /** The finite contributions of one objective sum to at most 2. */
  lemma {:induction false} GapTotal(w: seq<real>)
    requires w != [] && Increasing(w)
    ensures TailGaps(w, 0) <= 2.0
  {
    assert TailGaps(w, 0) == TailGaps(w, 1);
    var range := w[|w| - 1] - w[0];
    if range == 0.0 {
      FlatGaps(w, 1);
    } else {
      GapsTelescope(w, 1, range);
      assert w[|w| - 2] <= w[|w| - 1] && w[0] <= w[1];
      AtMostTwice(TailGaps(w, 1), range, w[|w| - 1] + w[|w| - 2] - w[1] - w[0]);
    }
  }

  ghost function Indices(n: nat): (s: seq<nat>)
    ensures |s| == n && forall i :: 0 <= i < n ==> s[i] == i
    ensures forall m: nat :: m in s <==> m < n
  {
    if n == 0 then [] else Indices(n - 1) + [n - 1]
  }

  ghost function Parts(d: seq<Ext>): (m: map<nat, real>)
    ensures forall i: nat :: i in m <==> i < |d|
    ensures forall i: nat :: i < |d| ==> m[i] == FinitePart(d[i])
  {
    map i: nat | i < |d| :: FinitePart(d[i])
  }

  /** The sum of the finite entries. */
  ghost function FiniteTotal(d: seq<Ext>): real {
    Sum(Indices(|d|), Parts(d))
  }

  lemma {:induction false} PositionOfRanked(order: seq<nat>, p: nat)
    requires p < |order| && Distinct(order)
    ensures PositionOf(order, order[p]) == p
  {
  }

  lemma {:induction false} GapsInOrder(vals: seq<real>, p: nat)
    requires p <= |vals|
    ensures Sum(Ascending(vals)[p..], Parts(Gaps(vals))) == TailGaps(Sorted(vals), p)
    decreases |vals| - p
  {
    if p == |vals| {
    } else {
      var order := Ascending(vals);
      GapsInOrder(vals, p + 1);
      assert order[p..][1..] == order[p + 1..];
      AscendingIncreases(vals);
      PositionOfRanked(order, p);
    }
  }

  lemma {:induction false} SumAtMost<T(!new)>(ks: seq<T>, c: map<T, real>, a: map<T, real>, b: map<T, real>)
    requires forall k :: k in ks ==> k in a && k in b && k in c && c[k] <= a[k] + b[k]
    ensures Sum(ks, c) <= Sum(ks, a) + Sum(ks, b)
  {
    if ks == [] {
    } else {
      SumAtMost(ks[1..], c, a, b);
    }
  }

  lemma {:induction false} SumOfZeros<T(!new)>(ks: seq<T>, c: map<T, real>)
    requires forall k :: k in ks ==> k in c && c[k] == 0.0
    ensures Sum(ks, c) == 0.0
  {
    if ks == [] {
    } else {
      SumOfZeros(ks[1..], c);
    }
  }

  /** A row of contributions over `n` solutions: nonnegative, infinite exactly at `first` and
      `last`, and with finite entries that sum to at most 2. */
  ghost predicate IsGapRow(row: seq<Ext>, n: nat, first: nat, last: nat) {
    && |row| == n
    && FiniteTotal(row) <= 2.0
    && forall i :: 0 <= i < n ==>
      && !row[i].NegInf?
      && FinitePart(row[i]) >= 0.0
      && (row[i] == PosInf <==> i == first || i == last)
  }

  lemma {:induction false} ColumnTotal(vals: seq<real>)
    requires vals != []
    ensures FiniteTotal(Gaps(vals)) <= 2.0
  {
    AscendingIncreases(vals);
    SumSameKeys(Indices(|vals|), Ascending(vals), Parts(Gaps(vals)));
    assert Ascending(vals)[0..] == Ascending(vals);
    GapsInOrder(vals, 0);
    GapTotal(Sorted(vals));
  }

  lemma {:induction false} InfiniteGap(vals: seq<real>, i: nat)
    requires i < |vals|
    ensures !Gap(vals, i).NegInf? && FinitePart(Gap(vals, i)) >= 0.0
    ensures Gap(vals, i) == PosInf <==> i == Ascending(vals)[0] || i == Ascending(vals)[|vals| - 1]
  {
    var order := Ascending(vals);
    var p := PositionOf(order, i);
    AscendingIncreases(vals);
    assert p != 0 ==> order[0] != order[p];
    assert p != |vals| - 1 ==> order[p] != order[|vals| - 1];
    GapBounds(Sorted(vals), p);
  }

  lemma {:induction false} GapsAreRow(vals: seq<real>, row: seq<Ext>, first: nat, last: nat)
    requires vals != [] && row == Gaps(vals)
    requires first == Ascending(vals)[0] && last == Ascending(vals)[|vals| - 1]
    ensures IsGapRow(row, |vals|, first, last)
  {
    ColumnTotal(vals);
    forall i | 0 <= i < |vals|
      ensures !row[i].NegInf? && FinitePart(row[i]) >= 0.0
      ensures row[i] == PosInf <==> i == first || i == last
    {
      InfiniteGap(vals, i);
    }
  }

  /** A table of such rows, with the two ends of each. */
  ghost predicate IsGapTable(table: seq<seq<Ext>>, ends: seq<(nat, nat)>, n: nat) {
    && |ends| == |table|
    && forall k :: 0 <= k < |table| ==> |table[k]| == n && IsGapRow(table[k], n, ends[k].0, ends[k].1)
  }

  ghost function EndsTable(sols: seq<Solution>, objectives: seq<string>): (e: seq<(nat, nat)>)
    requires sols != []
    ensures |e| == |objectives|
    ensures forall k :: 0 <= k < |e| ==>
      && e[k].0 == Ascending(Column(sols, objectives[k]))[0]
      && e[k].1 == Ascending(Column(sols, objectives[k]))[|sols| - 1]
  {
    seq(|objectives|, k requires 0 <= k < |objectives| =>
      (Ascending(Column(sols, objectives[k]))[0], Ascending(Column(sols, objectives[k]))[|sols| - 1]))
  }

  lemma {:induction false} GapTableIsGood(sols: seq<Solution>, objectives: seq<string>)
    requires sols != []
    ensures IsGapTable(GapTable(sols, objectives), EndsTable(sols, objectives), |sols|)
  {
    var table, ends := GapTable(sols, objectives), EndsTable(sols, objectives);
    forall k | 0 <= k < |objectives| ensures IsGapRow(table[k], |sols|, ends[k].0, ends[k].1) {
      GapsAreRow(Column(sols, objectives[k]), table[k], ends[k].0, ends[k].1);
    }
  }

  ghost function EndSet(ends: seq<(nat, nat)>, k: nat): (e: set<nat>)
    requires k <= |ends|
    ensures |e| <= 2 * k
    ensures forall j :: 0 <= j < k ==> ends[j].0 in e && ends[j].1 in e
  {
    if k == 0 then {}
    else
      assert |{ends[k - 1].0, ends[k - 1].1}| <= 2;
      EndSet(ends, k - 1) + {ends[k - 1].0, ends[k - 1].1}
  }

  /** Distances are nonnegative, and infinite exactly at the ends of some objective. */
  lemma {:induction false} InfiniteAtEnds(table: seq<seq<Ext>>, ends: seq<(nat, nat)>, n: nat, k: nat, i: nat)
    requires IsGapTable(table, ends, n) && i < n && k <= |table|
    ensures !Distance(table, k, i).NegInf? && FinitePart(Distance(table, k, i)) >= 0.0
    ensures Distance(table, k, i) == PosInf <==> i in EndSet(ends, k)
  {
    if k == 0 {
    } else {
      InfiniteAtEnds(table, ends, n, k - 1, i);
      assert IsGapRow(table[k - 1], n, ends[k - 1].0, ends[k - 1].1);
    }
  }

  lemma {:induction false} RowAdds(table: seq<seq<Ext>>, ends: seq<(nat, nat)>, n: nat, k: nat)
    requires IsGapTable(table, ends, n) && k < |table|
    ensures FiniteTotal(Distances(table, k + 1, n)) <= FiniteTotal(Distances(table, k, n)) + FiniteTotal(table[k])
  {
    var before, row, after := Distances(table, k, n), table[k], Distances(table, k + 1, n);
    forall i: nat | i < n ensures Parts(after)[i] <= Parts(before)[i] + Parts(row)[i] {
      InfiniteAtEnds(table, ends, n, k, i);
    }
    hide Distances, IsGapTable, Sum;
    SumAtMost(Indices(n), Parts(after), Parts(before), Parts(row));
  }

  lemma {:induction false} NoRows(table: seq<seq<Ext>>, n: nat)
    ensures FiniteTotal(Distances(table, 0, n)) == 0.0
  {
    SumOfZeros(Indices(n), Parts(Distances(table, 0, n)));
    hide Indices, Sum;
  }

  lemma {:induction false} RowTotal(table: seq<seq<Ext>>, ends: seq<(nat, nat)>, n: nat, k: nat)
    requires IsGapTable(table, ends, n) && k < |table|
    ensures |table[k]| == n && FiniteTotal(table[k]) <= 2.0
  {
    assert IsGapRow(table[k], n, ends[k].0, ends[k].1);
    hide FiniteTotal;
  }

  lemma {:induction false} TableTotal(table: seq<seq<Ext>>, ends: seq<(nat, nat)>, n: nat, k: nat)
    requires IsGapTable(table, ends, n) && k <= |table|
    ensures forall j :: 0 <= j < k ==> |table[j]| == n
    ensures FiniteTotal(Distances(table, k, n)) <= 2.0 * k as real
  {
    hide *;
    if k == 0 {
      NoRows(table, n);
    } else {
      TableTotal(table, ends, n, k - 1);
      RowTotal(table, ends, n, k - 1);
      RowAdds(table, ends, n, k - 1);
      assert 2.0 * (k - 1) as real + 2.0 == 2.0 * k as real;
    }
  }

  /** Over `k` objectives the finite crowding distances of a whole frontier sum to at most `2k`. */
  lemma {:induction false} CrowdingBound(sols: seq<Solution>)
    requires sols != []
    ensures FiniteTotal(Crowded(sols)) <= 2.0 * |ObjectiveList(sols)| as real
  {
    var objectives := ObjectiveList(sols);
    GapTableIsGood(sols, objectives);
    TableTotal(GapTable(sols, objectives), EndsTable(sols, objectives), |sols|, |objectives|);
  }

  // ----- the ends of the frontier ---------------------------------------

  /** The indices at the low or the high end of some objective. */
  ghost function FrontierEnds(sols: seq<Solution>): (e: set<nat>)
    requires sols != []
    ensures |e| <= 2 * |ObjectiveList(sols)|
    ensures forall o :: o in ObjectiveList(sols) ==>
      Ascending(Column(sols, o))[0] in e && Ascending(Column(sols, o))[|sols| - 1] in e
  {
    var objectives := ObjectiveList(sols);
    var ends := EndsTable(sols, objectives);
    assert forall o :: o in objectives ==> exists k :: 0 <= k < |ends| && objectives[k] == o;
    EndSet(ends, |objectives|)
  }

  lemma {:induction false} CrowdedAtEnds(sols: seq<Solution>, i: nat)
    requires i < |sols|
    ensures Crowded(sols)[i] == PosInf <==> i in FrontierEnds(sols)
  {
    var objectives := ObjectiveList(sols);
    GapTableIsGood(sols, objectives);
    InfiniteAtEnds(GapTable(sols, objectives), EndsTable(sols, objectives), |sols|, |objectives|, i);
  }

  // ----- what a distance is ---------------------------------------------

  /** The value of an objective, 0 where the solution lacks it. */
  ghost function ValueOf(s: Solution, o: string): real {
    if o in s.objectives.at then s.objectives.at[o] else 0.0
  }

  /** `i` comes before `j` by one objective; equal values keep their order. */
  ghost predicate Before(sols: seq<Solution>, o: string, i: nat, j: nat)
    requires i < |sols| && j < |sols|
  {
    var x, y := ValueOf(sols[i], o), ValueOf(sols[j], o);
    x < y || (x == y && i < j)
  }

  /** `i` comes before `j`, and nothing lies between them. */
  ghost predicate Adjacent(sols: seq<Solution>, o: string, i: nat, j: nat) {
    && i < |sols| && j < |sols| && Before(sols, o, i, j)
    && forall k: nat :: k < |sols| ==> !Before(sols, o, i, k) || !Before(sols, o, k, j)
  }

  /** Nothing comes before it, or nothing after it. */
  ghost predicate IsEnd(sols: seq<Solution>, o: string, i: nat)
    requires i < |sols|
  {
    || (forall k: nat :: k < |sols| ==> !Before(sols, o, k, i))
    || (forall k: nat :: k < |sols| ==> !Before(sols, o, i, k))
  }

  /** The largest value less the smallest. */
  ghost predicate IsRange(sols: seq<Solution>, o: string, range: real) {
    exists low: nat, high: nat ::
      && low < |sols| && high < |sols|
      && (forall k :: 0 <= k < |sols| ==> ValueOf(sols[low], o) <= ValueOf(sols[k], o) <= ValueOf(sols[high], o))
      && range == ValueOf(sols[high], o) - ValueOf(sols[low], o)
  }

  /** What one objective contributes to a solution that is not at an end of it: the difference
      between the values after and before it as a share of the range. */
  ghost predicate IsShare(sols: seq<Solution>, o: string, i: nat, share: real) {
    exists previous: nat, next: nat, range: real ::
      && Adjacent(sols, o, previous, i) && Adjacent(sols, o, i, next) && IsRange(sols, o, range)
      && share == if range == 0.0 then 0.0 else (ValueOf(sols[next], o) - ValueOf(sols[previous], o)) / range
  }

  lemma {:induction false} BeforeIsAhead(sols: seq<Solution>, o: string, i: nat, j: nat)
    requires i < |sols| && j < |sols|
    ensures Before(sols, o, i, j) <==> Ahead(AsKeys(Column(sols, o)), false, i, j)
  {
  }

  lemma {:induction false} AscendingBefore(sols: seq<Solution>, o: string, p: nat, q: nat)
    requires p < |sols| && q < |sols|
    ensures var order := Ascending(Column(sols, o)); Before(sols, o, order[p], order[q]) <==> p < q
  {
    var keys, order := AsKeys(Column(sols, o)), Ascending(Column(sols, o));
    BeforeIsAhead(sols, o, order[p], order[q]);
    BeforeIsAhead(sols, o, order[q], order[p]);
    if p < q {
      assert Ahead(keys, false, order[p], order[q]);
    } else if q < p {
      assert Ahead(keys, false, order[q], order[p]);
    }
  }

  lemma {:induction false} BeforeByPosition(sols: seq<Solution>, o: string, i: nat, k: nat)
    requires i < |sols| && k < |sols|
    ensures var order := Ascending(Column(sols, o));
      Before(sols, o, i, k) <==> PositionOf(order, i) < PositionOf(order, k)
  {
    var order := Ascending(Column(sols, o));
    AscendingBefore(sols, o, PositionOf(order, i), PositionOf(order, k));
    hide *;
  }

  lemma {:induction false} NothingBefore(sols: seq<Solution>, o: string, i: nat)
    requires i < |sols|
    ensures (forall k: nat :: k < |sols| ==> !Before(sols, o, k, i)) <==> i == Ascending(Column(sols, o))[0]
  {
    var order := Ascending(Column(sols, o));
    hide *;
    forall k: nat | k < |sols| ensures Before(sols, o, k, i) <==> PositionOf(order, k) < PositionOf(order, i) {
      BeforeByPosition(sols, o, k, i);
    }
    AscendingBefore(sols, o, 0, PositionOf(order, i));
    if i == order[0] {
      AscendingBefore(sols, o, PositionOf(order, i), 0);
    }
  }

  lemma {:induction false} NothingAfter(sols: seq<Solution>, o: string, i: nat)
    requires i < |sols|
    ensures (forall k: nat :: k < |sols| ==> !Before(sols, o, i, k)) <==>
      i == Ascending(Column(sols, o))[|sols| - 1]
  {
    var order, n := Ascending(Column(sols, o)), |sols|;
    hide *;
    forall k: nat | k < n ensures Before(sols, o, i, k) <==> PositionOf(order, i) < PositionOf(order, k) {
      BeforeByPosition(sols, o, i, k);
    }
    AscendingBefore(sols, o, PositionOf(order, i), n - 1);
    if i == order[n - 1] {
      AscendingBefore(sols, o, n - 1, PositionOf(order, i));
    }
  }

  /** The ends are the first and the last of the ascending order. */
  lemma {:induction false} EndsInOrder(sols: seq<Solution>, o: string, i: nat)
    requires i < |sols|
    ensures var order := Ascending(Column(sols, o)); IsEnd(sols, o, i) <==> i == order[0] || i == order[|sols| - 1]
  {
    NothingBefore(sols, o, i);
    NothingAfter(sols, o, i);
    hide Before, Ascending, Column;
  }

  lemma {:induction false} AdjacentInOrder(sols: seq<Solution>, o: string, p: nat)
    requires p + 1 < |sols|
    ensures var order := Ascending(Column(sols, o)); Adjacent(sols, o, order[p], order[p + 1])
  {
    var order := Ascending(Column(sols, o));
    AscendingBefore(sols, o, p, p + 1);
    forall k: nat | k < |sols| ensures !Before(sols, o, order[p], k) || !Before(sols, o, k, order[p + 1]) {
      AscendingBefore(sols, o, p, PositionOf(order, k));
      AscendingBefore(sols, o, PositionOf(order, k), p + 1);
    }
  }

  lemma {:induction false} RangeInOrder(sols: seq<Solution>, o: string)
    requires sols != []
    ensures var w := Sorted(Column(sols, o)); IsRange(sols, o, w[|w| - 1] - w[0])
  {
    var order, w, n := Ascending(Column(sols, o)), Sorted(Column(sols, o)), |sols|;
    AscendingIncreases(Column(sols, o));
    forall k: nat | k < n ensures ValueOf(sols[order[0]], o) <= ValueOf(sols[k], o) <= ValueOf(sols[order[n - 1]], o) {
      var q := PositionOf(order, k);
      assert w[0] <= w[q] <= w[n - 1];
    }
  }

  lemma {:induction false} ValuesInOrder(sols: seq<Solution>, o: string, p: nat)
    requires p < |sols|
    ensures ValueOf(sols[Ascending(Column(sols, o))[p]], o) == Sorted(Column(sols, o))[p]
  {
  }

  lemma {:induction false} GapInside(vals: seq<real>, i: nat, p: nat)
    requires i < |vals| && PositionOf(Ascending(vals), i) == p && 0 < p < |vals| - 1
    ensures var w := Sorted(vals);
      var range := w[|w| - 1] - w[0];
      Gap(vals, i) == Fin(if range == 0.0 then 0.0 else (w[p + 1] - w[p - 1]) / range)
  {
    hide Sorted, Ascending;
  }

  /** What an objective adds strictly inside its order is such a share. */
  lemma {:induction false} ShareInOrder(sols: seq<Solution>, o: string, i: nat)
    requires i < |sols| && !IsEnd(sols, o, i)
    ensures var gap := Gap(Column(sols, o), i); gap.Fin? && IsShare(sols, o, i, gap.r)
  {
    hide *;
    var vals := Column(sols, o);
    var order, w := Ascending(vals), Sorted(vals);
    EndsInOrder(sols, o, i);
    var p := PositionOf(order, i);
    AdjacentInOrder(sols, o, p - 1);
    AdjacentInOrder(sols, o, p);
    RangeInOrder(sols, o);
    ValuesInOrder(sols, o, p - 1);
    ValuesInOrder(sols, o, p + 1);
    GapInside(vals, i, p);
    ShareBetween(sols, o, i, order[p - 1], order[p + 1], w[|w| - 1] - w[0], Gap(vals, i).r);
  }

  lemma {:induction false} ShareBetween(sols: seq<Solution>, o: string, i: nat, previous: nat, next: nat, range: real,
        share: real)
    requires Adjacent(sols, o, previous, i) && Adjacent(sols, o, i, next) && IsRange(sols, o, range)
    requires share == if range == 0.0 then 0.0 else (ValueOf(sols[next], o) - ValueOf(sols[previous], o)) / range
    ensures IsShare(sols, o, i, share)
  {
    hide Adjacent, IsRange, ValueOf;
  }

  lemma {:induction false} SumOne(o: string, at: map<string, real>)
    requires o in at
    ensures Sum([o], at) == at[o]
  {
    assert [o][1..] == [];
  }

  lemma {:induction false} SumUnchanged(ks: seq<string>, a: map<string, real>, b: map<string, real>)
    requires forall k :: k in ks ==> k in a && k in b && a[k] == b[k]
    ensures Sum(ks, a) == Sum(ks, b)
  {
    if ks == [] {
    } else {
      SumUnchanged(ks[1..], a, b);
    }
  }

  /** One more key, with its value. */
  lemma {:induction false} SumSnoc(ks: seq<string>, o: string, at: map<string, real>, x: real)
    requires o !in ks && forall k :: k in ks ==> k in at
    ensures Sum(ks + [o], at[o := x]) == Sum(ks, at) + x
  {
    SumConcat(ks, [o], at[o := x]);
    SumOne(o, at[o := x]);
    SumUnchanged(ks, at, at[o := x]);
  }

  ghost predicate AreShares(sols: seq<Solution>, objectives: seq<string>, i: nat, shares: map<string, real>) {
    forall o :: o in objectives ==> o in shares && IsShare(sols, o, i, shares[o])
  }

  lemma {:induction false} DistanceUpTo(sols: seq<Solution>, objectives: seq<string>, i: nat, k: nat)
    returns (shares: map<string, real>)
    requires i < |sols| && k <= |objectives| && Distinct(objectives)
    requires forall o :: o in objectives ==> !IsEnd(sols, o, i)
    ensures AreShares(sols, objectives[..k], i, shares)
    ensures Distance(GapTable(sols, objectives), k, i) == Fin(Sum(objectives[..k], shares))
  {
    hide IsShare, IsEnd, Gap, Sum;
    if k == 0 {
      shares := map[];
      assert Sum(objectives[..0], shares) == 0.0 by { NothingToSum(shares); }
    } else {
      var before := DistanceUpTo(sols, objectives, i, k - 1);
      var o := objectives[k - 1];
      ShareInOrder(sols, o, i);
      var gap := Gap(Column(sols, o), i);
      shares := before[o := gap.r];
      assert objectives[..k] == objectives[..k - 1] + [o];
      SumSnoc(objectives[..k - 1], o, before, gap.r);
    }
  }

  lemma {:induction false} NothingToSum(at: map<string, real>)
    ensures Sum([], at) == 0.0
  {
  }

  lemma {:induction false} EndIsInfinite(sols: seq<Solution>, o: string, i: nat)
    requires i < |sols| && o in sols[0].objectives.order && IsEnd(sols, o, i)
    ensures Crowded(sols)[i] == PosInf
  {
    EndsInOrder(sols, o, i);
    CrowdedAtEnds(sols, i);
    assert o in ObjectiveList(sols);
    hide Crowded, IsEnd, FrontierEnds, Ascending;
  }

  lemma {:induction false} CrowdedInFull(sols: seq<Solution>, i: nat)
    requires i < |sols|
    ensures var objectives := sols[0].objectives.order;
      Crowded(sols)[i] == Distance(GapTable(sols, objectives), |objectives|, i)
  {
  }

  lemma {:induction false} InsideIsSum(sols: seq<Solution>, i: nat) returns (shares: map<string, real>)
    requires i < |sols| && forall o :: o in sols[0].objectives.order ==> !IsEnd(sols, o, i)
    ensures AreShares(sols, sols[0].objectives.order, i, shares)
    ensures Crowded(sols)[i] == Fin(Sum(sols[0].objectives.order, shares))
  {
    var objectives := sols[0].objectives.order;
    assert Distinct(objectives);
    hide *;
    shares := DistanceUpTo(sols, objectives, i, |objectives|);
    assert objectives[..|objectives|] == objectives;
    CrowdedInFull(sols, i);
  }

  /** What the distances are: infinite at an end of some objective of the first solution, and
      elsewhere the sum of the shares of those objectives. */
  lemma {:induction false} DistanceIsSum(sols: seq<Solution>, i: nat) returns (shares: map<string, real>)
    requires i < |sols|
    ensures Crowded(sols)[i] == PosInf <==> exists o :: o in sols[0].objectives.order && IsEnd(sols, o, i)
    ensures Crowded(sols)[i] != PosInf ==>
      && AreShares(sols, sols[0].objectives.order, i, shares)
      && Crowded(sols)[i] == Fin(Sum(sols[0].objectives.order, shares))
  {
    var objectives := sols[0].objectives.order;
    hide IsEnd, AreShares, Crowded, Distance, Sum;
    if exists o :: o in objectives && IsEnd(sols, o, i) {
      var o :| o in objectives && IsEnd(sols, o, i);
      EndIsInfinite(sols, o, i);
      shares := map[];
    } else {
      shares := InsideIsSum(sols, i);
    }
  }

  // ----- pruning ---------------------------------------------------------

  /** The indices `_prune` keeps, most crowded-out last. */
  function KeptIndices(sols: seq<Solution>, maxSize: int): seq<nat> {
    Prefix(SortedIndices(Crowded(sols), true), maxSize)
  }

  function Pick(sols: seq<Solution>, indices: seq<nat>): (r: seq<Solution>)
    requires forall k :: 0 <= k < |indices| ==> indices[k] < |sols|
    ensures |r| == |indices| && forall k :: 0 <= k < |r| ==> r[k] == sols[indices[k]]
  {
    seq(|indices|, k requires 0 <= k < |indices| => sols[indices[k]])
  }

  lemma {:induction false} KeptInRange(sols: seq<Solution>, maxSize: int)
    ensures var kept := KeptIndices(sols, maxSize); forall k :: 0 <= k < |kept| ==> kept[k] < |sols|
  {
    var order := SortedIndices(Crowded(sols), true);
    hide Crowded;
    assert forall k :: 0 <= k < |order| ==> order[k] in order;
  }

  function Prune(sols: seq<Solution>, maxSize: int): seq<Solution> {
    if |sols| <= maxSize then sols
    else
      KeptInRange(sols, maxSize);
      Pick(sols, KeptIndices(sols, maxSize))
  }

  /** Pruning keeps `maxSize` different members; none of them has a smaller distance than a
      dropped one, and among equal distances the earlier ones are kept. */
  lemma {:induction false} PruneKeepsIsolated(sols: seq<Solution>, maxSize: nat, i: nat, j: nat)
    requires |sols| > maxSize && i < |sols| && j < |sols|
    requires i in KeptIndices(sols, maxSize) && j !in KeptIndices(sols, maxSize)
    ensures |Prune(sols, maxSize)| == maxSize && Distinct(KeptIndices(sols, maxSize))
    ensures var d := Crowded(sols);
      d[j].Less(d[i]) || (d[i] == d[j] && i < j)
  {
    var d := Crowded(sols);
    var order := SortedIndices(d, true);
    RankedDistinct(d, true, order);
    var p :| 0 <= p < maxSize && order[p] == i;
    assert j in order;
    var q :| 0 <= q < |order| && order[q] == j;
    assert q >= maxSize;
    assert Ahead(d, true, order[p], order[q]);
  }

  /** `i` is sorted before `j` by descending distance; equal distances keep their order. */
  ghost predicate MoreIsolated(d: seq<Ext>, i: nat, j: nat)
    requires i < |d| && j < |d|
  {
    d[j].Less(d[i]) || (d[i] == d[j] && i < j)
  }

  /** Pruning leaves the `maxSize` most isolated members, the most isolated first; with a negative size,
      as many fewer than there were. */
  lemma {:induction false} PruneInOrder(sols: seq<Solution>, maxSize: int) returns (kept: seq<nat>)
    requires |sols| > maxSize
    ensures |kept| == (if maxSize >= 0 then maxSize else Max(0, |sols| + maxSize)) && Distinct(kept)
    ensures |Prune(sols, maxSize)| == |kept|
    ensures forall a :: 0 <= a < |kept| ==> kept[a] < |sols| && Prune(sols, maxSize)[a] == sols[kept[a]]
    ensures forall a, b :: 0 <= a < b < |kept| ==> MoreIsolated(Crowded(sols), kept[a], kept[b])
    ensures forall a, j: nat :: 0 <= a < |kept| && j < |sols| && j !in kept ==>
      MoreIsolated(Crowded(sols), kept[a], j)
  {
    var order := SortedIndices(Crowded(sols), true);
    kept := KeptIndices(sols, maxSize);
    PruneIsFront(sols, maxSize);
    FrontIsAhead(Crowded(sols), true, order, |kept|);
    hide *;
    forall a, b | 0 <= a < b < |kept| ensures MoreIsolated(Crowded(sols), kept[a], kept[b]) {
      AheadIsolated(Crowded(sols), kept[a], kept[b]);
    }
    forall a, j: nat | 0 <= a < |kept| && j < |sols| && j !in kept
      ensures MoreIsolated(Crowded(sols), kept[a], j)
    {
      AheadIsolated(Crowded(sols), kept[a], j);
    }
  }

  lemma {:induction false} AheadIsolated(d: seq<Ext>, i: nat, j: nat)
    requires i < |d| && j < |d| && Ahead(d, true, i, j)
    ensures MoreIsolated(d, i, j)
  {
  }

  lemma {:induction false} PruneIsFront(sols: seq<Solution>, maxSize: int)
    requires |sols| > maxSize
    ensures var kept := KeptIndices(sols, maxSize);
      && |kept| == (if maxSize >= 0 then maxSize else Max(0, |sols| + maxSize))
      && kept == SortedIndices(Crowded(sols), true)[..|kept|]
      && |Prune(sols, maxSize)| == |kept|
      && forall a :: 0 <= a < |kept| ==> kept[a] < |sols| && Prune(sols, maxSize)[a] == sols[kept[a]]
  {
    KeptInRange(sols, maxSize);
    PrefixIs(SortedIndices(Crowded(sols), true), maxSize);
    hide Ranked, Crowded, Prefix;
  }

  /** Whatever is sorted before an end is an end. */
  lemma {:induction false} EndsComeFirst(sols: seq<Solution>, p: nat, q: nat)
    requires p < q < |sols|
    ensures var order := SortedIndices(Crowded(sols), true);
      order[q] in FrontierEnds(sols) ==> order[p] in FrontierEnds(sols)
  {
    var order := SortedIndices(Crowded(sols), true);
    assert Ahead(Crowded(sols), true, order[p], order[q]);
    CrowdedAtEnds(sols, order[p]);
    CrowdedAtEnds(sols, order[q]);
  }

  /** If the ends fill a front part of the order, a cut at least their number long keeps them. */
  lemma {:induction false} FrontFits(order: seq<nat>, ends: set<nat>, q: nat)
    requires Distinct(order) && q < |order| && order[q] in ends
    requires forall p :: 0 <= p < q ==> order[p] in ends
    ensures q < |ends|
  {
    var front := order[..q + 1];
    DistinctCardinality(front);
    SubsetCardinality((set m | m in front), ends);
  }

  /** When the frontier has room for all its ends, of which there are at most two per objective,
      pruning drops none of them. */
  lemma {:induction false} EndsAreKept(sols: seq<Solution>, maxSize: nat, i: nat)
    requires |sols| > maxSize >= |FrontierEnds(sols)|
    requires i in FrontierEnds(sols) && i < |sols|
    ensures i in KeptIndices(sols, maxSize)
  {
    var order, ends := SortedIndices(Crowded(sols), true), FrontierEnds(sols);
    var q := PositionOf(order, i);
    forall p | 0 <= p < q ensures order[p] in ends {
      EndsComeFirst(sols, p, q);
    }
    RankedDistinct(Crowded(sols), true, order);
    FrontFits(order, ends, q);
    assert order[..maxSize][q] == i;
  }
}
