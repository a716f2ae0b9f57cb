/** The order Python's `sorted` returns: stable, also under `reverse=True`, where
    elements with equal keys keep their original order. */
module Ranking {
  import opened Prelude

  /** A float that may be an infinity. */
  datatype Ext = NegInf | Fin(r: real) | PosInf {

    predicate Less(that: Ext) {
      match this
      case NegInf => !that.NegInf?
      case Fin(a) => that.PosInf? || (that.Fin? && a < that.r)
      case PosInf => false
    }

    function Plus(x: real): Ext {
      if Fin? then Fin(r + x) else this
    }
  }

  /** Index `i` comes strictly before index `j` in the sorted list. */
  predicate Ahead(keys: seq<Ext>, reverse: bool, i: nat, j: nat)
    requires i < |keys| && j < |keys|
  {
    || (if reverse then keys[j].Less(keys[i]) else keys[i].Less(keys[j]))
    || (keys[i] == keys[j] && i < j)
  }

  ghost predicate Ranked(keys: seq<Ext>, reverse: bool, order: seq<nat>) {
    && (forall a :: 0 <= a < |order| ==> order[a] < |keys|)
    && (forall a, b :: 0 <= a < b < |order| ==> Ahead(keys, reverse, order[a], order[b]))
  }

  function Insert(keys: seq<Ext>, reverse: bool, order: seq<nat>, x: nat): (r: seq<nat>)
    requires Ranked(keys, reverse, order) && x < |keys| && x !in order
    ensures Ranked(keys, reverse, r) && |r| == |order| + 1
    ensures forall m :: m in r <==> m == x || m in order
  {
    if order == [] || Ahead(keys, reverse, x, order[0]) then
      [x] + order
    else
      var rest := Insert(keys, reverse, order[1..], x);
      assert forall b :: 0 <= b < |rest| ==> rest[b] == x || rest[b] in order[1..];
      [order[0]] + rest
  }

  function SortFirst(keys: seq<Ext>, reverse: bool, n: nat): (r: seq<nat>)
    requires n <= |keys|
    ensures Ranked(keys, reverse, r) && |r| == n
    ensures forall m: nat :: m in r <==> m < n
  {
    if n == 0 then [] else Insert(keys, reverse, SortFirst(keys, reverse, n - 1), n - 1)
  }

  /** `sorted(range(len(keys)), key=lambda i: keys[i], reverse=reverse)`. */
  function SortedIndices(keys: seq<Ext>, reverse: bool): (r: seq<nat>)
    ensures Ranked(keys, reverse, r) && |r| == |keys|
    ensures forall m: nat :: m in r <==> m < |keys|
  {
    SortFirst(keys, reverse, |keys|)
  }

  lemma {:induction false} FirstIsUnique(keys: seq<Ext>, reverse: bool, a: seq<nat>, b: seq<nat>)
    requires Ranked(keys, reverse, a) && Ranked(keys, reverse, b)
    requires a != [] && b != [] && a[0] in b && b[0] in a
    ensures a[0] == b[0]
  {
    var i :| 0 <= i < |a| && a[i] == b[0];
    var j :| 0 <= j < |b| && b[j] == a[0];
    assert i > 0 ==> Ahead(keys, reverse, a[0], a[i]);
    assert j > 0 ==> Ahead(keys, reverse, b[0], b[j]);
  }

  /** There is only one stable order, so the algorithm behind `sorted` does not matter. */
  lemma {:induction false} RankingIsUnique(keys: seq<Ext>, reverse: bool, a: seq<nat>, b: seq<nat>)
    requires Ranked(keys, reverse, a) && Ranked(keys, reverse, b)
    requires forall m: nat :: m in a <==> m in b
    ensures a == b
  {
    assert a != [] ==> a[0] in b;
    assert b != [] ==> b[0] in a;
    if a == [] {
    } else {
      assert a[0] == b[0] by { FirstIsUnique(keys, reverse, a, b); }
      assert forall m: nat :: m in a[1..] <==> m in a && m != a[0];
      assert forall m: nat :: m in b[1..] <==> m in b && m != b[0];
      RankingIsUnique(keys, reverse, a[1..], b[1..]);
    }
  }

  lemma {:induction false} RankedDistinct(keys: seq<Ext>, reverse: bool, order: seq<nat>)
    requires Ranked(keys, reverse, order)
    ensures Distinct(order)
  {
    forall a, b | 0 <= a < b < |order| ensures order[a] != order[b] {
      assert Ahead(keys, reverse, order[a], order[b]);
    }
  }

  /** The position of `x` in a list that contains it. */
  function PositionOf(order: seq<nat>, x: nat): (p: nat)
    requires x in order
    ensures p < |order| && order[p] == x
  {
    if order[0] == x then 0 else 1 + PositionOf(order[1..], x)
  }

  /** The front of a stable order of all indices: its members come before each other in turn, and
      before every index left out. */
  lemma {:induction false} FrontIsAhead(keys: seq<Ext>, reverse: bool, order: seq<nat>, m: nat)
    requires Ranked(keys, reverse, order) && |order| == |keys| && m <= |order|
    requires forall j: nat :: j in order <==> j < |keys|
    ensures Distinct(order[..m])
    ensures forall a, b :: 0 <= a < b < m ==> Ahead(keys, reverse, order[a], order[b])
    ensures forall a, j: nat :: 0 <= a < m && j < |keys| && j !in order[..m] ==> Ahead(keys, reverse, order[a], j)
  {
    RankedDistinct(keys, reverse, order);
    hide Ahead;
    forall a, j: nat | 0 <= a < m && j < |keys| && j !in order[..m] ensures Ahead(keys, reverse, order[a], j) {
      var q := PositionOf(order, j);
      assert order[..m] + order[m..] == order && q >= m;
    }
  }
}
