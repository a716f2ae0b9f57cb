/** Pareto dominance between score dictionaries (src/gepa/pareto.py, src/gepa/evolution.py). */
module Dominance {
  import opened Prelude

  /** A Python dictionary from names to floats, with its insertion order. */
  datatype Dict = Dict(order: seq<string>, at: map<string, real>)

  ghost predicate IsDict(d: Dict) {
    && Distinct(d.order)
    && forall k :: k in d.at <==> k in d.order
  }

  type Objectives = d: Dict | IsDict(d) witness Dict([], map[])

  function Get(d: Dict, o: string, default: real): real {
    if o in d.at then d.at[o] else default
  }

  /** `x` is strictly worse than `y` on objective `o`. */
  predicate Worse(minimize: seq<string>, o: string, x: real, y: real) {
    if o in minimize then x > y else x < y
  }

  /** `a` is nowhere worse than `b` on the objectives they have in common, and somewhere better. */
  ghost predicate Beats(a: Dict, b: Dict, minimize: seq<string>) {
    && (forall o :: o in a.at && o in b.at ==> !Worse(minimize, o, a.at[o], b.at[o]))
    && (exists o :: o in a.at && o in b.at && Worse(minimize, o, b.at[o], a.at[o]))
  }

  datatype Solution = Solution(id: string, objectives: Objectives, data: string) {

    /** `Solution.dominates`: visits the common objectives in any order, with an early return. */
    method Dominates(other: Solution, minimize: seq<string>) returns (r: bool)
      ensures r <==> Beats(objectives, other.objectives, minimize)
    {
      var a, b := objectives.at, other.objectives.at;
      var common := a.Keys * b.Keys;
      assert forall o :: o in a && o in b <==> o in common;
      if common == {} {
        return false;
      }
      var atLeastOneBetter := false;
      var rest := common;
      while rest != {}
        invariant rest <= common
        invariant forall o :: o in common - rest ==> !Worse(minimize, o, a[o], b[o])
        invariant atLeastOneBetter <==> exists o :: o in common - rest && Worse(minimize, o, b[o], a[o])
        decreases rest
      {
        var o :| o in rest;
        rest := rest - {o};
        assert o in common - rest;
        if o in minimize {
          if a[o] > b[o] { return false; }
          if a[o] < b[o] { atLeastOneBetter := true; }
        } else {
          if a[o] < b[o] { return false; }
          if a[o] > b[o] { atLeastOneBetter := true; }
        }
      }
      return atLeastOneBetter;
    }
  }

  datatype PromptVariant = PromptVariant(id: string, model: string, content: string, scores: Objectives) {

    /** `PromptVariant.dominates`: every score is maximised. */
    method Dominates(other: PromptVariant) returns (r: bool)
      ensures r <==> Beats(scores, other.scores, [])
    {
      var a, b := scores.at, other.scores.at;
      if a == map[] || b == map[] {
        return false;
      }
      var common := a.Keys * b.Keys;
      assert forall o :: o in a && o in b <==> o in common;
      if common == {} {
        return false;
      }
      var atLeastOneBetter := false;
      var rest := common;
      while rest != {}
        invariant rest <= common
        invariant forall o :: o in common - rest ==> !Worse([], o, a[o], b[o])
        invariant atLeastOneBetter <==> exists o :: o in common - rest && Worse([], o, b[o], a[o])
        decreases rest
      {
        var o :| o in rest;
        rest := rest - {o};
        assert o in common - rest;
        if a[o] < b[o] { return false; }
        if a[o] > b[o] { atLeastOneBetter := true; }
      }
      return atLeastOneBetter;
    }
  }

  lemma {:induction false} BeatsIrreflexive(a: Dict, minimize: seq<string>)
    ensures !Beats(a, a, minimize)
  {
  }

  lemma {:induction false} BeatsAsymmetric(a: Dict, b: Dict, minimize: seq<string>)
    requires Beats(a, b, minimize)
    ensures !Beats(b, a, minimize)
  {
  }

  // ----- when dominance is transitive -----------------------------------

  /** Objective sets for which `a` beats `b` and `b` beats `c` always makes `a` beat `c`. */
  ghost predicate TransitiveOn(s: set<string>, t: set<string>, u: set<string>) {
    || s * t == {}
    || t * u == {}
    || (s * u <= t && (s * t <= u || t * u <= s))
  }

  lemma {:induction false} BeatsTransitive(a: Dict, b: Dict, c: Dict, minimize: seq<string>)
    requires TransitiveOn(a.at.Keys, b.at.Keys, c.at.Keys)
    requires Beats(a, b, minimize) && Beats(b, c, minimize)
    ensures Beats(a, c, minimize)
  {
    var o :| o in a.at && o in b.at && Worse(minimize, o, b.at[o], a.at[o]);
    var q :| q in b.at && q in c.at && Worse(minimize, q, c.at[q], b.at[q]);
    var s, t, u := a.at.Keys, b.at.Keys, c.at.Keys;
    assert o in s * t && q in t * u;
    forall p | p in a.at && p in c.at ensures !Worse(minimize, p, a.at[p], c.at[p]) {
      assert p in s * u;
    }
    var strict := if s * t <= u then o else q;
    assert strict in s && strict in t && strict in u;
    assert Worse(minimize, strict, c.at[strict], a.at[strict]);
  }

  /** The elements of a set, in some order. */
  ghost function Listed(keys: set<string>): (r: seq<string>)
    ensures Distinct(r) && forall k :: k in r <==> k in keys
  {
    if keys == {} then []
    else
      var k :| k in keys;
      var rest := Listed(keys - {k});
      assert k !in rest;
      rest + [k]
  }

  /** A score that is the better the larger `x` is, whether `o` is maximised or minimised. */
  ghost function Signed(minimize: seq<string>, o: string, x: real): real {
    if o in minimize then -x else x
  }

  /** Scores on the given objectives, as good as `merit` says. */
  ghost function Scored(keys: set<string>, merit: string -> real, minimize: seq<string>): (d: Objectives)
    ensures d.at.Keys == keys && d.order == Listed(keys)
    ensures forall o :: o in keys ==> d.at[o] == Signed(minimize, o, merit(o))
  {
    Dict(Listed(keys), map o | o in keys :: Signed(minimize, o, merit(o)))
  }

  lemma {:induction false} ScoredBeats(s: set<string>, merit: string -> real,
        t: set<string>, merit': string -> real, minimize: seq<string>)
    ensures Beats(Scored(s, merit, minimize), Scored(t, merit', minimize), minimize) <==>
      && (forall o :: o in s * t ==> merit(o) >= merit'(o))
      && (exists o :: o in s * t && merit(o) > merit'(o))
  {
    var a, b := Scored(s, merit, minimize), Scored(t, merit', minimize);
    assert forall o :: o in a.at && o in b.at <==> o in s * t;
    forall o | o in s * t
      ensures Worse(minimize, o, a.at[o], b.at[o]) <==> merit(o) < merit'(o)
      ensures Worse(minimize, o, b.at[o], a.at[o]) <==> merit(o) > merit'(o)
    {
    }
  }

  /** `a` beats `b`, `b` beats `c`, but `a` does not beat `c`. */
  ghost predicate Breaks(s: set<string>, first: string -> real, t: set<string>, second: string -> real,
                         u: set<string>, third: string -> real) {
    && (forall o :: o in s * t ==> first(o) >= second(o)) && (exists o :: o in s * t && first(o) > second(o))
    && (forall o :: o in t * u ==> second(o) >= third(o)) && (exists o :: o in t * u && second(o) > third(o))
    && ((exists o :: o in s * u && first(o) < third(o)) || (forall o :: o in s * u ==> first(o) <= third(o)))
  }

  /** An objective of `s` and `u` that `t` lacks can go the other way. */
  lemma {:induction false} BreakOutside(s: set<string>, t: set<string>, u: set<string>)
    returns (first: string -> real, second: string -> real, third: string -> real)
    requires s * t != {} && t * u != {} && !(s * u <= t)
    ensures Breaks(s, first, t, second, u, third)
  {
    var p :| p in s * u && p !in t;
    var o :| o in s * t;
    var r :| r in t * u;
    first, second, third := x => if x == p then 0.0 else 2.0, _ => 1.0, x => if x == p then 1.0 else 0.0;
    assert first(o) > second(o) && second(r) > third(r) && first(p) < third(p);
  }

  /** Both advantages can lie where only two of the three meet. */
  lemma {:induction false} BreakBetween(s: set<string>, t: set<string>, u: set<string>)
    returns (first: string -> real, second: string -> real, third: string -> real)
    requires !(s * t <= u) && !(t * u <= s)
    ensures Breaks(s, first, t, second, u, third)
  {
    var p :| p in s * t && p !in u;
    var q :| q in t * u && q !in s;
    first, second, third := x => if x == p then 1.0 else 0.0, x => if x == q then 1.0 else 0.0, _ => 0.0;
    assert first(p) > second(p) && second(q) > third(q);
  }

  /** Everywhere else dominance is not transitive. */
  lemma {:induction false} NotTransitive(s: set<string>, t: set<string>, u: set<string>, minimize: seq<string>)
    returns (a: Objectives, b: Objectives, c: Objectives)
    requires !TransitiveOn(s, t, u)
    ensures a.at.Keys == s && b.at.Keys == t && c.at.Keys == u
    ensures Beats(a, b, minimize) && Beats(b, c, minimize) && !Beats(a, c, minimize)
  {
    var first, second, third: string -> real;
    if s * u <= t {
      first, second, third := BreakBetween(s, t, u);
    } else {
      first, second, third := BreakOutside(s, t, u);
    }
    a, b, c := Scored(s, first, minimize), Scored(t, second, minimize), Scored(u, third, minimize);
    ScoredBeats(s, first, t, second, minimize);
    ScoredBeats(t, second, u, third, minimize);
    ScoredBeats(s, first, u, third, minimize);
    hide Beats, Signed;
  }

  /** Dominance between scores on `s`, `t` and `u` is transitive exactly under that condition. */
  lemma {:induction false} TransitiveIff(s: set<string>, t: set<string>, u: set<string>, minimize: seq<string>)
    ensures TransitiveOn(s, t, u) <==>
      forall a: Objectives, b: Objectives, c: Objectives ::
        && a.at.Keys == s && b.at.Keys == t && c.at.Keys == u
        && Beats(a, b, minimize) && Beats(b, c, minimize)
        ==> Beats(a, c, minimize)
  {
    if TransitiveOn(s, t, u) {
      forall a: Objectives, b: Objectives, c: Objectives
        | a.at.Keys == s && b.at.Keys == t && c.at.Keys == u && Beats(a, b, minimize) && Beats(b, c, minimize)
        ensures Beats(a, c, minimize)
      {
        BeatsTransitive(a, b, c, minimize);
      }
    } else {
      var a, b, c := NotTransitive(s, t, u, minimize);
    }
  }

  /** Any three objective sets of a population, not necessarily different. */
  ghost predicate TransitiveKinds(kinds: set<set<string>>) {
    forall s, t, u :: s in kinds && t in kinds && u in kinds ==> TransitiveOn(s, t, u)
  }

  /** Solutions are comparable on all their objectives or on none. */
  ghost predicate EqualOrDisjoint(kinds: set<set<string>>) {
    forall s, t :: s in kinds && t in kinds ==> s == t || s * t == {}
  }

  lemma {:induction false} EqualOrDisjointIsTransitive(kinds: set<set<string>>)
    requires EqualOrDisjoint(kinds)
    ensures TransitiveKinds(kinds)
  {
  }

  /** Where two sets overlap without being equal, one of them has an objective to itself. */
  lemma {:induction false} Overlap(kinds: set<set<string>>) returns (s: set<string>, t: set<string>, o: string)
    requires !EqualOrDisjoint(kinds)
    ensures s in kinds && t in kinds && s * t != {} && o in s && o !in t
  {
    s, t :| s in kinds && t in kinds && s != t && s * t != {};
    if s <= t {
      s, t := t, s;
      assert !(s <= t);
    }
    assert s * t != {};
    o :| o in s && o !in t;
  }

  lemma {:induction false} BeatsComparable(a: Dict, b: Dict, minimize: seq<string>)
    requires Beats(a, b, minimize)
    requires a.at.Keys == b.at.Keys || a.at.Keys * b.at.Keys == {}
    ensures a.at.Keys == b.at.Keys
  {
    var o :| o in a.at && o in b.at && Worse(minimize, o, b.at[o], a.at[o]);
    assert o in a.at.Keys * b.at.Keys;
  }

  /** Where objective sets overlap without being equal, an objective of one alone can be as large
      as it likes and still not prevent defeat. */
  lemma {:induction false} OverlapDefeats(s: set<string>, t: set<string>, o: string, value: real, minimize: seq<string>)
    returns (a: Objectives, b: Objectives)
    requires s * t != {} && o in s && o !in t
    ensures a.at.Keys == s && forall x :: x in s ==> a.at[x] == Signed(minimize, x, if x == o then value else 0.0)
    ensures b.at.Keys == t && forall x :: x in t ==> b.at[x] == Signed(minimize, x, 1.0)
    ensures Beats(b, a, minimize)
  {
    var first: string -> real := x => if x == o then value else 0.0;
    var second: string -> real := _ => 1.0;
    a, b := Scored(s, first, minimize), Scored(t, second, minimize);
    var p :| p in s * t;
    assert p in t * s && second(p) > first(p);
    ScoredBeats(t, second, s, first, minimize);
    hide Beats;
  }

  lemma {:induction false} BeatsOnOnlyCommon(a: Dict, b: Dict, o: string)
    requires o in a.at && o in b.at && a.at[o] > b.at[o]
    requires forall p :: p in a.at && p in b.at ==> p == o
    ensures Beats(a, b, [])
  {
    assert Worse([], o, b.at[o], a.at[o]);
  }

  function TwoScores(o: string, x: real, p: string, y: real): (d: Objectives)
    requires o != p
    ensures d.at.Keys == {o, p} && d.at[o] == x && d.at[p] == y
  {
    Dict([o, p], map[o := x, p := y])
  }

  /** With different objectives it is not even acyclic: each of these three beats the next. */
  lemma {:induction false} MixedObjectivesCanCycle(x: string, y: string, z: string)
    returns (a: Objectives, b: Objectives, c: Objectives)
    requires x != y && y != z && z != x
    ensures Beats(a, b, []) && Beats(b, c, []) && Beats(c, a, [])
  {
    a, b, c := TwoScores(x, 1.0, y, 0.0), TwoScores(x, 0.0, z, 1.0), TwoScores(y, 1.0, z, 0.0);
    BeatsOnOnlyCommon(a, b, x);
    BeatsOnOnlyCommon(b, c, z);
    BeatsOnOnlyCommon(c, a, y);
  }
}
