/** The health cache and the routing decision (src/agent/router_legacy.py:159-281). */
module HealthRouter {
  import opened Prelude

  /** The keys of the endpoint table. */
  datatype Model = DeepSeekV32 | KimiK2 | QwenExecutor | MinimaxFailsafe

  datatype Probe = Status(code: int) | Unreachable

  /** One health question: when it is asked, what a probe would find, and when it would finish. */
  datatype Query = Query(model: Model, now: real, probe: Probe, done: real)

  const TTL := 30.0

  type Cache = map<Model, (bool, real)>

  /** The cached answer is still young enough. */
  predicate IsFreshFor(cache: Cache, q: Query) {
    q.model in cache && q.now - cache[q.model].1 < TTL
  }

  function Found(probe: Probe): bool {
    probe == Status(200)
  }

  /** The answer to a question, and the cache afterwards. */
  function Ask(cache: Cache, q: Query): (bool, Cache) {
    if IsFreshFor(cache, q) then (cache[q.model].0, cache)
    else (Found(q.probe), cache[q.model := (Found(q.probe), q.done)])
  }

  datatype Reason = Chosen(complexity: Complexity) | Fallback(complexity: Complexity) | AllUnhealthy

  datatype Decision = Decision(model: Model, reason: Reason, fallback: Option<Model>)

  /** `_select_model`: the primary, and the fallback there always is. */
  function SelectModel(complexity: Complexity): (Model, Model) {
    if complexity == Trivial || complexity == Routine then (QwenExecutor, DeepSeekV32)
    else (DeepSeekV32, QwenExecutor)
  }

  /** The answers `_is_healthy` gives while `route` runs, and the decision they lead to. */
  function Decide(complexity: Complexity, primaryHealthy: bool, fallbackHealthy: bool): Decision {
    var (primary, fallback) := SelectModel(complexity);
    if primaryHealthy then Decision(primary, Chosen(complexity), Some(fallback))
    else if fallbackHealthy then Decision(fallback, Fallback(complexity), None)
    else Decision(primary, AllUnhealthy, Some(fallback))
  }

  /** The questions one `route` asks, given what the first one answers. */
  function QuestionsOf(cache: Cache, complexity: Complexity, first: Query, second: Query): seq<Query> {
    var (primary, fallback) := SelectModel(complexity);
    var p := first.(model := primary);
    if Ask(cache, p).0 then [p] else [p, second.(model := fallback)]
  }

  function RouteFrom(cache: Cache, complexity: Complexity, first: Query, second: Query): (Decision, Cache) {
    var (primary, fallback) := SelectModel(complexity);
    var (primaryHealthy, afterFirst) := Ask(cache, first.(model := primary));
    if primaryHealthy then (Decide(complexity, true, false), afterFirst)
    else
      var (fallbackHealthy, afterSecond) := Ask(afterFirst, second.(model := fallback));
      (Decide(complexity, false, fallbackHealthy), afterSecond)
  }

  class CognitiveRouter {
    var healthCache: Cache

    constructor ()
      ensures healthCache == map[]
    {
      healthCache := map[];
    }

    /** `_is_healthy`. */
    method IsHealthy(q: Query) returns (healthy: bool)
      modifies this
      ensures (healthy, healthCache) == Ask(old(healthCache), q)
    {
      if q.model in healthCache {
        var (cachedHealthy, cachedTime) := healthCache[q.model];
        if q.now - cachedTime < TTL {
          return cachedHealthy;
        }
      }
      match q.probe {
        case Status(code) =>
          healthy := code == 200;
          healthCache := healthCache[q.model := (healthy, q.done)];
        case Unreachable =>
          healthCache := healthCache[q.model := (false, q.done)];
          healthy := false;
      }
    }

    /** `route`, whose body is written out twice, with and without tracing. */
    method Route(tracing: bool, complexity: Complexity, first: Query, second: Query) returns (d: Decision)
      modifies this
      ensures (d, healthCache) == RouteFrom(old(healthCache), complexity, first, second)
    {
      if tracing {
        var (selected, alternative) := SelectModel(complexity);
        var primary, fallback: Option<Model> := selected, Some(alternative);
        var reason := Chosen(complexity);
        var primaryHealthy := IsHealthy(first.(model := primary));
        if !primaryHealthy && fallback.Some? {
          var fallbackHealthy := IsHealthy(second.(model := fallback.value));
          if fallbackHealthy {
            primary := fallback.value;
            fallback := None;
            reason := Fallback(complexity);
          } else {
            reason := AllUnhealthy;
          }
        }
        return Decision(primary, reason, fallback);
      }
      var (selected, alternative) := SelectModel(complexity);
      var primary, fallback: Option<Model> := selected, Some(alternative);
      var reason := Chosen(complexity);
      var primaryHealthy := IsHealthy(first.(model := primary));
      if !primaryHealthy && fallback.Some? {
        var fallbackHealthy := IsHealthy(second.(model := fallback.value));
        if fallbackHealthy {
          primary := fallback.value;
          fallback := None;
          reason := Fallback(complexity);
        } else {
          reason := AllUnhealthy;
        }
      }
      return Decision(primary, reason, fallback);
    }
  }

  // ----- runs of questions ----------------------------------------------

  /** Questions are asked one after the other, and no clock runs backwards. */
  ghost predicate Sequential(run: seq<Query>) {
    && (forall i :: 0 <= i < |run| ==> run[i].now <= run[i].done)
    && (forall i, j :: 0 <= i < j < |run| ==> run[i].done <= run[j].now)
  }

  ghost function CacheAfter(run: seq<Query>): Cache {
    if run == [] then map[]
    else Ask(CacheAfter(run[..|run| - 1]), run[|run| - 1]).1
  }

  /** The questions about one model that were answered by an actual probe. */
  ghost function Probes(run: seq<Query>, model: Model): seq<Query> {
    if run == [] then []
    else
      var n := |run| - 1;
      var q, cache := run[n], CacheAfter(run[..n]);
      Probes(run[..n], model) + (if q.model == model && !IsFreshFor(cache, q) then [q] else [])
  }

  /** The cache holds exactly the result and completion time of each model's latest probe. */
  lemma {:induction false} CacheIsLatestProbe(run: seq<Query>, model: Model)
    ensures model in CacheAfter(run) <==> Probes(run, model) != []
    ensures Probes(run, model) != [] ==>
      var last := Probes(run, model)[|Probes(run, model)| - 1];
      CacheAfter(run)[model] == (last.probe == Status(200), last.done) && last in run
  {
    if run == [] {
    } else {
      CacheIsLatestProbe(run[..|run| - 1], model);
    }
  }

  /** Every answer is the result of the most recent probe of that model, completed less than thirty
      seconds before the question. */
  lemma {:induction false} AnswersAreFresh(run: seq<Query>)
    requires Sequential(run) && run != []
    ensures var n := |run| - 1;
      var q, probes := run[n], Probes(run, run[n].model);
      && probes != []
      && Ask(CacheAfter(run[..n]), q).0 == (probes[|probes| - 1].probe == Status(200))
      && q.now - probes[|probes| - 1].done < 30.0
  {
    CacheIsLatestProbe(run[..|run| - 1], run[|run| - 1].model);
  }

  /** Between the end of one probe of a model and the start of the next lie at least thirty
      seconds. */
  lemma {:induction false} ProbesAreSpaced(run: seq<Query>, model: Model, i: nat)
    requires i + 1 < |Probes(run, model)|
    ensures Probes(run, model)[i + 1].now - Probes(run, model)[i].done >= 30.0
  {
    if run == [] {
    } else {
      var n := |run| - 1;
      var before := Probes(run[..n], model);
      if i + 1 < |before| {
        ProbesAreSpaced(run[..n], model, i);
      } else {
        CacheIsLatestProbe(run[..n], model);
      }
    }
  }

  // ----- runs of routed requests ----------------------------------------

  /** A request, with the circumstances of the one or two health questions it may ask. */
  datatype Request = Request(complexity: Complexity, first: Query, second: Query)

  /** The questions a run of requests asks, in order. */
  ghost function Asked(requests: seq<Request>): seq<Query> {
    if requests == [] then []
    else
      var n := |requests| - 1;
      var r := requests[n];
      Asked(requests[..n]) + QuestionsOf(CacheAfter(Asked(requests[..n])), r.complexity, r.first, r.second)
  }

  /** What the latest probe of a model over a run of questions found: only status 200 is healthy. */
  ghost predicate KnownAs(run: seq<Query>, model: Model, healthy: bool) {
    var probes := Probes(run, model);
    probes != [] && (probes[|probes| - 1].probe == Status(200)) == healthy
  }

  lemma {:induction false} OneMoreQuestion(run: seq<Query>, q: Query)
    ensures CacheAfter(run + [q]) == Ask(CacheAfter(run), q).1
    ensures KnownAs(run + [q], q.model, Ask(CacheAfter(run), q).0)
    ensures forall m :: m != q.model ==> Probes(run + [q], m) == Probes(run, m)
  {
    assert (run + [q])[..|run|] == run;
    CacheIsLatestProbe(run, q.model);
    CacheIsLatestProbe(run + [q], q.model);
  }

  lemma {:induction false} DecidedAsKnown(requests: seq<Request>)
    requires requests != []
    ensures var n := |requests| - 1;
      var r, before, after := requests[n], Asked(requests[..n]), Asked(requests);
      var (d, cache) := RouteFrom(CacheAfter(before), r.complexity, r.first, r.second);
      var (primary, fallback) := SelectModel(r.complexity);
      && cache == CacheAfter(after)
      && d == (if KnownAs(after, primary, true) then Decision(primary, Chosen(r.complexity), Some(fallback))
               else if KnownAs(after, fallback, true) then Decision(fallback, Fallback(r.complexity), None)
               else Decision(primary, AllUnhealthy, Some(fallback)))
      && (KnownAs(after, primary, true) || KnownAs(after, primary, false))
      && (KnownAs(after, primary, false) ==> KnownAs(after, fallback, true) || KnownAs(after, fallback, false))
  {
    var n := |requests| - 1;
    var r, before := requests[n], Asked(requests[..n]);
    var (primary, fallback) := SelectModel(r.complexity);
    var p, f := r.first.(model := primary), r.second.(model := fallback);
    OneMoreQuestion(before, p);
    OneMoreQuestion(before + [p], f);
    assert before + [p] + [f] == before + [p, f];
    assert primary != fallback;
    hide Ask, CacheAfter, Probes;
  }

  /** The decision of the last request of a run follows from the latest probes alone. A trivial or
      routine request goes to Qwen and any other to DeepSeek, unless just the other one of the two is
      known to be healthy: then it goes there and no fallback is left. With both known to be unhealthy
      it goes where it would have gone anyway. */
  lemma {:induction false} RoutesAvoidUnhealthy(requests: seq<Request>)
    requires requests != []
    ensures var n := |requests| - 1;
      var r, before, after := requests[n], Asked(requests[..n]), Asked(requests);
      var (d, cache) := RouteFrom(CacheAfter(before), r.complexity, r.first, r.second);
      var light := r.complexity == Trivial || r.complexity == Routine;
      && cache == CacheAfter(after)
      && (d.model == QwenExecutor || d.model == DeepSeekV32)
      && (light ==> (d.model == DeepSeekV32 <==>
            KnownAs(after, QwenExecutor, false) && KnownAs(after, DeepSeekV32, true)))
      && (!light ==> (d.model == QwenExecutor <==>
            KnownAs(after, DeepSeekV32, false) && KnownAs(after, QwenExecutor, true)))
      && (KnownAs(after, d.model, true) || KnownAs(after, d.model, false))
      && (KnownAs(after, d.model, false) <==>
            KnownAs(after, QwenExecutor, false) && KnownAs(after, DeepSeekV32, false))
      && (d.reason == AllUnhealthy <==> KnownAs(after, d.model, false))
      && (d.reason == Fallback(r.complexity) <==> d.model == if light then DeepSeekV32 else QwenExecutor)
      && (d.reason != AllUnhealthy && d.reason != Fallback(r.complexity) ==> d.reason == Chosen(r.complexity))
      && (d.fallback.None? <==> d.reason.Fallback?)
      && (d.fallback.Some? ==> d.fallback.value == if light then DeepSeekV32 else QwenExecutor)
  {
    DecidedAsKnown(requests);
    hide KnownAs, RouteFrom, Asked, CacheAfter;
    KnownOneWay(Asked(requests), QwenExecutor);
    KnownOneWay(Asked(requests), DeepSeekV32);
  }

  lemma {:induction false} KnownOneWay(run: seq<Query>, model: Model)
    ensures !KnownAs(run, model, true) || !KnownAs(run, model, false)
  {
  }
}
