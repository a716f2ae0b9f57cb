/** The sliding-window rate limiter (src/mcp_proxy/gateway.py:57-73).

    Time is a parameter: each call passes the value the clock shows. */
module RateLimiting {
  import opened Prelude

  /** The timestamps after the cutoff, in order. */
  function Recent(ts: seq<real>, cutoff: real): seq<real> {
    if ts == [] then []
    else
      var n := |ts| - 1;
      Recent(ts[..n], cutoff) + (if ts[n] > cutoff then [ts[n]] else [])
  }

  /** Whether a request at `now` is admitted, given the timestamps kept so far. */
  predicate Admits(kept: seq<real>, limit: int, window: int, now: real) {
    |Recent(kept, now - window as real)| < limit
  }

  /** The timestamps kept after that request. */
  function Step(kept: seq<real>, limit: int, window: int, now: real): seq<real> {
    Recent(kept, now - window as real) + (if Admits(kept, limit, window, now) then [now] else [])
  }

  /** `self.requests[key]` of a `defaultdict(list)`. */
  function Lookup(requests: map<string, seq<real>>, key: string): seq<real> {
    if key in requests then requests[key] else []
  }

  class RateLimiter {
    var requests: map<string, seq<real>>

    constructor ()
      ensures requests == map[]
    {
      requests := map[];
    }

    /** `is_allowed`. */
    method IsAllowed(key: string, limit: int, windowSeconds: int, now: real) returns (allowed: bool)
      modifies this
      ensures allowed <==> Admits(Lookup(old(requests), key), limit, windowSeconds, now)
      ensures requests == old(requests)[key := Step(Lookup(old(requests), key), limit, windowSeconds, now)]
    {
      var cutoff := now - windowSeconds as real;
      var timestamps := Lookup(requests, key);
      var kept := [];
      for k := 0 to |timestamps|
        invariant kept == Recent(timestamps[..k], cutoff)
      {
        assert timestamps[..k + 1][..k] == timestamps[..k];
        if timestamps[k] > cutoff {
          kept := kept + [timestamps[k]];
        }
      }
      assert timestamps[..|timestamps|] == timestamps;
      requests := requests[key := kept];
      if |requests[key]| >= limit {
        assert kept + [] == kept;
        return false;
      }
      requests := requests[key := requests[key] + [now]];
      return true;
    }
  }

  // ----- runs on one key -------------------------------------------------

  ghost predicate Nondecreasing(a: seq<real>) {
    forall i, j :: 0 <= i <= j < |a| ==> a[i] <= a[j]
  }

  /** The timestamps kept after a run of requests on one key. */
  ghost function Kept(arrivals: seq<real>, limit: int, window: int): seq<real> {
    if arrivals == [] then []
    else
      var n := |arrivals| - 1;
      Step(Kept(arrivals[..n], limit, window), limit, window, arrivals[n])
  }

  /** The decisions of the limiter over the same run. */
  ghost function Decisions(arrivals: seq<real>, limit: int, window: int): (d: seq<bool>)
    ensures |d| == |arrivals|
  {
    if arrivals == [] then []
    else
      var n := |arrivals| - 1;
      Decisions(arrivals[..n], limit, window) +
        [Admits(Kept(arrivals[..n], limit, window), limit, window, arrivals[n])]
  }

  /** Every timestamp admitted over the run: the history the limiter does not keep. */
  ghost function History(arrivals: seq<real>, decisions: seq<bool>): seq<real>
    requires |arrivals| == |decisions|
  {
    if arrivals == [] then []
    else
      var n := |arrivals| - 1;
      History(arrivals[..n], decisions[..n]) + (if decisions[n] then [arrivals[n]] else [])
  }

  lemma {:induction false} RecentConcat(a: seq<real>, b: seq<real>, cutoff: real)
    ensures Recent(a + b, cutoff) == Recent(a, cutoff) + Recent(b, cutoff)
  {
    if b == [] {
      assert a + b == a;
    } else {
      assert (a + b)[..|a + b| - 1] == a + b[..|b| - 1];
      RecentConcat(a, b[..|b| - 1], cutoff);
    }
  }

  lemma {:induction false} RecentOfRecent(ts: seq<real>, earlier: real, later: real)
    requires earlier <= later
    ensures Recent(Recent(ts, earlier), later) == Recent(ts, later)
  {
    if ts == [] {
    } else {
      var n := |ts| - 1;
      RecentOfRecent(ts[..n], earlier, later);
      RecentConcat(Recent(ts[..n], earlier), if ts[n] > earlier then [ts[n]] else [], later);
    }
  }

  lemma {:induction false} PrunedStep(kept: seq<real>, history: seq<real>, tail: seq<real>, earlier: real, later: real)
    requires earlier <= later && Recent(kept, later) == Recent(history, later)
    ensures Recent(Recent(kept, earlier) + tail, later) == Recent(history + tail, later)
  {
    RecentOfRecent(kept, earlier, later);
    RecentConcat(Recent(kept, earlier), tail, later);
    RecentConcat(history, tail, later);
  }

  lemma {:induction false} OneMoreRequest(arrivals: seq<real>, limit: int, window: int)
    requires arrivals != []
    ensures var n := |arrivals| - 1;
      var past, now := arrivals[..n], arrivals[n];
      var kept := Kept(past, limit, window);
      var tail := if Admits(kept, limit, window, now) then [now] else [];
      && Kept(arrivals, limit, window) == Recent(kept, now - window as real) + tail
      && History(arrivals, Decisions(arrivals, limit, window)) == History(past, Decisions(past, limit, window)) + tail
  {
    var n := |arrivals| - 1;
    assert Decisions(arrivals, limit, window)[..n] == Decisions(arrivals[..n], limit, window);
    hide Recent, Admits;
  }

  /** From any cutoff a later request may use, the pruned list and the full history look alike. */
  lemma {:induction false} PrunedListRefinesHistory(arrivals: seq<real>, limit: int, window: int, cutoff: real)
    requires Nondecreasing(arrivals)
    requires arrivals != [] ==> cutoff >= arrivals[|arrivals| - 1] - window as real
    ensures Recent(Kept(arrivals, limit, window), cutoff) ==
      Recent(History(arrivals, Decisions(arrivals, limit, window)), cutoff)
  {
    if arrivals == [] {
    } else {
      var n := |arrivals| - 1;
      var past, now := arrivals[..n], arrivals[n];
      PrunedListRefinesHistory(past, limit, window, cutoff);
      var kept, d := Kept(past, limit, window), Decisions(past, limit, window);
      var tail := if Admits(kept, limit, window, now) then [now] else [];
      PrunedStep(kept, History(past, d), tail, now - window as real, cutoff);
      OneMoreRequest(arrivals, limit, window);
      hide *;
    }
  }

  /** Never more timestamps are kept than the limit. */
  lemma {:induction false} KeptIsBounded(arrivals: seq<real>, limit: int, window: int)
    ensures |Kept(arrivals, limit, window)| <= Max(0, limit)
  {
    if arrivals == [] {
    } else {
      var n := |arrivals| - 1;
      KeptIsBounded(arrivals[..n], limit, window);
      RecentShrinks(Kept(arrivals[..n], limit, window), arrivals[n] - window as real);
      hide Recent;
    }
  }

  lemma {:induction false} RecentShrinks(ts: seq<real>, cutoff: real)
    ensures |Recent(ts, cutoff)| <= |ts|
  {
    if ts == [] {
    } else {
      RecentShrinks(ts[..|ts| - 1], cutoff);
    }
  }

  lemma {:induction false} RecentTail(now: real, cutoff: real, admitted: bool)
    requires now > cutoff
    ensures var tail := if admitted then [now] else []; Recent(tail, cutoff) == tail
  {
    assert [now][..0] == [];
  }

  /** What is kept after a request, admitted or refused, is just the admissions less than one window
      old. */
  lemma {:induction false} KeptIsRecentHistory(arrivals: seq<real>, limit: int, window: int)
    requires Nondecreasing(arrivals) && arrivals != [] && window > 0
    ensures Kept(arrivals, limit, window) ==
      Recent(History(arrivals, Decisions(arrivals, limit, window)), arrivals[|arrivals| - 1] - window as real)
  {
    var n := |arrivals| - 1;
    var kept, now := Kept(arrivals[..n], limit, window), arrivals[n];
    var cutoff, admitted := now - window as real, Admits(kept, limit, window, now);
    PrunedListRefinesHistory(arrivals, limit, window, cutoff);
    OneMoreRequest(arrivals, limit, window);
    hide *;
    RecentConcat(Recent(kept, cutoff), if admitted then [now] else [], cutoff);
    RecentOfRecent(kept, cutoff, cutoff);
    RecentTail(now, cutoff, admitted);
  }

  /** Each decision on the pruned list is the decision on the whole admission history. */
  lemma {:induction false} DecisionOnHistory(arrivals: seq<real>, limit: int, window: int, now: real)
    requires Nondecreasing(arrivals + [now])
    ensures Admits(Kept(arrivals, limit, window), limit, window, now) <==>
      |Recent(History(arrivals, Decisions(arrivals, limit, window)), now - window as real)| < limit
  {
    assert forall i :: 0 <= i < |arrivals| ==> arrivals[i] == (arrivals + [now])[i];
    assert (arrivals + [now])[|arrivals|] == now;
    PrunedListRefinesHistory(arrivals, limit, window, now - window as real);
  }

  // ----- safety of every window -----------------------------------------

  /** How many of the requests in the interval (lo, lo + window] were admitted. */
  ghost function InWindow(arrivals: seq<real>, decisions: seq<bool>, lo: real, window: int): nat
    requires |arrivals| == |decisions|
  {
    if arrivals == [] then 0
    else
      var n := |arrivals| - 1;
      InWindow(arrivals[..n], decisions[..n], lo, window) +
        (if decisions[n] && lo < arrivals[n] <= lo + window as real then 1 else 0)
  }

  /** At most `limit` admissions in every interval of one window's length. */
  ghost predicate Legal(arrivals: seq<real>, decisions: seq<bool>, limit: int, window: int)
    requires |arrivals| == |decisions|
  {
    forall lo: real :: InWindow(arrivals, decisions, lo, window) <= limit
  }

  /** Of the requests up to `now`, no more lie in any window that reaches `now` than are recent. */
  lemma {:induction false} WindowWithinRecent(arrivals: seq<real>, decisions: seq<bool>, lo: real, window: int,
        cutoff: real)
    requires |arrivals| == |decisions| && cutoff <= lo
    ensures InWindow(arrivals, decisions, lo, window) <= |Recent(History(arrivals, decisions), cutoff)|
  {
    if arrivals == [] {
    } else {
      var n := |arrivals| - 1;
      WindowWithinRecent(arrivals[..n], decisions[..n], lo, window, cutoff);
      RecentConcat(History(arrivals[..n], decisions[..n]), if decisions[n] then [arrivals[n]] else [], cutoff);
    }
  }

  /** The limiter never admits more than `limit` requests in any interval of one window. */
  lemma {:induction false} WindowSafety(arrivals: seq<real>, limit: int, window: int)
    requires Nondecreasing(arrivals) && limit >= 0
    ensures Legal(arrivals, Decisions(arrivals, limit, window), limit, window)
  {
    var d := Decisions(arrivals, limit, window);
    if arrivals == [] {
    } else {
      var n := |arrivals| - 1;
      var past, now := arrivals[..n], arrivals[n];
      WindowSafety(past, limit, window);
      assert d[..n] == Decisions(past, limit, window) && arrivals == past + [now];
      forall lo: real ensures InWindow(arrivals, d, lo, window) <= limit {
        assert InWindow(past, d[..n], lo, window) <= limit;
        if d[n] && lo < now <= lo + window as real {
          DecisionOnHistory(past, limit, window, now);
          WindowWithinRecent(past, d[..n], lo, window, now - window as real);
        }
      }
    }
  }

  // ----- greedy optimality ----------------------------------------------

  ghost function Admissions(decisions: seq<bool>): nat {
    if decisions == [] then 0
    else Admissions(decisions[..|decisions| - 1]) + (if decisions[|decisions| - 1] then 1 else 0)
  }

  /** The first request after the cutoff, or the end of the run. */
  ghost function FirstAfter(arrivals: seq<real>, cutoff: real): (m: nat)
    requires Nondecreasing(arrivals)
    ensures m <= |arrivals|
    ensures forall i :: 0 <= i < m ==> arrivals[i] <= cutoff
    ensures forall i :: m <= i < |arrivals| ==> arrivals[i] > cutoff
  {
    if arrivals == [] then 0
    else
      var n := |arrivals| - 1;
      if arrivals[n] <= cutoff then n + 1 else FirstAfter(arrivals[..n], cutoff)
  }

  /** Admissions after the cutoff are those from position `m` on. */
  lemma {:induction false} RecentCount(arrivals: seq<real>, decisions: seq<bool>, cutoff: real, m: nat)
    requires |arrivals| == |decisions| && m <= |arrivals|
    requires forall i :: 0 <= i < m ==> arrivals[i] <= cutoff
    requires forall i :: m <= i < |arrivals| ==> arrivals[i] > cutoff
    ensures |Recent(History(arrivals, decisions), cutoff)| == Admissions(decisions) - Admissions(decisions[..m])
  {
    if arrivals == [] {
    } else {
      var n := |arrivals| - 1;
      RecentConcat(History(arrivals[..n], decisions[..n]), if decisions[n] then [arrivals[n]] else [], cutoff);
      if m == |arrivals| {
        RecentCount(arrivals[..n], decisions[..n], cutoff, n);
        assert decisions[..m] == decisions && decisions[..n][..n] == decisions[..n];
      } else {
        RecentCount(arrivals[..n], decisions[..n], cutoff, m);
        assert decisions[..n][..m] == decisions[..m];
      }
    }
  }

  lemma {:induction false} WindowCount(arrivals: seq<real>, decisions: seq<bool>, lo: real, window: int, m: nat)
    requires |arrivals| == |decisions| && m <= |arrivals|
    requires forall i :: 0 <= i < m ==> arrivals[i] <= lo
    requires forall i :: m <= i < |arrivals| ==> lo < arrivals[i] <= lo + window as real
    ensures InWindow(arrivals, decisions, lo, window) == Admissions(decisions) - Admissions(decisions[..m])
  {
    if arrivals == [] {
    } else {
      var n := |arrivals| - 1;
      if m == |arrivals| {
        WindowCount(arrivals[..n], decisions[..n], lo, window, n);
        assert decisions[..m] == decisions && decisions[..n][..n] == decisions[..n];
      } else {
        WindowCount(arrivals[..n], decisions[..n], lo, window, m);
        assert decisions[..n][..m] == decisions[..m];
      }
    }
  }

  /** A legal policy stays legal when the run is cut short. */
  lemma {:induction false} LegalPrefix(arrivals: seq<real>, decisions: seq<bool>, limit: int, window: int)
    requires |arrivals| == |decisions| > 0 && Legal(arrivals, decisions, limit, window)
    ensures Legal(arrivals[..|arrivals| - 1], decisions[..|arrivals| - 1], limit, window)
  {
    var n := |arrivals| - 1;
    forall lo: real ensures InWindow(arrivals[..n], decisions[..n], lo, window) <= limit {
      assert InWindow(arrivals, decisions, lo, window) <= limit;
    }
  }

  /** Where the limiter refuses a request that a legal rival accepts, the limiter was ahead. */
  lemma {:induction false} RefusalIsForced(arrivals: seq<real>, limit: int, window: int, rival: seq<bool>, now: real)
    requires window > 0
    requires Nondecreasing(arrivals + [now]) && |rival| == |arrivals|
    requires !Admits(Kept(arrivals, limit, window), limit, window, now)
    requires Leads(Decisions(arrivals, limit, window), rival)
    requires Legal(arrivals + [now], rival + [true], limit, window)
    ensures Admissions(rival) < Admissions(Decisions(arrivals, limit, window))
  {
    var d, cutoff := Decisions(arrivals, limit, window), now - window as real;
    var all := arrivals + [now];
    assert forall i :: 0 <= i < |arrivals| ==> all[i] == arrivals[i];
    assert all[|arrivals|] == now && all[..|arrivals|] == arrivals && (rival + [true])[..|rival|] == rival;
    DecisionOnHistory(arrivals, limit, window, now);
    var m := FirstAfter(arrivals, cutoff);
    RecentCount(arrivals, d, cutoff, m);
    WindowCount(arrivals, rival, cutoff, window, m);
    assert InWindow(all, rival + [true], cutoff, window) == InWindow(arrivals, rival, cutoff, window) + 1;
    assert InWindow(all, rival + [true], cutoff, window) <= limit;
    assert Admissions(rival[..m]) <= Admissions(d[..m]);
  }

  /** `d` has at least as many admissions as `rival` after every prefix. */
  ghost predicate Leads(d: seq<bool>, rival: seq<bool>)
    requires |d| == |rival|
  {
    forall n :: 0 <= n <= |d| ==> Admissions(rival[..n]) <= Admissions(d[..n])
  }

  lemma {:induction false} LeadsStep(d: seq<bool>, rival: seq<bool>, x: bool, y: bool)
    requires |d| == |rival| && Leads(d, rival)
    requires y && !x ==> Admissions(rival) < Admissions(d)
    ensures Leads(d + [x], rival + [y])
  {
    assert rival[..|d|] == rival && d[..|d|] == d;
    forall n | 0 <= n <= |d| + 1 ensures Admissions((rival + [y])[..n]) <= Admissions((d + [x])[..n]) {
      if n <= |d| {
        assert (rival + [y])[..n] == rival[..n] && (d + [x])[..n] == d[..n];
      } else {
        assert (rival + [y])[..n] == rival + [y] && (d + [x])[..n] == d + [x];
        assert (rival + [y])[..|d|] == rival && (d + [x])[..|d|] == d;
      }
    }
  }

  /** After every prefix the limiter has admitted at least as many requests as any policy that
      respects the limit in every window. */
  lemma {:induction false} GreedyOptimal(arrivals: seq<real>, limit: int, window: int, rival: seq<bool>)
    requires window > 0 && Nondecreasing(arrivals) && |rival| == |arrivals|
    requires Legal(arrivals, rival, limit, window)
    ensures Leads(Decisions(arrivals, limit, window), rival)
  {
    if arrivals == [] {
    } else {
      var n := |arrivals| - 1;
      var past, now, theirs := arrivals[..n], arrivals[n], rival[..n];
      var ours := Decisions(past, limit, window);
      LegalPrefix(arrivals, rival, limit, window);
      GreedyOptimal(past, limit, window, theirs);
      var x := Admits(Kept(past, limit, window), limit, window, now);
      assert past + [now] == arrivals && theirs + [rival[n]] == rival;
      if rival[n] && !x {
        RefusalIsForced(past, limit, window, theirs, now);
      }
      LeadsStep(ours, theirs, x, rival[n]);
    }
  }

  // ----- many keys -------------------------------------------------------

  datatype Event = Event(key: string, now: real)

  /** The limiter's table after a run over many keys, each with its own fixed limit and window. */
  ghost function Table(events: seq<Event>, rates: map<string, (int, int)>): map<string, seq<real>>
    requires forall e :: e in events ==> e.key in rates
  {
    if events == [] then map[]
    else
      var n := |events| - 1;
      var e, before := events[n], Table(events[..n], rates);
      before[e.key := Step(Lookup(before, e.key), rates[e.key].0, rates[e.key].1, e.now)]
  }

  ghost function ArrivalsOf(events: seq<Event>, key: string): seq<real> {
    if events == [] then []
    else
      var n := |events| - 1;
      ArrivalsOf(events[..n], key) + (if events[n].key == key then [events[n].now] else [])
  }

  /** Calls on other keys change nothing: what is kept for a key is what a run of its own
      requests alone would keep. */
  lemma {:induction false} KeysAreIndependent(events: seq<Event>, rates: map<string, (int, int)>, key: string)
    requires key in rates && forall e :: e in events ==> e.key in rates
    ensures Lookup(Table(events, rates), key) == Kept(ArrivalsOf(events, key), rates[key].0, rates[key].1)
  {
    if events == [] {
    } else {
      var n := |events| - 1;
      KeysAreIndependent(events[..n], rates, key);
      var arrivals := ArrivalsOf(events[..n], key);
      assert (arrivals + [events[n].now])[..|arrivals|] == arrivals;
      assert (arrivals + [events[n].now])[|arrivals|] == events[n].now && arrivals + [] == arrivals;
      hide Step;
    }
  }
}
