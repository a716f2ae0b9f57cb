/** What becomes of a rate limit when two tools share one of the limiter's keys
    (src/mcp_proxy/gateway.py:63-73, 172-178). */
module SharedKeys {
  import opened Prelude
  import opened RateLimiting

  // ----- one key, several rates -----------------------------------------

  /** One use of a key: by the tool whose budget it should be, or by another one. */
  datatype Use = Use(mine: bool, limit: int, window: int, now: real)

  /** What is kept for the key after these uses. */
  ghost function KeptOf(uses: seq<Use>): seq<real> {
    if uses == [] then []
    else
      var n := |uses| - 1;
      Step(KeptOf(uses[..n]), uses[n].limit, uses[n].window, uses[n].now)
  }

  /** The tool's own arrivals. */
  ghost function Mine(uses: seq<Use>): seq<real> {
    if uses == [] then []
    else
      var n := |uses| - 1;
      Mine(uses[..n]) + (if uses[n].mine then [uses[n].now] else [])
  }

  /** The decisions on them. */
  ghost function MineAdmitted(uses: seq<Use>): (d: seq<bool>)
    ensures |d| == |Mine(uses)|
  {
    if uses == [] then []
    else
      var n := |uses| - 1;
      MineAdmitted(uses[..n]) +
        (if uses[n].mine then [Admits(KeptOf(uses[..n]), uses[n].limit, uses[n].window, uses[n].now)] else [])
  }

  ghost function MineHistory(uses: seq<Use>): seq<real> {
    History(Mine(uses), MineAdmitted(uses))
  }

  ghost predicate InOrder(uses: seq<Use>) {
    forall i, j :: 0 <= i <= j < |uses| ==> uses[i].now <= uses[j].now
  }

  /** The tool's own uses all carry its rate. */
  ghost predicate OwnRate(uses: seq<Use>, limit: int, window: int) {
    forall k :: 0 <= k < |uses| && uses[k].mine ==> uses[k].limit == limit && uses[k].window == window
  }

  lemma {:induction false} OneMoreUse(uses: seq<Use>, u: Use)
    ensures KeptOf(uses + [u]) == Step(KeptOf(uses), u.limit, u.window, u.now)
    ensures Mine(uses + [u]) == if u.mine then Mine(uses) + [u.now] else Mine(uses)
    ensures MineAdmitted(uses + [u]) ==
      if u.mine then MineAdmitted(uses) + [Admits(KeptOf(uses), u.limit, u.window, u.now)] else MineAdmitted(uses)
    ensures MineHistory(uses + [u]) == MineHistory(uses) +
      (if u.mine && Admits(KeptOf(uses), u.limit, u.window, u.now) then [u.now] else [])
  {
    assert (uses + [u])[..|uses|] == uses;
    assert Mine(uses) + [] == Mine(uses) && MineAdmitted(uses) + [] == MineAdmitted(uses);
    if u.mine {
      var arrivals, d := Mine(uses) + [u.now], MineAdmitted(uses) + [Admits(KeptOf(uses), u.limit, u.window, u.now)];
      assert arrivals[..|Mine(uses)|] == Mine(uses) && d[..|Mine(uses)|] == MineAdmitted(uses);
    }
    hide Step, Admits;
  }

  /** A rate of another tool that cannot make the first tool exceed its limit: its uses forget
      nothing the limit still counts, or always leave something for a limit of one to see. */
  predicate Harmless(otherLimit: int, otherWindow: int, limit: int, window: int) {
    otherWindow >= window || limit <= 0 || (limit == 1 && otherLimit >= 1)
  }

  /** A rate of another tool that leaves the first tool's budget alone: no use of it is ever
      admitted, and none forgets anything the limit still counts. */
  predicate Neutral(otherLimit: int, otherWindow: int, limit: int, window: int) {
    limit <= 0 || (otherLimit <= 0 && otherWindow >= window)
  }

  ghost predicate OthersHarmless(uses: seq<Use>, limit: int, window: int) {
    forall k :: 0 <= k < |uses| && !uses[k].mine ==>
      uses[k].window > 0 && Harmless(uses[k].limit, uses[k].window, limit, window)
  }

  ghost predicate OthersNeutral(uses: seq<Use>, limit: int, window: int) {
    forall k :: 0 <= k < |uses| && !uses[k].mine ==> Neutral(uses[k].limit, uses[k].window, limit, window)
  }

  lemma {:induction false} WithoutLast(uses: seq<Use>, limit: int, window: int)
    requires uses != [] && InOrder(uses) && OwnRate(uses, limit, window)
    ensures var past, u := uses[..|uses| - 1], uses[|uses| - 1];
      && uses == past + [u] && InOrder(past) && OwnRate(past, limit, window)
      && (forall k :: 0 <= k < |past| ==> past[k].now <= u.now)
      && (u.mine ==> u.limit == limit && u.window == window)
      && (OthersHarmless(uses, limit, window) ==> OthersHarmless(past, limit, window))
      && (OthersHarmless(uses, limit, window) && !u.mine ==> u.window > 0 && Harmless(u.limit, u.window, limit, window))
      && (OthersNeutral(uses, limit, window) ==> OthersNeutral(past, limit, window))
      && (OthersNeutral(uses, limit, window) && !u.mine ==> Neutral(u.limit, u.window, limit, window))
  {
    hide Harmless, Neutral;
  }

  lemma {:induction false} RecentKeeps(ts: seq<real>, earlier: real, later: real)
    requires earlier <= later
    ensures Recent(Recent(ts, later), earlier) == Recent(ts, later)
  {
    if ts == [] {
    } else {
      var n := |ts| - 1;
      RecentKeeps(ts[..n], earlier, later);
      RecentConcat(Recent(ts[..n], later), if ts[n] > later then [ts[n]] else [], earlier);
    }
  }

  ghost function AtMost(n: nat, limit: int): int {
    if n <= limit then n else limit
  }

  /** The list shows every admission of the tool that its limit still has to count. */
  ghost predicate Shows(kept: seq<real>, history: seq<real>, limit: int, cutoff: real) {
    AtMost(|Recent(history, cutoff)|, limit) <= |Recent(kept, cutoff)|
  }

  lemma {:induction false} OwnStepShows(kept: seq<real>, history: seq<real>, limit: int, window: int, now: real,
        cutoff: real)
    requires cutoff >= now - window as real && Shows(kept, history, limit, cutoff)
    ensures Shows(Step(kept, limit, window, now),
      history + (if Admits(kept, limit, window, now) then [now] else []), limit, cutoff)
  {
    var tail := if Admits(kept, limit, window, now) then [now] else [];
    RecentOfRecent(kept, now - window as real, cutoff);
    RecentConcat(Recent(kept, now - window as real), tail, cutoff);
    RecentConcat(history, tail, cutoff);
    hide Admits;
  }

  lemma {:induction false} HarmlessStepShows(kept: seq<real>, history: seq<real>, u: Use, limit: int, window: int,
        cutoff: real)
    requires u.window > 0 && Harmless(u.limit, u.window, limit, window) && cutoff >= u.now - window as real
    requires Shows(kept, history, limit, cutoff) && forall k :: 0 <= k < |history| ==> history[k] <= u.now
    ensures Shows(Step(kept, u.limit, u.window, u.now), history, limit, cutoff)
  {
    var c := u.now - u.window as real;
    var tail := if Admits(kept, u.limit, u.window, u.now) then [u.now] else [];
    RecentConcat(Recent(kept, c), tail, cutoff);
    if c <= cutoff {
      RecentOfRecent(kept, c, cutoff);
    } else {
      RecentKeeps(kept, cutoff, c);
    }
    hide Recent;
    if limit == 1 && c > cutoff {
      assert tail == [] ==> |Recent(kept, c)| >= 1;
      OneRecent(u.now, cutoff);
    }
  }

  lemma {:induction false} OneRecent(now: real, cutoff: real)
    ensures now > cutoff ==> Recent([now], cutoff) == [now]
  {
    assert [now][..0] == [];
  }

  lemma {:induction false} HistoryIsPast(uses: seq<Use>, now: real)
    requires forall k :: 0 <= k < |uses| ==> uses[k].now <= now
    ensures forall k :: 0 <= k < |MineHistory(uses)| ==> MineHistory(uses)[k] <= now
  {
    if uses == [] {
    } else {
      var n := |uses| - 1;
      HistoryIsPast(uses[..n], now);
      assert uses == uses[..n] + [uses[n]];
      OneMoreUse(uses[..n], uses[n]);
      hide MineHistory;
    }
  }

  /** While all other uses are harmless, the shared list still shows what the limit counts. */
  lemma {:induction false} SharedListShows(uses: seq<Use>, limit: int, window: int, cutoff: real)
    requires InOrder(uses) && OwnRate(uses, limit, window) && OthersHarmless(uses, limit, window)
    requires uses != [] ==> cutoff >= uses[|uses| - 1].now - window as real
    ensures Shows(KeptOf(uses), MineHistory(uses), limit, cutoff)
  {
    if uses == [] {
    } else {
      var past, u := uses[..|uses| - 1], uses[|uses| - 1];
      WithoutLast(uses, limit, window);
      SharedListShows(past, limit, window, cutoff);
      OneMoreUse(past, u);
      HistoryIsPast(past, u.now);
      hide *;
      if u.mine {
        OwnStepShows(KeptOf(past), MineHistory(past), limit, window, u.now, cutoff);
      } else {
        HarmlessStepShows(KeptOf(past), MineHistory(past), u, limit, window, cutoff);
        assert MineHistory(past) + [] == MineHistory(past);
      }
    }
  }

  /** Harmless rates leave every window within the limit. */
  lemma {:induction false} SharedKeySafety(uses: seq<Use>, limit: int, window: int)
    requires InOrder(uses) && OwnRate(uses, limit, window) && OthersHarmless(uses, limit, window) && limit >= 0
    ensures Legal(Mine(uses), MineAdmitted(uses), limit, window)
  {
    if uses == [] {
    } else {
      var past, u := uses[..|uses| - 1], uses[|uses| - 1];
      WithoutLast(uses, limit, window);
      SharedKeySafety(past, limit, window);
      OneMoreUse(past, u);
      if u.mine {
        SharedListShows(past, limit, window, u.now - window as real);
        hide KeptOf, Mine, MineAdmitted, Harmless, InOrder;
        StaysLegal(Mine(past), MineAdmitted(past), KeptOf(past), limit, window, u.now);
      }
    }
  }

  lemma {:induction false} StaysLegal(arrivals: seq<real>, d: seq<bool>, kept: seq<real>, limit: int, window: int,
        now: real)
    requires |arrivals| == |d| && Legal(arrivals, d, limit, window)
    requires Shows(kept, History(arrivals, d), limit, now - window as real)
    ensures Legal(arrivals + [now], d + [Admits(kept, limit, window, now)], limit, window)
  {
    var x := Admits(kept, limit, window, now);
    assert (arrivals + [now])[..|d|] == arrivals && (d + [x])[..|d|] == d;
    forall lo: real ensures InWindow(arrivals + [now], d + [x], lo, window) <= limit {
      assert InWindow(arrivals, d, lo, window) <= limit;
      if x && lo < now <= lo + window as real {
        WindowWithinRecent(arrivals, d, lo, window, now - window as real);
      }
    }
  }

  // ----- how a shared key breaks a limit --------------------------------

  function Copies<T>(x: T, n: nat): (r: seq<T>)
    ensures |r| == n && forall i :: 0 <= i < n ==> r[i] == x
  {
    if n == 0 then [] else Copies(x, n - 1) + [x]
  }

  lemma {:induction false} RecentCopies(t: real, n: nat, cutoff: real)
    ensures Recent(Copies(t, n), cutoff) == if t > cutoff then Copies(t, n) else []
  {
    if n == 0 {
    } else {
      RecentCopies(t, n - 1, cutoff);
      assert Copies(t, n)[..n - 1] == Copies(t, n - 1);
    }
  }

  lemma {:induction false} CopiesSnoc<T>(x: T, n: nat)
    ensures Copies(x, n + 1) == Copies(x, n) + [x] && Copies(x, 0) == []
  {
  }

  lemma {:induction false} BurstStep(before: seq<Use>, m: nat, limit: int, window: int)
    requires KeptOf(before) == Copies(0.0, m) && m < limit && window > 0
    ensures var own := Use(true, limit, window, 0.0);
      && KeptOf(before + [own]) == Copies(0.0, m + 1)
      && Mine(before + [own]) == Mine(before) + [0.0]
      && MineAdmitted(before + [own]) == MineAdmitted(before) + [true]
  {
    OneMoreUse(before, Use(true, limit, window, 0.0));
    RecentCopies(0.0, m, 0.0 - window as real);
    hide KeptOf, Mine, MineAdmitted, Recent;
  }

  /** A burst at time 0, with `already` timestamps kept. */
  lemma {:induction false} Burst(past: seq<Use>, already: nat, limit: int, window: int, n: nat)
    requires KeptOf(past) == Copies(0.0, already) && already + n <= limit && window > 0
    ensures var uses := past + Copies(Use(true, limit, window, 0.0), n);
      && KeptOf(uses) == Copies(0.0, already + n)
      && Mine(uses) == Mine(past) + Copies(0.0, n)
      && MineAdmitted(uses) == MineAdmitted(past) + Copies(true, n)
  {
    var own := Use(true, limit, window, 0.0);
    hide *;
    if n == 0 {
      CopiesSnoc(own, 0);
      CopiesSnoc(0.0, 0);
      CopiesSnoc(true, 0);
      assert past + [] == past && Mine(past) + [] == Mine(past) && MineAdmitted(past) + [] == MineAdmitted(past);
    } else {
      Burst(past, already, limit, window, n - 1);
      CopiesSnoc(own, n - 1);
      CopiesSnoc(0.0, n - 1);
      CopiesSnoc(true, n - 1);
      BurstStep(past + Copies(own, n - 1), already + n - 1, limit, window);
      ConcatAssociative(past, Copies(own, n - 1), [own]);
      ConcatAssociative(Mine(past), Copies(0.0, n - 1), [0.0]);
      ConcatAssociative(MineAdmitted(past), Copies(true, n - 1), [true]);
    }
  }

  /** A burst fills the budget, the other tool's use forgets it, and one more is let through. */
  function Exceeding(limit: nat, window: int, otherLimit: int, otherWindow: int): seq<Use> {
    Copies(Use(true, limit, window, 0.0), limit) +
    [Use(false, otherLimit, otherWindow, otherWindow as real)] + [Use(true, limit, window, otherWindow as real)]
  }

  lemma {:induction false} AllInWindow(arrivals: seq<real>, lo: real, window: int)
    requires forall k :: 0 <= k < |arrivals| ==> lo < arrivals[k] <= lo + window as real
    ensures InWindow(arrivals, Copies(true, |arrivals|), lo, window) == |arrivals|
  {
    if arrivals == [] {
    } else {
      var n := |arrivals| - 1;
      AllInWindow(arrivals[..n], lo, window);
      assert Copies(true, n + 1)[..n] == Copies(true, n);
    }
  }

  lemma {:induction false} Forgets(kept: seq<real>, otherLimit: int, otherWindow: int, limit: int, window: int, n: nat)
    requires kept == Copies(0.0, n) && limit >= 1 && !Harmless(otherLimit, otherWindow, limit, window)
    ensures Admits(Step(kept, otherLimit, otherWindow, otherWindow as real), limit, window, otherWindow as real)
  {
    var now := otherWindow as real;
    RecentCopies(0.0, n, 0.0);
    assert |Step(kept, otherLimit, otherWindow, now)| < limit;
    RecentShrinks(Step(kept, otherLimit, otherWindow, now), now - window as real);
  }

  lemma {:induction false} RecentShrinks(ts: seq<real>, cutoff: real)
    ensures |Recent(ts, cutoff)| <= |ts|
  {
    if ts == [] {
    } else {
      RecentShrinks(ts[..|ts| - 1], cutoff);
    }
  }

  lemma {:induction false} FirstBurst(limit: nat, window: int)
    requires window > 0
    ensures var burst := Copies(Use(true, limit, window, 0.0), limit);
      KeptOf(burst) == Copies(0.0, limit) && Mine(burst) == Copies(0.0, limit)
        && MineAdmitted(burst) == Copies(true, limit)
  {
    var burst := Copies(Use(true, limit, window, 0.0), limit);
    CopiesSnoc(0.0, 0);
    assert KeptOf([]) == [] && Mine([]) == [] && MineAdmitted([]) == [];
    Burst([], 0, limit, window, limit);
    assert [] + burst == burst && [] + Copies(0.0, limit) == Copies(0.0, limit)
      && [] + Copies(true, limit) == Copies(true, limit);
    hide *;
  }

  lemma {:induction false} SharedKeyExceeds(limit: nat, window: int, otherLimit: int, otherWindow: int)
    requires limit >= 1 && otherWindow > 0 && !Harmless(otherLimit, otherWindow, limit, window)
    ensures var uses := Exceeding(limit, window, otherLimit, otherWindow);
      !Legal(Mine(uses), MineAdmitted(uses), limit, window)
  {
    var burst := Copies(Use(true, limit, window, 0.0), limit);
    var other, own := Use(false, otherLimit, otherWindow, otherWindow as real),
      Use(true, limit, window, otherWindow as real);
    assert window > 0;
    FirstBurst(limit, window);
    OneMoreUse(burst, other);
    OneMoreUse(burst + [other], own);
    Forgets(KeptOf(burst), otherLimit, otherWindow, limit, window, limit);
    CopiesSnoc(true, limit);
    OneTooMany(limit, window, otherWindow);
    var uses := Exceeding(limit, window, otherLimit, otherWindow);
    assert uses == burst + [other] + [own];
    hide *;
  }

  lemma {:induction false} OneTooMany(limit: nat, window: int, otherWindow: int)
    requires 0 < otherWindow < window
    ensures !Legal(Copies(0.0, limit) + [otherWindow as real], Copies(true, limit + 1), limit, window)
  {
    var arrivals, lo := Copies(0.0, limit) + [otherWindow as real], (otherWindow - window) as real;
    AllInWindow(arrivals, lo, window);
    assert InWindow(arrivals, Copies(true, limit + 1), lo, window) == limit + 1;
  }

  // ----- when a shared key leaves a budget alone ------------------------

  /** From any cutoff a later use may take, the shared list looks like the tool's own. */
  ghost predicate SameRecent(kept: seq<real>, own: seq<real>, from: real) {
    forall cutoff: real :: cutoff >= from ==> Recent(kept, cutoff) == Recent(own, cutoff)
  }

  lemma {:induction false} SameRecentLater(kept: seq<real>, own: seq<real>, from: real, later: real)
    requires SameRecent(kept, own, from) && from <= later
    ensures SameRecent(kept, own, later)
  {
    hide Recent;
  }

  lemma {:induction false} OwnStepSame(kept: seq<real>, own: seq<real>, limit: int, window: int, now: real)
    requires SameRecent(kept, own, now - window as real)
    ensures Admits(kept, limit, window, now) == Admits(own, limit, window, now)
    ensures SameRecent(Step(kept, limit, window, now), Step(own, limit, window, now), now - window as real)
  {
    assert Recent(kept, now - window as real) == Recent(own, now - window as real);
  }

  lemma {:induction false} NeutralStepSame(kept: seq<real>, own: seq<real>, u: Use, limit: int, window: int)
    requires Neutral(u.limit, u.window, limit, window) && limit >= 1
    requires SameRecent(kept, own, u.now - window as real)
    ensures SameRecent(Step(kept, u.limit, u.window, u.now), own, u.now - window as real)
  {
    var c := u.now - u.window as real;
    assert Step(kept, u.limit, u.window, u.now) == Recent(kept, c);
    forall cutoff: real | cutoff >= u.now - window as real
      ensures Recent(Recent(kept, c), cutoff) == Recent(own, cutoff)
    {
      RecentOfRecent(kept, c, cutoff);
    }
  }

  lemma {:induction false} RefusedAlways(kept: seq<real>, limit: int, window: int, now: real)
    requires limit <= 0
    ensures !Admits(kept, limit, window, now)
  {
  }

  /** One more use, own or neutral. */
  lemma {:induction false} BudgetStep(kept: seq<real>, own: seq<real>, u: Use, limit: int, window: int)
    requires if u.mine then u.limit == limit && u.window == window else Neutral(u.limit, u.window, limit, window)
    requires limit >= 1 ==> SameRecent(kept, own, u.now - window as real)
    ensures u.mine ==> Admits(kept, limit, window, u.now) == Admits(own, limit, window, u.now)
    ensures limit >= 1 ==>
      var own' := if u.mine then Step(own, limit, window, u.now) else own;
      SameRecent(Step(kept, u.limit, u.window, u.now), own', u.now - window as real)
  {
    if limit <= 0 {
      RefusedAlways(kept, limit, window, u.now);
      RefusedAlways(own, limit, window, u.now);
    } else if u.mine {
      OwnStepSame(kept, own, limit, window, u.now);
    } else {
      NeutralStepSame(kept, own, u, limit, window);
    }
    hide *;
  }

  /** While all other uses are neutral, the tool's decisions are those of a limiter of its own. */
  lemma {:induction false} OwnBudget(uses: seq<Use>, limit: int, window: int, now: real)
    requires InOrder(uses) && OwnRate(uses, limit, window) && OthersNeutral(uses, limit, window)
    requires uses != [] ==> uses[|uses| - 1].now <= now
    ensures MineAdmitted(uses) == Decisions(Mine(uses), limit, window)
    ensures limit >= 1 ==> SameRecent(KeptOf(uses), Kept(Mine(uses), limit, window), now - window as real)
  {
    if uses == [] {
    } else {
      var past, u := uses[..|uses| - 1], uses[|uses| - 1];
      WithoutLast(uses, limit, window);
      OwnBudget(past, limit, window, u.now);
      OneMoreUse(past, u);
      BudgetStep(KeptOf(past), Kept(Mine(past), limit, window), u, limit, window);
      OneMoreDecision(Mine(past), u.now, limit, window);
      hide *;
      assert limit >= 1 ==> SameRecent(KeptOf(uses), Kept(Mine(uses), limit, window), u.now - window as real);
      if limit >= 1 {
        SameRecentLater(KeptOf(uses), Kept(Mine(uses), limit, window), u.now - window as real, now - window as real);
      }
    }
  }

  lemma {:induction false} OneMoreDecision(times: seq<real>, now: real, limit: int, window: int)
    ensures Decisions(times + [now], limit, window) ==
      Decisions(times, limit, window) + [Admits(Kept(times, limit, window), limit, window, now)]
    ensures Kept(times + [now], limit, window) == Step(Kept(times, limit, window), limit, window, now)
  {
    assert (times + [now])[..|times|] == times;
  }

  /** A key nobody else uses. */
  lemma {:induction false} OwnKey(uses: seq<Use>, limit: int, window: int)
    requires OwnRate(uses, limit, window) && forall k :: 0 <= k < |uses| ==> uses[k].mine
    ensures MineAdmitted(uses) == Decisions(Mine(uses), limit, window)
    ensures KeptOf(uses) == Kept(Mine(uses), limit, window)
  {
    if uses == [] {
    } else {
      var n := |uses| - 1;
      OwnKey(uses[..n], limit, window);
      assert uses == uses[..n] + [uses[n]];
      OneMoreUse(uses[..n], uses[n]);
      OneMoreDecision(Mine(uses[..n]), uses[n].now, limit, window);
      hide KeptOf, Mine, MineAdmitted, Kept, Decisions, Step, Admits;
    }
  }

  /** A foreign admission before a burst that would just fill the budget. */
  function CrowdingOut(limit: nat, window: int, otherLimit: int, otherWindow: int): seq<Use> {
    [Use(false, otherLimit, otherWindow, 0.0)] + Copies(Use(true, limit, window, 0.0), limit)
  }

  /** A run on a shared key whose decisions differ from those of a limiter of its own. */
  function Disturbing(limit: nat, window: int, otherLimit: int, otherWindow: int): seq<Use> {
    if otherLimit >= 1 then CrowdingOut(limit, window, otherLimit, otherWindow)
    else Exceeding(limit, window, otherLimit, otherWindow)
  }

  lemma {:induction false} ForeignFirst(otherLimit: int, otherWindow: int)
    requires otherLimit >= 1
    ensures var first := [Use(false, otherLimit, otherWindow, 0.0)];
      KeptOf(first) == Copies(0.0, 1) && Mine(first) == [] && MineAdmitted(first) == []
  {
    var other := Use(false, otherLimit, otherWindow, 0.0);
    OneMoreUse([], other);
    assert [] + [other] == [other] && Recent([], 0.0 - otherWindow as real) == [];
    CopiesSnoc(0.0, 0);
    hide Copies;
  }

  lemma {:induction false} BurstIsAdmitted(limit: nat, window: int)
    requires window > 0
    ensures Decisions(Copies(0.0, limit), limit, window) == Copies(true, limit)
  {
    FirstBurst(limit, window);
    OwnKey(Copies(Use(true, limit, window, 0.0), limit), limit, window);
    hide *;
  }

  lemma {:induction false} BurstAfterForeign(limit: nat, window: int, otherLimit: int, otherWindow: int)
    requires limit >= 1 && window > 0 && otherLimit >= 1
    ensures var uses := [Use(false, otherLimit, otherWindow, 0.0)] + Copies(Use(true, limit, window, 0.0), limit - 1);
      KeptOf(uses) == Copies(0.0, limit) && Mine(uses) == Copies(0.0, limit - 1)
        && MineAdmitted(uses) == Copies(true, limit - 1)
  {
    ForeignFirst(otherLimit, otherWindow);
    Burst([Use(false, otherLimit, otherWindow, 0.0)], 1, limit, window, limit - 1);
    hide *;
    assert [] + Copies(0.0, limit - 1) == Copies(0.0, limit - 1);
    assert [] + Copies(true, limit - 1) == Copies(true, limit - 1);
  }

  lemma {:induction false} FullRefuses(before: seq<Use>, limit: nat, window: int)
    requires KeptOf(before) == Copies(0.0, limit) && window > 0
    ensures var uses := before + [Use(true, limit, window, 0.0)];
      Mine(uses) == Mine(before) + [0.0] && MineAdmitted(uses) == MineAdmitted(before) + [false]
  {
    OneMoreUse(before, Use(true, limit, window, 0.0));
    RecentCopies(0.0, limit, 0.0 - window as real);
    hide KeptOf, Mine, MineAdmitted, Recent, MineHistory;
  }

  lemma {:induction false} BurstIsCutShort(limit: nat, window: int, otherLimit: int, otherWindow: int)
    requires limit >= 1 && window > 0 && otherLimit >= 1
    ensures var uses := CrowdingOut(limit, window, otherLimit, otherWindow);
      Mine(uses) == Copies(0.0, limit) && MineAdmitted(uses) == Copies(true, limit - 1) + [false]
  {
    var first, own := [Use(false, otherLimit, otherWindow, 0.0)], Use(true, limit, window, 0.0);
    assert CrowdingOut(limit, window, otherLimit, otherWindow) == first + Copies(own, limit);
    hide *;
    BurstAfterForeign(limit, window, otherLimit, otherWindow);
    FullRefuses(first + Copies(own, limit - 1), limit, window);
    CopiesSnoc(own, limit - 1);
    CopiesSnoc(0.0, limit - 1);
    ConcatAssociative(first, Copies(own, limit - 1), [own]);
  }

  lemma {:induction false} CrowdedOut(limit: nat, window: int, otherLimit: int, otherWindow: int)
    requires limit >= 1 && window > 0 && otherLimit >= 1
    ensures var uses := CrowdingOut(limit, window, otherLimit, otherWindow);
      MineAdmitted(uses) != Decisions(Mine(uses), limit, window)
  {
    BurstIsAdmitted(limit, window);
    BurstIsCutShort(limit, window, otherLimit, otherWindow);
    CopiesSnoc(true, limit - 1);
    hide *;
    assert (Copies(true, limit - 1) + [false])[limit - 1] != (Copies(true, limit - 1) + [true])[limit - 1];
  }

  lemma {:induction false} DisturbingDiffers(limit: nat, window: int, otherLimit: int, otherWindow: int)
    requires window > 0 && otherWindow > 0 && !Neutral(otherLimit, otherWindow, limit, window)
    ensures var uses := Disturbing(limit, window, otherLimit, otherWindow);
      MineAdmitted(uses) != Decisions(Mine(uses), limit, window)
  {
    if otherLimit >= 1 {
      CrowdedOut(limit, window, otherLimit, otherWindow);
    } else {
      SharedKeyExceeds(limit, window, otherLimit, otherWindow);
      var uses := Exceeding(limit, window, otherLimit, otherWindow);
      MineInOrder(uses);
      WindowSafety(Mine(uses), limit, window);
    }
    hide Legal, MineAdmitted, Decisions, Mine;
  }

  lemma {:induction false} MineInOrder(uses: seq<Use>)
    requires InOrder(uses)
    ensures Nondecreasing(Mine(uses))
    ensures uses != [] ==> forall k :: 0 <= k < |Mine(uses)| ==> Mine(uses)[k] <= uses[|uses| - 1].now
  {
    if uses == [] {
    } else {
      var n := |uses| - 1;
      MineInOrder(uses[..n]);
      assert n > 0 ==> uses[n - 1].now <= uses[n].now;
    }
  }

  /** The uses stem from the tool and one other, at its rate, and in order. */
  ghost predicate FromTwo(uses: seq<Use>, limit: int, window: int, otherLimit: int, otherWindow: int) {
    && InOrder(uses) && OwnRate(uses, limit, window)
    && forall k :: 0 <= k < |uses| && !uses[k].mine ==> uses[k].limit == otherLimit && uses[k].window == otherWindow
  }

  lemma {:induction false} ExceedingIsFromTwo(limit: nat, window: int, otherLimit: int, otherWindow: int)
    requires otherWindow > 0
    ensures FromTwo(Exceeding(limit, window, otherLimit, otherWindow), limit, window, otherLimit, otherWindow)
  {
    hide Copies;
  }

  lemma {:induction false} DisturbingIsFromTwo(limit: nat, window: int, otherLimit: int, otherWindow: int)
    requires otherWindow > 0
    ensures FromTwo(Disturbing(limit, window, otherLimit, otherWindow), limit, window, otherLimit, otherWindow)
  {
    ExceedingIsFromTwo(limit, window, otherLimit, otherWindow);
    hide Copies, Exceeding;
  }
}
