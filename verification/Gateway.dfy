/** The audit counters and the decision skeleton of the gateway
    (src/mcp_proxy/audit.py:62-112, src/mcp_proxy/gateway.py:134-241). */
module Gateway {
  import opened Prelude
  import opened Allowlisting
  import opened RateLimiting
  import opened SharedKeys

  /** The statuses and the denial reasons the gateway uses as label values. */
  datatype Kind = Denied | Error | Succeeded | NotInAllowlist | RateLimited {
    function Text(): string {
      match this
      case Denied => "denied"
      case Error => "error"
      case Succeeded => "success"
      case NotInAllowlist => "not_in_allowlist"
      case RateLimited => "rate_limited"
    }
  }

  /** Labels of one Prometheus counter: tool, method, and status or reason. */
  datatype Labels = Labels(tool: string, methodName: string, kind: Kind)

  datatype AuditEvent = AuditEvent(auditId: string, labels: Labels, durationMs: Option<real>, error: Option<string>)

  function Count(counter: map<Labels, nat>, l: Labels): nat {
    if l in counter then counter[l] else 0
  }

  function Increment(counter: map<Labels, nat>, l: Labels): map<Labels, nat> {
    counter[l := Count(counter, l) + 1]
  }

  /** The counters, the observed durations in seconds, and the lines written. */
  datatype Audit = Audit(
    invocations: map<Labels, nat>,
    denials: map<Labels, nat>,
    durations: seq<(string, string, real)>,
    log: seq<AuditEvent>)

  /** Everything the handler changes. */
  datatype State = State(table: map<string, seq<real>>, audit: Audit)

  function LogInvocation(a: Audit, e: AuditEvent): Audit {
    a.(invocations := Increment(a.invocations, e.labels),
       durations := if e.durationMs.Some? && e.durationMs.value != 0.0
                    then a.durations + [(e.labels.tool, e.labels.methodName, e.durationMs.value / 1000.0)]
                    else a.durations,
       log := a.log + [e])
  }

  function LogDenied(a: Audit, auditId: string, tool: string, methodName: string, reason: Kind): Audit {
    LogInvocation(
      a.(denials := Increment(a.denials, Labels(tool, methodName, reason))),
      AuditEvent(auditId, Labels(tool, methodName, Denied), None, Some(reason.Text())))
  }

  /** One request, with the clock readings, fresh id and outcome of the forwarded call it meets. */
  datatype Call = Call(tool: string, methodName: string, now: real, durationMs: real, auditId: string, outcome: Outcome)
  datatype Outcome = Returned(result: string) | Raised(message: string)

  datatype Response =
    | Forbidden
    | TooManyRequests
    | Success(result: string)
    | Failed(error: Fault)

  /** What the catch-all branch reports: an unreadable rate limit, or the forwarded call's error. */
  datatype Fault = BadRateLimit(text: string) | ForwardRaised(message: string) {
    function Message(): string {
      if BadRateLimit? then text else message
    }
  }

  function RateKey(tool: string, methodName: string): string {
    tool + ":" + methodName
  }

  /** Whether the handler consults the limiter, and with what rate. */
  function RateOf(rules: Rules, tool: string): Option<Option<(int, int)>> {
    var p := rules.GetPermission(tool);
    if p.Some? then Some(ParseRateLimit(p.value.rateLimit)) else None
  }

  function Fail(st: State, c: Call, fault: Fault): (State, Response) {
    var event := AuditEvent(c.auditId, Labels(c.tool, c.methodName, Error), Some(c.durationMs), Some(fault.Message()));
    (st.(audit := LogInvocation(st.audit, event)), Failed(fault))
  }

  function Forward(rules: Rules, st: State, c: Call): (State, Response) {
    match c.outcome
    case Raised(message) => Fail(st, c, ForwardRaised(message))
    case Returned(result) =>
      var p := rules.GetPermission(c.tool);
      var event := AuditEvent(c.auditId, Labels(c.tool, c.methodName, Succeeded), Some(c.durationMs), None);
      (if p.Some? && p.value.audit then st.(audit := LogInvocation(st.audit, event)) else st, Success(result))
  }

  /** `invoke_tool` once the gateway is initialised. */
  function Handle(rules: Rules, st: State, c: Call): (State, Response) {
    if !rules.IsAllowed(c.tool, c.methodName) then
      (st.(audit := LogDenied(st.audit, c.auditId, c.tool, c.methodName, NotInAllowlist)), Forbidden)
    else
      match RateOf(rules, c.tool)
      case None => Forward(rules, st, c)
      case Some(None) => Fail(st, c, BadRateLimit(rules.allowed[c.tool].rateLimit))
      case Some(Some((limit, window))) =>
        var key := RateKey(c.tool, c.methodName);
        var kept := Lookup(st.table, key);
        var st' := st.(table := st.table[key := Step(kept, limit, window, c.now)]);
        if Admits(kept, limit, window, c.now) then Forward(rules, st', c)
        else (st'.(audit := LogDenied(st.audit, c.auditId, c.tool, c.methodName, RateLimited)), TooManyRequests)
  }

  class AuditLogger {
    var invocations: map<Labels, nat>
    var denials: map<Labels, nat>
    var durations: seq<(string, string, real)>
    var log: seq<AuditEvent>

    constructor ()
      ensures Current() == Audit(map[], map[], [], [])
    {
      invocations, denials, durations, log := map[], map[], [], [];
    }

    function Current(): Audit
      reads this
    {
      Audit(invocations, denials, durations, log)
    }

    /** `log_invocation`. */
    method LogCall(auditId: string, labels: Labels, durationMs: Option<real>, error: Option<string>)
      modifies this
      ensures Current() == LogInvocation(old(Current()), AuditEvent(auditId, labels, durationMs, error))
    {
      var event := AuditEvent(auditId, labels, durationMs, error);
      invocations := Increment(invocations, labels);
      if durationMs.Some? && durationMs.value != 0.0 {
        durations := durations + [(labels.tool, labels.methodName, durationMs.value / 1000.0)];
      }
      log := log + [event];
    }

    /** `log_denied`. */
    method LogDenial(auditId: string, tool: string, methodName: string, reason: Kind)
      modifies this
      ensures Current() == LogDenied(old(Current()), auditId, tool, methodName, reason)
    {
      denials := Increment(denials, Labels(tool, methodName, reason));
      LogCall(auditId, Labels(tool, methodName, Denied), None, Some(reason.Text()));
    }
  }

  class McpGateway {
    const allowlist: ToolAllowlist
    const audit: AuditLogger
    const limiter: RateLimiter

    constructor (allowlist: ToolAllowlist)
      ensures this.allowlist == allowlist && fresh(audit) && fresh(limiter)
      ensures Now() == Initial()
    {
      this.allowlist := allowlist;
      audit := new AuditLogger();
      limiter := new RateLimiter();
    }

    ghost function Now(): State
      reads audit, limiter
    {
      State(limiter.requests, audit.Current())
    }

    /** `invoke_tool`. */
    method Invoke(c: Call) returns (r: Response)
      modifies audit, limiter
      ensures (Now(), r) == Handle(allowlist.Loaded(), old(Now()), c)
    {
      var rules := allowlist.Loaded();
      if !rules.IsAllowed(c.tool, c.methodName) {
        audit.LogDenial(c.auditId, c.tool, c.methodName, NotInAllowlist);
        return Forbidden;
      }
      var permission := rules.GetPermission(c.tool);
      if permission.Some? {
        var rate := ParseRateLimit(permission.value.rateLimit);
        if rate.None? {
          r := Report(c, BadRateLimit(permission.value.rateLimit));
          return;
        }
        var (limit, window) := rate.value;
        var allowed := limiter.IsAllowed(RateKey(c.tool, c.methodName), limit, window, c.now);
        if !allowed {
          audit.LogDenial(c.auditId, c.tool, c.methodName, RateLimited);
          return TooManyRequests;
        }
      }
      match c.outcome {
        case Raised(message) =>
          r := Report(c, ForwardRaised(message));
        case Returned(result) =>
          if permission.Some? && permission.value.audit {
            audit.LogCall(c.auditId, Labels(c.tool, c.methodName, Succeeded), Some(c.durationMs), None);
          }
          return Success(result);
      }
    }

    /** The `except Exception` branch. */
    method Report(c: Call, fault: Fault) returns (r: Response)
      modifies audit
      ensures (Now(), r) == Fail(old(Now()), c, fault)
    {
      audit.LogCall(c.auditId, Labels(c.tool, c.methodName, Error), Some(c.durationMs), Some(fault.Message()));
      return Failed(fault);
    }
  }

  // ----- runs ------------------------------------------------------------

  function Initial(): State {
    State(map[], Audit(map[], map[], [], []))
  }

  ghost function After(rules: Rules, calls: seq<Call>): State {
    if calls == [] then Initial()
    else
      var n := |calls| - 1;
      Handle(rules, After(rules, calls[..n]), calls[n]).0
  }

  ghost function Responses(rules: Rules, calls: seq<Call>): (r: seq<Response>)
    ensures |r| == |calls|
  {
    if calls == [] then []
    else
      var n := |calls| - 1;
      Responses(rules, calls[..n]) + [Handle(rules, After(rules, calls[..n]), calls[n]).1]
  }

  /** The counter label a response is filed under; a success is labelled so even if not audited. */
  function StatusOf(r: Response): Kind {
    match r
    case Forbidden => Denied
    case TooManyRequests => Denied
    case Success(_) => Succeeded
    case Failed(_) => Error
  }

  /** How many calls of one tool and method were answered with the given status. */
  ghost function Answered(calls: seq<Call>, responses: seq<Response>, l: Labels): nat
    requires |calls| == |responses|
  {
    if calls == [] then 0
    else
      var n := |calls| - 1;
      Answered(calls[..n], responses[..n], l) +
        (if Labels(calls[n].tool, calls[n].methodName, StatusOf(responses[n])) == l then 1 else 0)
  }

  ghost function CallsOf(calls: seq<Call>, tool: string, methodName: string): nat {
    if calls == [] then 0
    else
      var n := |calls| - 1;
      CallsOf(calls[..n], tool, methodName) +
        (if calls[n].tool == tool && calls[n].methodName == methodName then 1 else 0)
  }

  ghost predicate Audited(rules: Rules, tool: string) {
    tool in rules.allowed && rules.allowed[tool].audit
  }

  /** What the counters say of one tool and method, given how its calls were answered. */
  ghost predicate CountersAgree(rules: Rules, st: State, calls: seq<Call>, responses: seq<Response>, tool: string,
        methodName: string)
    requires |calls| == |responses|
  {
    var denied, error, success :=
      Labels(tool, methodName, Denied), Labels(tool, methodName, Error), Labels(tool, methodName, Succeeded);
    && Count(st.audit.invocations, denied) == Answered(calls, responses, denied)
    && Count(st.audit.invocations, error) == Answered(calls, responses, error)
    && Count(st.audit.invocations, success) == (if Audited(rules, tool) then Answered(calls, responses, success) else 0)
    && Count(st.audit.denials, Labels(tool, methodName, NotInAllowlist)) +
         Count(st.audit.denials, Labels(tool, methodName, RateLimited)) == Count(st.audit.invocations, denied)
  }

  /** One request moves exactly one status counter, the one of its answer. */
  lemma {:induction false} HandleCounts(rules: Rules, st: State, c: Call, l: Labels)
    ensures var (st', r) := Handle(rules, st, c);
      var mine := l == Labels(c.tool, c.methodName, StatusOf(r));
      && Count(st'.audit.invocations, l) == Count(st.audit.invocations, l)
           + (if mine && (r.Success? ==> Audited(rules, c.tool)) then 1 else 0)
      && Count(st'.audit.denials, Labels(c.tool, c.methodName, NotInAllowlist)) ==
           Count(st.audit.denials, Labels(c.tool, c.methodName, NotInAllowlist)) + (if r.Forbidden? then 1 else 0)
      && Count(st'.audit.denials, Labels(c.tool, c.methodName, RateLimited)) ==
           Count(st.audit.denials, Labels(c.tool, c.methodName, RateLimited)) + (if r.TooManyRequests? then 1 else 0)
      && ((l.tool, l.methodName) != (c.tool, c.methodName) ==>
        Count(st'.audit.denials, l) == Count(st.audit.denials, l))
  {
    hide ParseRateLimit, Admits, Step, Lookup;
  }

  lemma {:induction false} OneMoreAnswer(rules: Rules, calls: seq<Call>, l: Labels)
    requires calls != []
    ensures var n := |calls| - 1;
      var past, c := calls[..n], calls[n];
      var (st, r) := Handle(rules, After(rules, past), c);
      && After(rules, calls) == st
      && Answered(calls, Responses(rules, calls), l) == Answered(past, Responses(rules, past), l) +
           (if Labels(c.tool, c.methodName, StatusOf(r)) == l then 1 else 0)
      && CallsOf(calls, l.tool, l.methodName) == CallsOf(past, l.tool, l.methodName) +
           (if c.tool == l.tool && c.methodName == l.methodName then 1 else 0)
  {
    var n := |calls| - 1;
    assert Responses(rules, calls)[..n] == Responses(rules, calls[..n]);
    hide Handle;
  }

  /** Over any run, for every tool and method: each status counter equals the number of calls so
      answered (successes only if the tool is audited), the denied invocations are the sum of the
      denials over both reasons, and denials, errors and successes add up to the calls made. */
  lemma {:induction false} Conservation(rules: Rules, calls: seq<Call>, tool: string, methodName: string)
    ensures CountersAgree(rules, After(rules, calls), calls, Responses(rules, calls), tool, methodName)
    ensures var responses := Responses(rules, calls);
      CallsOf(calls, tool, methodName) ==
        Answered(calls, responses, Labels(tool, methodName, Denied)) +
        Answered(calls, responses, Labels(tool, methodName, Error)) +
        Answered(calls, responses, Labels(tool, methodName, Succeeded))
  {
    if calls == [] {
    } else {
      hide Handle, Count, Audited, After, Answered, CallsOf, Responses;
      var n := |calls| - 1;
      Conservation(rules, calls[..n], tool, methodName);
      var st, c := After(rules, calls[..n]), calls[n];
      HandleCounts(rules, st, c, Labels(tool, methodName, Denied));
      HandleCounts(rules, st, c, Labels(tool, methodName, Error));
      HandleCounts(rules, st, c, Labels(tool, methodName, Succeeded));
      HandleCounts(rules, st, c, Labels(tool, methodName, NotInAllowlist));
      HandleCounts(rules, st, c, Labels(tool, methodName, RateLimited));
      OneMoreAnswer(rules, calls, Labels(tool, methodName, Denied));
      OneMoreAnswer(rules, calls, Labels(tool, methodName, Error));
      OneMoreAnswer(rules, calls, Labels(tool, methodName, Succeeded));
    }
  }

  // ----- what reaches a tool --------------------------------------------

  /** The call got past every check and was forwarded, whether or not it then raised. */
  predicate Forwarded(r: Response) {
    r.Success? || (r.Failed? && r.error.ForwardRaised?)
  }

  /** The arrival times of the calls of one tool and method. */
  ghost function TimesOf(calls: seq<Call>, tool: string, methodName: string): seq<real> {
    if calls == [] then []
    else
      var n := |calls| - 1;
      TimesOf(calls[..n], tool, methodName) +
        (if calls[n].tool == tool && calls[n].methodName == methodName then [calls[n].now] else [])
  }

  /** Which of them were forwarded. */
  ghost function ForwardsOf(calls: seq<Call>, responses: seq<Response>, tool: string,
        methodName: string): (d: seq<bool>)
    requires |calls| == |responses|
    ensures |d| == |TimesOf(calls, tool, methodName)|
  {
    if calls == [] then []
    else
      var n := |calls| - 1;
      ForwardsOf(calls[..n], responses[..n], tool, methodName) +
        (if calls[n].tool == tool && calls[n].methodName == methodName then [Forwarded(responses[n])] else [])
  }

  // ----- which calls share a budget -------------------------------------

  /** A key belongs to a tool exactly if it starts with the tool's name and a colon. */
  lemma {:induction false} KeySplit(tool: string, methodName: string, other: string)
    ensures other + ":" <= RateKey(tool, methodName) <==> exists m :: RateKey(other, m) == RateKey(tool, methodName)
    ensures other + ":" <= RateKey(tool, methodName) ==>
      RateKey(other, RateKey(tool, methodName)[|other| + 1..]) == RateKey(tool, methodName)
    ensures forall m :: RateKey(other, m) == RateKey(tool, methodName) ==> m == RateKey(tool, methodName)[|other| + 1..]
  {
    var key := RateKey(tool, methodName);
    if other + ":" <= key {
      assert key == (other + ":") + key[|other| + 1..];
      assert RateKey(other, key[|other| + 1..]) == key;
    }
    forall m | RateKey(other, m) == key ensures other + ":" <= key && m == key[|other| + 1..] {
      assert key == (other + ":") + m;
    }
  }

  /** No tool's name extends that of another one past a colon. */
  predicate Separate(tools: set<string>) {
    forall t, u :: t in tools && u in tools ==> !(t + ":" <= u)
  }

  /** Different calls have different budgets exactly when no tool's name extends that of another
      one past a colon. */
  lemma {:induction false} KeysSeparateIff(tools: set<string>)
    ensures Separate(tools) <==>
      forall t, m, u, n :: t in tools && u in tools && RateKey(t, m) == RateKey(u, n) ==> t == u && m == n
  {
    if Separate(tools) {
      forall t, m, u, n | t in tools && u in tools && RateKey(t, m) == RateKey(u, n) ensures t == u && m == n {
        SharedKeyExtends(t, m, u, n);
      }
    } else {
      var t, u :| t in tools && u in tools && t + ":" <= u;
      KeysCanCollide(t, u, "");
      assert t != u;
    }
  }

  lemma {:induction false} SharedKeyExtends(t: string, m: string, u: string, n: string)
    requires RateKey(t, m) == RateKey(u, n)
    ensures (t == u && m == n) || t + ":" <= u || u + ":" <= t
  {
    var key := RateKey(t, m);
    assert key == t + ":" + m == u + ":" + n;
    assert key[..|t|] == t && key[..|u|] == u && key[|t|] == ':' && key[|u|] == ':';
    if |t| == |u| {
      assert key[|t| + 1..] == m && key[|u| + 1..] == n;
    } else if |t| < |u| {
      assert u[..|t| + 1] == key[..|t| + 1] == t + ":";
    } else {
      assert t[..|u| + 1] == key[..|u| + 1] == u + ":";
    }
  }

  /** Then every method of the longer one shares its budget with a method of the shorter one. */
  lemma {:induction false} KeysCanCollide(t: string, u: string, methodName: string)
    requires t + ":" <= u
    ensures RateKey(t, u[|t| + 1..] + ":" + methodName) == RateKey(u, methodName)
  {
    var rest := u[|t| + 1..];
    assert u == (t + ":") + rest;
    assert t + ":" + (rest + ":" + methodName) == ((t + ":") + rest) + ":" + methodName;
  }

  /** The rate that governs a call, if it gets as far as the limiter. */
  function GoverningRate(rules: Rules, tool: string, methodName: string): Option<(int, int)> {
    if !rules.IsAllowed(tool, methodName) then None
    else
      match RateOf(rules, tool)
      case Some(Some(rate)) => Some(rate)
      case _ => None
  }

  /** Another tool whose calls count against the budget of `key`, and its rate. */
  function SharedRate(rules: Rules, other: string, key: string): Option<(int, int)> {
    if other + ":" <= key then GoverningRate(rules, other, key[|other| + 1..]) else None
  }

  /** The use a call makes of the budget of one tool and method. */
  function UseOf(rules: Rules, c: Call, tool: string, methodName: string): Option<Use> {
    var rate := GoverningRate(rules, c.tool, c.methodName);
    if rate.Some? && RateKey(c.tool, c.methodName) == RateKey(tool, methodName)
    then Some(Use(c.tool == tool, rate.value.0, rate.value.1, c.now)) else None
  }

  ghost function UsesOf(rules: Rules, calls: seq<Call>, tool: string, methodName: string): seq<Use> {
    if calls == [] then []
    else
      var n := |calls| - 1;
      var u := UseOf(rules, calls[n], tool, methodName);
      UsesOf(rules, calls[..n], tool, methodName) + (if u.Some? then [u.value] else [])
  }

  lemma {:induction false} ForwardsStep(rules: Rules, calls: seq<Call>, tool: string, methodName: string)
    requires calls != []
    ensures var n := |calls| - 1;
      var past, c := calls[..n], calls[n];
      var (st, r) := Handle(rules, After(rules, past), c);
      var mine := c.tool == tool && c.methodName == methodName;
      && After(rules, calls) == st
      && TimesOf(calls, tool, methodName) ==
           (if mine then TimesOf(past, tool, methodName) + [c.now] else TimesOf(past, tool, methodName))
      && ForwardsOf(calls, Responses(rules, calls), tool, methodName) ==
           (if mine then ForwardsOf(past, Responses(rules, past), tool, methodName) + [Forwarded(r)]
            else ForwardsOf(past, Responses(rules, past), tool, methodName))
  {
    var n := |calls| - 1;
    assert Responses(rules, calls)[..n] == Responses(rules, calls[..n]);
    hide Handle;
  }

  lemma {:induction false} UseStep(rules: Rules, st: State, c: Call, tool: string, methodName: string, limit: int,
        window: int)
    requires GoverningRate(rules, tool, methodName) == Some((limit, window))
    ensures var (st', r) := Handle(rules, st, c);
      var key, u := RateKey(tool, methodName), UseOf(rules, c, tool, methodName);
      && Lookup(st'.table, key) ==
           (if u.Some? then Step(Lookup(st.table, key), u.value.limit, u.value.window, u.value.now)
             else Lookup(st.table, key))
      && (c.tool == tool && c.methodName == methodName ==>
            u == Some(Use(true, limit, window, c.now))
              && Forwarded(r) == Admits(Lookup(st.table, key), limit, window, c.now))
  {
    hide Step, Admits, ParseRateLimit;
  }

  lemma {:induction false} OwnUse(rules: Rules, c: Call, tool: string, methodName: string)
    ensures var u := UseOf(rules, c, tool, methodName);
      && (u.Some? && u.value.mine ==> c.tool == tool && c.methodName == methodName)
      && (u.Some? && !u.value.mine ==> c.tool != tool && c.tool in rules.allowed)
      && (u.Some? && !u.value.mine ==>
            SharedRate(rules, c.tool, RateKey(tool, methodName)) == Some((u.value.limit, u.value.window)))
  {
    var u := UseOf(rules, c, tool, methodName);
    if u.Some? {
      SharedKeyExtends(c.tool, c.methodName, tool, methodName);
      KeySplit(tool, methodName, c.tool);
    }
    hide ParseRateLimit, GoverningRate;
  }

  /** For any rules, the timestamps kept for a permitted call are those its key's uses leave, its
      own arrivals are among them, and it is forwarded exactly when they admit it. */
  lemma {:induction false} ForwardsAreUses(rules: Rules, calls: seq<Call>, tool: string, methodName: string,
        limit: int, window: int)
    requires GoverningRate(rules, tool, methodName) == Some((limit, window))
    ensures var uses := UsesOf(rules, calls, tool, methodName);
      && Lookup(After(rules, calls).table, RateKey(tool, methodName)) == KeptOf(uses)
      && Mine(uses) == TimesOf(calls, tool, methodName)
      && MineAdmitted(uses) == ForwardsOf(calls, Responses(rules, calls), tool, methodName)
  {
    if calls == [] {
    } else {
      var n := |calls| - 1;
      var past, c := calls[..n], calls[n];
      ForwardsAreUses(rules, past, tool, methodName, limit, window);
      UseStep(rules, After(rules, past), c, tool, methodName, limit, window);
      OwnUse(rules, c, tool, methodName);
      ForwardsStep(rules, calls, tool, methodName);
      var uses, u := UsesOf(rules, past, tool, methodName), UseOf(rules, c, tool, methodName);
      assert UsesOf(rules, calls, tool, methodName) == uses + (if u.Some? then [u.value] else []);
      hide UsesOf, UseOf, GoverningRate, SharedRate, Handle, After, TimesOf, ForwardsOf, Responses, KeptOf, Mine,
        MineAdmitted, Step, Admits;
      if u.Some? {
        OneMoreUse(uses, u.value);
      } else {
        assert uses + [] == uses;
      }
    }
  }

  // ----- what a client is answered --------------------------------------

  /** Not denied, and under `deny` listed for the method. */
  ghost predicate Permitted(rules: Rules, c: Call) {
    && c.tool !in rules.denied
    && (rules.policy == "deny" ==>
          && c.tool in rules.allowed
          && ("*" in rules.allowed[c.tool].methods || c.methodName in rules.allowed[c.tool].methods))
  }

  /** The tool has a rate limit that cannot be read. */
  ghost predicate Unreadable(rules: Rules, c: Call) {
    c.tool in rules.allowed && ParseRateLimit(rules.allowed[c.tool].rateLimit).None?
  }

  /** As many uses of the call's budget as its limit are kept from one window before it. */
  ghost predicate Exhausted(rules: Rules, earlier: seq<Call>, c: Call) {
    c.tool in rules.allowed &&
    match ParseRateLimit(rules.allowed[c.tool].rateLimit)
    case None => false
    case Some((limit, window)) =>
      |Recent(KeptOf(UsesOf(rules, earlier, c.tool, c.methodName)), c.now - window as real)| >= limit
  }

  lemma {:induction false} ResponseAt(rules: Rules, calls: seq<Call>, i: nat)
    requires i < |calls|
    ensures Responses(rules, calls)[i] == Handle(rules, After(rules, calls[..i]), calls[i]).1
    decreases |calls|
  {
    hide Handle;
    var n := |calls| - 1;
    if i < n {
      ResponseAt(rules, calls[..n], i);
      assert calls[..n][..i] == calls[..i];
    }
  }

  lemma {:induction false} HandleAnswers(rules: Rules, st: State, c: Call)
    ensures var r := Handle(rules, st, c).1;
      var full := GoverningRate(rules, c.tool, c.methodName).Some? &&
        var (limit, window) := GoverningRate(rules, c.tool, c.methodName).value;
        !Admits(Lookup(st.table, RateKey(c.tool, c.methodName)), limit, window, c.now);
      var passes := Permitted(rules, c) && !Unreadable(rules, c) && !full;
      && (r == Forbidden <==> !Permitted(rules, c))
      && (r == TooManyRequests <==> full)
      && (forall t :: r == Failed(BadRateLimit(t)) <==>
            Permitted(rules, c) && Unreadable(rules, c) && t == rules.allowed[c.tool].rateLimit)
      && (forall x :: r == Success(x) <==> passes && c.outcome == Returned(x))
      && (forall m :: r == Failed(ForwardRaised(m)) <==> passes && c.outcome == Raised(m))
  {
    hide ParseRateLimit, Admits, Lookup, Step;
  }

  lemma {:induction false} ExhaustedIsFull(rules: Rules, earlier: seq<Call>, c: Call)
    ensures Permitted(rules, c) && Exhausted(rules, earlier, c) <==>
      GoverningRate(rules, c.tool, c.methodName).Some? &&
      var (limit, window) := GoverningRate(rules, c.tool, c.methodName).value;
      !Admits(Lookup(After(rules, earlier).table, RateKey(c.tool, c.methodName)), limit, window, c.now)
  {
    hide ParseRateLimit, Recent, KeptOf, UsesOf, After;
    var rate := GoverningRate(rules, c.tool, c.methodName);
    if rate.Some? {
      ForwardsAreUses(rules, earlier, c.tool, c.methodName, rate.value.0, rate.value.1);
    }
  }

  /** Every answer of a run, in both directions: a call is forbidden exactly when the rules refuse it,
      refused exactly when its budget is exhausted, answered with the written rate limit exactly when
      that cannot be read, and otherwise with just what its tool returned or raised. */
  lemma {:induction false} EveryAnswer(rules: Rules, calls: seq<Call>, i: nat)
    requires i < |calls|
    ensures var c, r := calls[i], Responses(rules, calls)[i];
      var passes := Permitted(rules, c) && !Unreadable(rules, c) && !Exhausted(rules, calls[..i], c);
      && (r == Forbidden <==> !Permitted(rules, c))
      && (r == TooManyRequests <==> Permitted(rules, c) && Exhausted(rules, calls[..i], c))
      && (forall t :: r == Failed(BadRateLimit(t)) <==>
            Permitted(rules, c) && Unreadable(rules, c) && t == rules.allowed[c.tool].rateLimit)
      && (forall x :: r == Success(x) <==> passes && c.outcome == Returned(x))
      && (forall m :: r == Failed(ForwardRaised(m)) <==> passes && c.outcome == Raised(m))
  {
    ResponseAt(rules, calls, i);
    HandleAnswers(rules, After(rules, calls[..i]), calls[i]);
    ExhaustedIsFull(rules, calls[..i], calls[i]);
    hide *;
  }

  /** What a listing says is what governs; left out, the tool may be called sixty times a minute with
      any method, and its successes are audited. */
  lemma {:induction false} ListingsGovern(config: Config, tool: string, methodName: string)
    requires tool in config.allowed && tool !in config.denied
    ensures var rules, listing := RulesOf(config), config.allowed[tool];
      && (listing.rateLimit.Some? && rules.IsAllowed(tool, methodName) ==>
            GoverningRate(rules, tool, methodName) == ParseRateLimit(listing.rateLimit.value))
      && (listing.audit.Some? ==> Audited(rules, tool) == listing.audit.value)
      && (listing.methods.None? ==> rules.IsAllowed(tool, methodName))
      && (listing.rateLimit.None? && rules.IsAllowed(tool, methodName) ==>
            GoverningRate(rules, tool, methodName) == Some((60, 60)))
      && (listing.audit.None? ==> Audited(rules, tool))
  {
    RateLimitRoundTrip(60, "min");
    assert Show(60) + "/" + "min" == "60/min";
    hide ParseRateLimit, Show;
  }

  // ----- what is written down -------------------------------------------

  /** The audit line an answered call leaves; an unaudited success leaves none. */
  ghost function Line(rules: Rules, c: Call, r: Response): Option<AuditEvent> {
    match r
    case Forbidden =>
      Some(AuditEvent(c.auditId, Labels(c.tool, c.methodName, Denied), None, Some("not_in_allowlist")))
    case TooManyRequests =>
      Some(AuditEvent(c.auditId, Labels(c.tool, c.methodName, Denied), None, Some("rate_limited")))
    case Failed(BadRateLimit(text)) =>
      Some(AuditEvent(c.auditId, Labels(c.tool, c.methodName, Error), Some(c.durationMs), Some(text)))
    case Failed(ForwardRaised(message)) =>
      Some(AuditEvent(c.auditId, Labels(c.tool, c.methodName, Error), Some(c.durationMs), Some(message)))
    case Success(_) =>
      if c.tool in rules.allowed && rules.allowed[c.tool].audit
      then Some(AuditEvent(c.auditId, Labels(c.tool, c.methodName, Succeeded), Some(c.durationMs), None))
      else None
  }

  ghost function Lines(rules: Rules, calls: seq<Call>, responses: seq<Response>): seq<AuditEvent>
    requires |calls| == |responses|
  {
    if calls == [] then []
    else
      var n := |calls| - 1;
      var line := Line(rules, calls[n], responses[n]);
      Lines(rules, calls[..n], responses[..n]) + (if line.Some? then [line.value] else [])
  }

  ghost function ObservedIn(e: AuditEvent): seq<(string, string, real)> {
    if e.durationMs.Some? && e.durationMs.value != 0.0
    then [(e.labels.tool, e.labels.methodName, e.durationMs.value / 1000.0)] else []
  }

  /** The durations in these lines that are not zero, in seconds. */
  ghost function Observed(lines: seq<AuditEvent>): seq<(string, string, real)> {
    if lines == [] then []
    else
      var n := |lines| - 1;
      Observed(lines[..n]) + ObservedIn(lines[n])
  }

  lemma {:induction false} HandleWrites(rules: Rules, st: State, c: Call)
    ensures var (st', r) := Handle(rules, st, c);
      match Line(rules, c, r)
      case Some(line) =>
        st'.audit.log == st.audit.log + [line] && st'.audit.durations == st.audit.durations + ObservedIn(line)
      case None => st'.audit.log == st.audit.log && st'.audit.durations == st.audit.durations
  {
    hide ParseRateLimit, Admits, Step, Lookup;
  }

  lemma {:induction false} ObservedSnoc(lines: seq<AuditEvent>, e: AuditEvent)
    ensures Observed(lines + [e]) == Observed(lines) + ObservedIn(e)
  {
    assert (lines + [e])[..|lines|] == lines;
  }

  /** After any run the log holds one line for every call, in order, but for unaudited successes, with
      the reason of a denial and the message of an error; and the durations observed are those it
      mentions. */
  lemma {:induction false} EveryCallIsLogged(rules: Rules, calls: seq<Call>)
    ensures var audit := After(rules, calls).audit;
      audit.log == Lines(rules, calls, Responses(rules, calls)) && audit.durations == Observed(audit.log)
  {
    if calls == [] {
    } else {
      var n := |calls| - 1;
      EveryCallIsLogged(rules, calls[..n]);
      var before := After(rules, calls[..n]);
      HandleWrites(rules, before, calls[n]);
      assert Responses(rules, calls)[..n] == Responses(rules, calls[..n]);
      hide Handle, Observed, ObservedIn, Line;
      var line := Line(rules, calls[n], Handle(rules, before, calls[n]).1);
      if line.Some? {
        ObservedSnoc(before.audit.log, line.value);
      }
    }
  }

  // ----- what a shared budget does to the limit -------------------------

  /** No other tool's calls count against the budget. */
  ghost predicate Alone(rules: Rules, tool: string, methodName: string) {
    forall u :: u in rules.allowed && u != tool ==> SharedRate(rules, u, RateKey(tool, methodName)).None?
  }

  /** Every other tool whose calls do has a rate that cannot make the tool exceed its limit. */
  ghost predicate Contained(rules: Rules, tool: string, methodName: string, limit: int, window: int) {
    forall u :: u in rules.allowed && u != tool ==>
      var rate := SharedRate(rules, u, RateKey(tool, methodName));
      rate.Some? ==> Harmless(rate.value.0, rate.value.1, limit, window)
  }

  /** Every other tool whose calls do has a rate that never takes from the budget or adds to it. */
  ghost predicate Undisturbed(rules: Rules, tool: string, methodName: string, limit: int, window: int) {
    forall u :: u in rules.allowed && u != tool ==>
      var rate := SharedRate(rules, u, RateKey(tool, methodName));
      rate.Some? ==> Neutral(rate.value.0, rate.value.1, limit, window)
  }

  lemma {:induction false} SeparateIsAlone(rules: Rules, tool: string, methodName: string)
    requires Separate(rules.allowed.Keys) && tool in rules.allowed
    ensures Alone(rules, tool, methodName)
  {
    forall u | u in rules.allowed && u != tool ensures SharedRate(rules, u, RateKey(tool, methodName)).None? {
      assert u in rules.allowed.Keys && tool in rules.allowed.Keys;
      if u + ":" <= RateKey(tool, methodName) {
        KeySplit(tool, methodName, u);
        SharedKeyExtends(u, RateKey(tool, methodName)[|u| + 1..], tool, methodName);
      }
    }
  }

  ghost predicate ClockRuns(calls: seq<Call>) {
    forall i, j :: 0 <= i <= j < |calls| ==> calls[i].now <= calls[j].now
  }

  /** The use stems from another tool that shares the budget. */
  ghost predicate Foreign(rules: Rules, u: Use, tool: string, key: string) {
    && u.window > 0
    && exists other ::
      && other in rules.allowed && other != tool
      && SharedRate(rules, other, key) == Some((u.limit, u.window))
  }

  lemma {:induction false} OneUse(rules: Rules, c: Call, tool: string, methodName: string, limit: int, window: int)
    requires GoverningRate(rules, tool, methodName) == Some((limit, window))
    ensures var u := UseOf(rules, c, tool, methodName);
      u.Some? ==>
        && u.value.now == c.now
        && if u.value.mine then u.value.limit == limit && u.value.window == window
           else Foreign(rules, u.value, tool, RateKey(tool, methodName))
  {
    OwnUse(rules, c, tool, methodName);
    hide IsDigit, Split, ParseInt;
  }

  /** Every use is the tool's own, at its rate, or stems from another tool that shares the budget. */
  ghost predicate OwnOrForeign(rules: Rules, uses: seq<Use>, tool: string, key: string, limit: int, window: int) {
    OwnRate(uses, limit, window) && forall k :: 0 <= k < |uses| && !uses[k].mine ==> Foreign(rules, uses[k], tool, key)
  }

  lemma {:induction false} OneMoreOwnOrForeign(rules: Rules, uses: seq<Use>, u: Use, tool: string, key: string,
        limit: int, window: int)
    requires OwnOrForeign(rules, uses, tool, key, limit, window)
    requires if u.mine then u.limit == limit && u.window == window else Foreign(rules, u, tool, key)
    ensures OwnOrForeign(rules, uses + [u], tool, key, limit, window)
    ensures InOrder(uses) && (uses != [] ==> uses[|uses| - 1].now <= u.now) ==> InOrder(uses + [u])
  {
    hide Foreign;
  }

  lemma {:induction false} ClockRunsOn(calls: seq<Call>)
    requires calls != [] && ClockRuns(calls)
    ensures var n := |calls| - 1; ClockRuns(calls[..n]) && (n > 0 ==> calls[n - 1].now <= calls[n].now)
  {
  }

  lemma {:induction false} UsesAreOwnOrForeign(rules: Rules, calls: seq<Call>, tool: string, methodName: string,
        limit: int, window: int)
    requires GoverningRate(rules, tool, methodName) == Some((limit, window))
    ensures var uses := UsesOf(rules, calls, tool, methodName);
      && OwnOrForeign(rules, uses, tool, RateKey(tool, methodName), limit, window)
      && (ClockRuns(calls) ==> InOrder(uses) && (uses != [] ==> uses[|uses| - 1].now <= calls[|calls| - 1].now))
  {
    if calls == [] {
    } else {
      var n := |calls| - 1;
      var uses, u := UsesOf(rules, calls[..n], tool, methodName), UseOf(rules, calls[n], tool, methodName);
      UsesAreOwnOrForeign(rules, calls[..n], tool, methodName, limit, window);
      OneUse(rules, calls[n], tool, methodName, limit, window);
      if ClockRuns(calls) {
        ClockRunsOn(calls);
      }
      assert UsesOf(rules, calls, tool, methodName) == uses + (if u.Some? then [u.value] else []);
      hide *;
      if u.Some? {
        OneMoreOwnOrForeign(rules, uses, u.value, tool, RateKey(tool, methodName), limit, window);
      } else {
        assert uses + [] == uses;
      }
    }
  }

  /** For a permitted method with a budget of its own, the forwarded calls are exactly those the
      limiter alone would admit. */
  lemma {:induction false} ForwardsAreDecisions(rules: Rules, calls: seq<Call>, tool: string, methodName: string,
        limit: int, window: int)
    requires GoverningRate(rules, tool, methodName) == Some((limit, window)) && Alone(rules, tool, methodName)
    ensures ForwardsOf(calls, Responses(rules, calls), tool, methodName) ==
      Decisions(TimesOf(calls, tool, methodName), limit, window)
    ensures Lookup(After(rules, calls).table, RateKey(tool, methodName)) ==
      Kept(TimesOf(calls, tool, methodName), limit, window)
  {
    var uses := UsesOf(rules, calls, tool, methodName);
    ForwardsAreUses(rules, calls, tool, methodName, limit, window);
    UsesAreOwnOrForeign(rules, calls, tool, methodName, limit, window);
    forall k | 0 <= k < |uses| ensures uses[k].mine {
      assert !Foreign(rules, uses[k], tool, RateKey(tool, methodName));
    }
    OwnKey(uses, limit, window);
    hide *;
  }

  /** In every window at most `limit` calls of such a method are forwarded, and no policy that keeps
      to the limit could have forwarded more of them. */
  lemma {:induction false} ForwardingIsLimited(rules: Rules, calls: seq<Call>, tool: string, methodName: string,
        limit: int, window: int, rival: seq<bool>)
    requires GoverningRate(rules, tool, methodName) == Some((limit, window)) && limit >= 0
    requires Alone(rules, tool, methodName) && Nondecreasing(TimesOf(calls, tool, methodName))
    ensures var times, forwards := TimesOf(calls, tool, methodName),
      ForwardsOf(calls, Responses(rules, calls), tool, methodName);
      && Legal(times, forwards, limit, window)
      && (|rival| == |times| && Legal(times, rival, limit, window) ==> Leads(forwards, rival))
  {
    var times := TimesOf(calls, tool, methodName);
    ForwardsAreDecisions(rules, calls, tool, methodName, limit, window);
    WindowSafety(times, limit, window);
    if |rival| == |times| && Legal(times, rival, limit, window) {
      WindowIsPositive(rules, tool, methodName);
      GreedyOptimal(times, limit, window, rival);
    }
    hide *;
  }

  /** In particular, where no tool's name extends another one's past a colon, this is so for every
      permitted method with a readable rate limit. */
  lemma {:induction false} SeparateToolsAreLimited(rules: Rules, calls: seq<Call>, tool: string, methodName: string,
        rival: seq<bool>)
    requires Separate(rules.allowed.Keys) && ClockRuns(calls)
    requires var rate := GoverningRate(rules, tool, methodName); rate.Some? && rate.value.0 >= 0
    ensures var (limit, window) := GoverningRate(rules, tool, methodName).value;
      var times, forwards := TimesOf(calls, tool, methodName),
        ForwardsOf(calls, Responses(rules, calls), tool, methodName);
      && forwards == Decisions(times, limit, window) && Legal(times, forwards, limit, window)
      && (|rival| == |times| && Legal(times, rival, limit, window) ==> Leads(forwards, rival))
  {
    var (limit, window) := GoverningRate(rules, tool, methodName).value;
    SeparateIsAlone(rules, tool, methodName);
    TimesInOrder(calls, tool, methodName);
    hide *;
    ForwardsAreDecisions(rules, calls, tool, methodName, limit, window);
    ForwardingIsLimited(rules, calls, tool, methodName, limit, window, rival);
  }

  lemma {:induction false} TimesInOrder(calls: seq<Call>, tool: string, methodName: string)
    requires ClockRuns(calls)
    ensures Nondecreasing(TimesOf(calls, tool, methodName))
    ensures forall k :: 0 <= k < |TimesOf(calls, tool, methodName)| ==>
      TimesOf(calls, tool, methodName)[k] <= calls[|calls| - 1].now
  {
    if calls == [] {
    } else {
      ClockRunsOn(calls);
      TimesInOrder(calls[..|calls| - 1], tool, methodName);
    }
  }

  lemma {:induction false} WindowIsPositive(rules: Rules, tool: string, methodName: string)
    ensures var rate := GoverningRate(rules, tool, methodName); rate.Some? ==> rate.value.1 > 0
  {
  }

  /** The calls that make the given uses, those of others through one other tool. */
  ghost function CallFor(u: Use, tool: string, methodName: string, other: string): Call
    requires other + ":" <= RateKey(tool, methodName)
  {
    if u.mine then Call(tool, methodName, u.now, 0.0, "", Returned(""))
    else Call(other, RateKey(tool, methodName)[|other| + 1..], u.now, 0.0, "", Returned(""))
  }

  ghost function CallsFor(uses: seq<Use>, tool: string, methodName: string, other: string): (calls: seq<Call>)
    requires other + ":" <= RateKey(tool, methodName)
    ensures |calls| == |uses| && forall k :: 0 <= k < |calls| ==> calls[k] == CallFor(uses[k], tool, methodName, other)
  {
    seq(|uses|, k requires 0 <= k < |uses| => CallFor(uses[k], tool, methodName, other))
  }

  lemma {:induction false} UsesOfCalls(rules: Rules, uses: seq<Use>, tool: string, methodName: string, limit: int,
        window: int, other: string, otherLimit: int, otherWindow: int)
    requires GoverningRate(rules, tool, methodName) == Some((limit, window)) && OwnRate(uses, limit, window)
    requires other != tool && SharedRate(rules, other, RateKey(tool, methodName)) == Some((otherLimit, otherWindow))
    requires forall k :: 0 <= k < |uses| && !uses[k].mine ==>
      uses[k].limit == otherLimit && uses[k].window == otherWindow
    ensures UsesOf(rules, CallsFor(uses, tool, methodName, other), tool, methodName) == uses
  {
    if uses == [] {
    } else {
      var n := |uses| - 1;
      UsesOfCalls(rules, uses[..n], tool, methodName, limit, window, other, otherLimit, otherWindow);
      var calls := CallsFor(uses, tool, methodName, other);
      assert calls[..n] == CallsFor(uses[..n], tool, methodName, other);
      KeySplit(tool, methodName, other);
      assert UseOf(rules, calls[n], tool, methodName) == Some(uses[n]);
      hide UseOf, GoverningRate, CallFor;
    }
  }

  lemma {:induction false} ForeignIsHarmless(rules: Rules, u: Use, tool: string, methodName: string, limit: int,
        window: int)
    requires Foreign(rules, u, tool, RateKey(tool, methodName)) && Contained(rules, tool, methodName, limit, window)
    ensures u.window > 0 && Harmless(u.limit, u.window, limit, window)
  {
    hide SharedRate, Harmless;
  }

  lemma {:induction false} LimitHolds(rules: Rules, calls: seq<Call>, tool: string, methodName: string, limit: int,
        window: int)
    requires GoverningRate(rules, tool, methodName) == Some((limit, window)) && limit >= 0
    requires Contained(rules, tool, methodName, limit, window) && ClockRuns(calls)
    ensures Legal(TimesOf(calls, tool, methodName), ForwardsOf(calls, Responses(rules, calls), tool, methodName),
      limit, window)
  {
    hide UsesOf, Foreign, Contained, Harmless, GoverningRate, Legal, TimesOf, ForwardsOf, Responses, KeptOf, Mine,
      MineAdmitted;
    var uses := UsesOf(rules, calls, tool, methodName);
    ForwardsAreUses(rules, calls, tool, methodName, limit, window);
    UsesAreOwnOrForeign(rules, calls, tool, methodName, limit, window);
    forall k | 0 <= k < |uses| && !uses[k].mine
      ensures uses[k].window > 0 && Harmless(uses[k].limit, uses[k].window, limit, window)
    {
      ForeignIsHarmless(rules, uses[k], tool, methodName, limit, window);
    }
    SharedKeySafety(uses, limit, window);
  }

  /** A run that makes the given uses. */
  lemma {:induction false} Realise(rules: Rules, uses: seq<Use>, tool: string, methodName: string, limit: int,
        window: int, other: string, otherLimit: int, otherWindow: int) returns (calls: seq<Call>)
    requires GoverningRate(rules, tool, methodName) == Some((limit, window))
    requires other != tool && SharedRate(rules, other, RateKey(tool, methodName)) == Some((otherLimit, otherWindow))
    requires FromTwo(uses, limit, window, otherLimit, otherWindow)
    ensures ClockRuns(calls) && Mine(uses) == TimesOf(calls, tool, methodName)
    ensures MineAdmitted(uses) == ForwardsOf(calls, Responses(rules, calls), tool, methodName)
  {
    hide GoverningRate, UsesOf, Mine, MineAdmitted, TimesOf, ForwardsOf, Responses, After, KeptOf;
    UsesOfCalls(rules, uses, tool, methodName, limit, window, other, otherLimit, otherWindow);
    calls := CallsFor(uses, tool, methodName, other);
    ForwardsAreUses(rules, calls, tool, methodName, limit, window);
    hide SharedRate;
  }

  lemma {:induction false} RateIsReal(rules: Rules, other: string, key: string)
    ensures var rate := SharedRate(rules, other, key); rate.Some? ==> rate.value.1 > 0 && other in rules.allowed
  {
    if other + ":" <= key {
      WindowIsPositive(rules, other, key[|other| + 1..]);
    }
    hide ParseRateLimit;
  }

  /** A tool whose longer name extends another one's breaks its limit: a burst fills the budget, a
      call of the other tool forgets it, and one call more is forwarded within the window. */
  lemma {:induction false} LimitFails(rules: Rules, tool: string, methodName: string, limit: int, window: int,
        other: string)
    returns (calls: seq<Call>)
    requires GoverningRate(rules, tool, methodName) == Some((limit, window)) && other != tool
    requires var rate := SharedRate(rules, other, RateKey(tool, methodName));
      rate.Some? && !Harmless(rate.value.0, rate.value.1, limit, window)
    ensures ClockRuns(calls)
    ensures !Legal(TimesOf(calls, tool, methodName), ForwardsOf(calls, Responses(rules, calls), tool, methodName),
      limit, window)
  {
    var (otherLimit, otherWindow) := SharedRate(rules, other, RateKey(tool, methodName)).value;
    RateIsReal(rules, other, RateKey(tool, methodName));
    assert limit >= 1;
    hide *;
    var uses := Exceeding(limit, window, otherLimit, otherWindow);
    ExceedingIsFromTwo(limit, window, otherLimit, otherWindow);
    SharedKeyExceeds(limit, window, otherLimit, otherWindow);
    calls := Realise(rules, uses, tool, methodName, limit, window, other, otherLimit, otherWindow);
  }

  /** Every run keeps to the limit of a permitted method in every window exactly when each other
      tool that shares its budget has a window at least as long, or the limit is 0, or it is 1 and
      the other tool's is at least 1. */
  lemma {:induction false} LimitHoldsIff(rules: Rules, tool: string, methodName: string, limit: int, window: int)
    requires GoverningRate(rules, tool, methodName) == Some((limit, window)) && limit >= 0
    ensures Contained(rules, tool, methodName, limit, window) <==>
      forall calls :: ClockRuns(calls) ==>
        Legal(TimesOf(calls, tool, methodName), ForwardsOf(calls, Responses(rules, calls), tool, methodName),
          limit, window)
  {
    hide ClockRuns, TimesOf, ForwardsOf, Responses, Legal, GoverningRate, SharedRate, Harmless;
    if Contained(rules, tool, methodName, limit, window) {
      forall calls | ClockRuns(calls)
        ensures Legal(TimesOf(calls, tool, methodName),
          ForwardsOf(calls, Responses(rules, calls), tool, methodName), limit, window)
      {
        LimitHolds(rules, calls, tool, methodName, limit, window);
      }
    } else {
      var other :| other in rules.allowed && other != tool &&
        SharedRate(rules, other, RateKey(tool, methodName)).Some? &&
        !Harmless(SharedRate(rules, other, RateKey(tool, methodName)).value.0,
                  SharedRate(rules, other, RateKey(tool, methodName)).value.1, limit, window);
      var calls := LimitFails(rules, tool, methodName, limit, window, other);
    }
  }

  lemma {:induction false} BudgetIsOwn(rules: Rules, calls: seq<Call>, tool: string, methodName: string, limit: int,
        window: int)
    requires GoverningRate(rules, tool, methodName) == Some((limit, window))
    requires Undisturbed(rules, tool, methodName, limit, window) && ClockRuns(calls)
    ensures ForwardsOf(calls, Responses(rules, calls), tool, methodName) ==
      Decisions(TimesOf(calls, tool, methodName), limit, window)
  {
    var uses := UsesOf(rules, calls, tool, methodName);
    ForwardsAreUses(rules, calls, tool, methodName, limit, window);
    UsesAreOwnOrForeign(rules, calls, tool, methodName, limit, window);
    forall k | 0 <= k < |uses| && !uses[k].mine ensures Neutral(uses[k].limit, uses[k].window, limit, window) {
      assert Foreign(rules, uses[k], tool, RateKey(tool, methodName));
    }
    hide UsesOf, Foreign, Undisturbed, Neutral, GoverningRate, Decisions;
    OwnBudget(uses, limit, window, if uses == [] then 0.0 else uses[|uses| - 1].now);
  }

  lemma {:induction false} BudgetIsShared(rules: Rules, tool: string, methodName: string, limit: int, window: int,
        other: string)
    returns (calls: seq<Call>)
    requires GoverningRate(rules, tool, methodName) == Some((limit, window)) && other != tool
    requires var rate := SharedRate(rules, other, RateKey(tool, methodName));
      rate.Some? && !Neutral(rate.value.0, rate.value.1, limit, window)
    ensures ClockRuns(calls)
    ensures ForwardsOf(calls, Responses(rules, calls), tool, methodName) !=
      Decisions(TimesOf(calls, tool, methodName), limit, window)
  {
    var (otherLimit, otherWindow) := SharedRate(rules, other, RateKey(tool, methodName)).value;
    RateIsReal(rules, other, RateKey(tool, methodName));
    WindowIsPositive(rules, tool, methodName);
    assert limit >= 1;
    hide *;
    var uses := Disturbing(limit, window, otherLimit, otherWindow);
    DisturbingIsFromTwo(limit, window, otherLimit, otherWindow);
    DisturbingDiffers(limit, window, otherLimit, otherWindow);
    calls := Realise(rules, uses, tool, methodName, limit, window, other, otherLimit, otherWindow);
  }

  /** A permitted method fares in every run as with a limiter of its own exactly when each other tool
      that shares its budget has a limit that admits nothing and a window that is not shorter, or the
      limit itself admits nothing. */
  lemma {:induction false} BudgetIsOwnIff(rules: Rules, tool: string, methodName: string, limit: int, window: int)
    requires GoverningRate(rules, tool, methodName) == Some((limit, window))
    ensures Undisturbed(rules, tool, methodName, limit, window) <==>
      forall calls :: ClockRuns(calls) ==>
        ForwardsOf(calls, Responses(rules, calls), tool, methodName) ==
          Decisions(TimesOf(calls, tool, methodName), limit, window)
  {
    hide ClockRuns, TimesOf, ForwardsOf, Responses, Decisions, GoverningRate, SharedRate, Neutral;
    if Undisturbed(rules, tool, methodName, limit, window) {
      forall calls | ClockRuns(calls)
        ensures ForwardsOf(calls, Responses(rules, calls), tool, methodName) ==
          Decisions(TimesOf(calls, tool, methodName), limit, window)
      {
        BudgetIsOwn(rules, calls, tool, methodName, limit, window);
      }
    } else {
      var other :| other in rules.allowed && other != tool &&
        SharedRate(rules, other, RateKey(tool, methodName)).Some? &&
        !Neutral(SharedRate(rules, other, RateKey(tool, methodName)).value.0,
                 SharedRate(rules, other, RateKey(tool, methodName)).value.1, limit, window);
      var calls := BudgetIsShared(rules, tool, methodName, limit, window, other);
    }
  }

  lemma {:induction false} ReadableRates()
    ensures ParseRateLimit("2/min") == Some((2, 60)) && ParseRateLimit("5/sec") == Some((5, 1))
  {
    RateLimitRoundTrip(2, "min");
    RateLimitRoundTrip(5, "sec");
    assert Show(2) + "/" + "min" == "2/min" && Show(5) + "/" + "sec" == "5/sec";
    hide ParseRateLimit;
  }

  lemma {:induction false} PerSecondForgets()
    ensures !Harmless(5, 1, 2, 60)
  {
  }

  /** For instance: a tool `a` limited to two calls a minute, next to a tool `a:b` with a limit per
      second, can be called three times within one minute. */
  lemma {:induction false} CollisionBreaksLimit() returns (rules: Rules, calls: seq<Call>)
    ensures rules.policy == "deny" && rules.denied == {} && rules.allowed.Keys == {"a", "a:b"}
    ensures rules.allowed["a"].rateLimit == "2/min" && rules.allowed["a:b"].rateLimit == "5/sec"
    ensures ClockRuns(calls)
    ensures !Legal(TimesOf(calls, "a", "b:c"), ForwardsOf(calls, Responses(rules, calls), "a", "b:c"), 2, 60)
  {
    rules := Rules("deny",
      map["a" := Permission("a", {"*"}, "2/min", true), "a:b" := Permission("a:b", {"*"}, "5/sec", true)], {});
    ReadableRates();
    KeysCanCollide("a", "a:b", "c");
    assert RateKey("a", "b:c") == "a:b:c" && "a:b" + ":" <= "a:b:c" && "a:b:c"[4..] == "c";
    hide ParseRateLimit, Harmless;
    assert GoverningRate(rules, "a", "b:c") == Some((2, 60)) && GoverningRate(rules, "a:b", "c") == Some((5, 1));
    assert SharedRate(rules, "a:b", "a:b:c") == Some((5, 1));
    hide *;
    assert !Harmless(5, 1, 2, 60) by { PerSecondForgets(); }
    calls := LimitFails(rules, "a", "b:c", 2, 60, "a:b");
  }

  lemma {:induction false} OnlyAllowedIsForwarded(rules: Rules, calls: seq<Call>, i: nat)
    requires i < |calls| && Forwarded(Responses(rules, calls)[i]) && rules.policy == "deny"
    ensures calls[i].tool in rules.allowed && calls[i].tool !in rules.denied
    ensures var methods := rules.allowed[calls[i].tool].methods; "*" in methods || calls[i].methodName in methods
    decreases |calls|
  {
    var n := |calls| - 1;
    if i == n {
    } else {
      assert Responses(rules, calls)[i] == Responses(rules, calls[..n])[i];
      OnlyAllowedIsForwarded(rules, calls[..n], i);
    }
  }
}
