/** Tool permissions and rate-limit parsing (src/mcp_proxy/allowlist.py). */
module Allowlisting {
  import opened Prelude

  datatype Permission = Permission(name: string, methods: set<string>, rateLimit: string, audit: bool)

  /** One entry of the `allowed_tools` mapping; absent keys take the defaults of `load`. */
  datatype ToolConfig = ToolConfig(methods: Option<set<string>>, rateLimit: Option<string>, audit: Option<bool>)

  datatype Config = Config(policy: Option<string>, allowed: map<string, ToolConfig>, denied: set<string>)

  function PermissionOf(name: string, c: ToolConfig): Permission {
    Permission(
      name,
      if c.methods.Some? then c.methods.value else {"*"},
      if c.rateLimit.Some? then c.rateLimit.value else "60/min",
      if c.audit.Some? then c.audit.value else true)
  }

  /** The loaded permissions. */
  datatype Rules = Rules(policy: string, allowed: map<string, Permission>, denied: set<string>) {

    /** `is_allowed`, with `allows_method` in place. */
    predicate IsAllowed(tool: string, methodName: string) {
      if tool in denied then false
      else if policy == "deny" then
        tool in allowed && ("*" in allowed[tool].methods || methodName in allowed[tool].methods)
      else true
    }

    function GetPermission(tool: string): Option<Permission> {
      if tool in allowed then Some(allowed[tool]) else None
    }
  }

  class ToolAllowlist {
    var policy: string
    var allowedTools: map<string, Permission>
    var deniedTools: set<string>

    /** A missing file leaves the empty, default-deny rules in place. */
    constructor (config: Option<Config>)
      ensures config.None? ==> Loaded() == Rules("deny", map[], {})
      ensures config.Some? ==> Loaded() == RulesOf(config.value)
    {
      policy, allowedTools, deniedTools := "deny", map[], {};
      new;
      Load(config);
    }

    function Loaded(): Rules
      reads this
    {
      Rules(policy, allowedTools, deniedTools)
    }

    /** `load`: policy and denials are replaced, permissions are added to those already there, and
        a missing file changes nothing. */
    method Load(file: Option<Config>)
      modifies this
      ensures file.None? ==> Loaded() == old(Loaded())
      ensures file.Some? ==>
        && policy == RulesOf(file.value).policy && deniedTools == file.value.denied
        && allowedTools == old(allowedTools) + RulesOf(file.value).allowed
    {
      if file.None? {
        return;
      }
      policy := if file.value.policy.Some? then file.value.policy.value else "deny";
      AddTools(file.value.allowed);
      deniedTools := file.value.denied;
    }

    /** The loop of `load`. */
    method AddTools(tools: map<string, ToolConfig>)
      modifies this`allowedTools
      ensures allowedTools == old(allowedTools) + PermissionsOf(tools)
    {
      ghost var start, done: map<string, Permission> := allowedTools, map[];
      var rest := tools.Keys;
      while rest != {}
        invariant rest <= tools.Keys && done.Keys == tools.Keys - rest
        invariant forall t :: t in done ==> done[t] == PermissionOf(t, tools[t])
        invariant allowedTools == start + done
        decreases rest
      {
        var tool :| tool in rest;
        rest := rest - {tool};
        AddOne(start, done, tool, PermissionOf(tool, tools[tool]));
        allowedTools := allowedTools[tool := PermissionOf(tool, tools[tool])];
        done := done[tool := PermissionOf(tool, tools[tool])];
        hide PermissionOf;
      }
      assert done == PermissionsOf(tools);
    }
  }

  lemma {:induction false} AddOne(start: map<string, Permission>, done: map<string, Permission>, tool: string,
        p: Permission)
    ensures (start + done)[tool := p] == start + done[tool := p]
  {
  }

  function PermissionsOf(tools: map<string, ToolConfig>): map<string, Permission> {
    map t | t in tools :: PermissionOf(t, tools[t])
  }

  function RulesOf(c: Config): Rules {
    Rules(
      if c.policy.Some? then c.policy.value else "deny",
      PermissionsOf(c.allowed),
      c.denied)
  }

  /** Default deny: without an explicit other policy, a call is allowed exactly when its tool is
      listed, not denied, and the listing names the method, names `*`, or names no methods at all. */
  lemma {:induction false} DefaultDeny(c: Config, tool: string, methodName: string)
    requires c.policy.None? || c.policy.value == "deny"
    ensures RulesOf(c).IsAllowed(tool, methodName) <==>
      && tool !in c.denied && tool in c.allowed
      && (c.allowed[tool].methods.Some? ==>
            methodName in c.allowed[tool].methods.value || "*" in c.allowed[tool].methods.value)
  {
  }

  /** Under any other policy every call is allowed but those of denied tools. */
  lemma {:induction false} OtherPolicies(c: Config, tool: string, methodName: string)
    requires c.policy.Some? && c.policy.value != "deny"
    ensures RulesOf(c).IsAllowed(tool, methodName) <==> tool !in c.denied
  {
  }

  // ----- parse_rate_limit ------------------------------------------------

  predicate IsDigit(c: char) { '0' <= c <= '9' }

  /** Decimal digits, with single underscores allowed between them. */
  function Digits(s: string): Option<nat> {
    if s == "" || !IsDigit(s[|s| - 1]) then None
    else
      var n := |s| - 1;
      var d := (s[n] - '0') as nat;
      if n == 0 then Some(d)
      else
        var front := if s[n - 1] == '_' then Digits(s[..n - 1]) else Digits(s[..n]);
        if front.Some? then Some(front.value * 10 + d) else None
  }

  predicate IsSpace(c: char) { c == ' ' || '\t' <= c <= '\r' || '\U{1C}' <= c <= '\U{1F}' }

  function Strip(s: string): string {
    if s == "" then ""
    else if IsSpace(s[0]) then Strip(s[1..])
    else if IsSpace(s[|s| - 1]) then Strip(s[..|s| - 1])
    else s
  }

  function Negated(n: Option<int>): Option<int> {
    if n.Some? then Some(-n.value) else None
  }

  /** `int(s)` on ASCII text. */
  function ParseInt(s: string): Option<int> {
    var t := Strip(s);
    if t == "" then None
    else if t[0] == '-' then Negated(Digits(t[1..]))
    else if t[0] == '+' then Digits(t[1..])
    else Digits(t)
  }

  function PeriodSeconds(period: string): (s: int)
    ensures s > 0
  {
    if period == "sec" then 1
    else if period == "min" then 60
    else if period == "hour" then 3600
    else 60
  }

  /** `parse_rate_limit`; `None` stands for the ValueError it raises. */
  function ParseRateLimit(rateLimit: string): Option<(int, int)> {
    var parts := Split(rateLimit, '/');
    if |parts| != 2 then None
    else
      match ParseInt(parts[0])
      case Some(count) => Some((count, PeriodSeconds(parts[1])))
      case None => None
  }

  /** The decimal text of a number. */
  function Show(n: nat): (s: string)
    ensures s != "" && forall i :: 0 <= i < |s| ==> IsDigit(s[i])
  {
    var d := ['0' + (n % 10) as char];
    if n < 10 then d else Show(n / 10) + d
  }

  lemma {:induction false} DigitsOfShow(n: nat)
    ensures Digits(Show(n)) == Some(n)
  {
    if n < 10 {
    } else {
      DigitsOfShow(n / 10);
      assert Show(n)[..|Show(n)| - 1] == Show(n / 10);
    }
  }

  /** The seconds of a period: names other than these stand for a minute. */
  ghost predicate LastsFor(period: string, seconds: int) {
    && (period == "sec" ==> seconds == 1)
    && (period == "hour" ==> seconds == 3600)
    && (period != "sec" && period != "hour" ==> seconds == 60)
  }

  // ----- which rate limits are readable ---------------------------------

  /** Digits, with single underscores between them. */
  ghost predicate IsNumeral(s: string) {
    && s != "" && IsDigit(s[0]) && IsDigit(s[|s| - 1])
    && (forall i :: 0 <= i < |s| ==> IsDigit(s[i]) || s[i] == '_')
    && (forall i :: 0 <= i < |s| - 1 ==> IsDigit(s[i]) || IsDigit(s[i + 1]))
  }

  /** The number the digits of a text denote. */
  ghost function Denoted(s: string): nat {
    if s == "" then 0
    else
      var n := |s| - 1;
      if IsDigit(s[n]) then 10 * Denoted(s[..n]) + (s[n] as int - '0' as int) else Denoted(s[..n])
  }

  /** Exactly the numerals are read, as what their digits denote. */
  lemma {:induction false} DigitsIff(s: string)
    ensures Digits(s) == if IsNumeral(s) then Some(Denoted(s)) else None
  {
    if s == "" || !IsDigit(s[|s| - 1]) {
    } else {
      var n := |s| - 1;
      if n == 0 {
        assert s[..0] == "";
      } else if s[n - 1] == '_' {
        DigitsIff(s[..n - 1]);
        assert s[..n][..n - 1] == s[..n - 1];
        assert IsNumeral(s) <==> IsNumeral(s[..n - 1]);
      } else {
        DigitsIff(s[..n]);
        assert IsNumeral(s) <==> IsNumeral(s[..n]);
      }
    }
  }

  lemma {:induction false} ShowIsNumeral(n: nat)
    ensures IsNumeral(Show(n)) && Denoted(Show(n)) == n
  {
    DigitsOfShow(n);
    DigitsIff(Show(n));
  }

  ghost predicate AllSpaces(s: string) {
    forall i :: 0 <= i < |s| ==> IsSpace(s[i])
  }

  /** Neither its first nor its last character is a space. */
  ghost predicate IsBare(s: string) {
    s != "" && !IsSpace(s[0]) && !IsSpace(s[|s| - 1])
  }

  lemma {:induction false} StripPadded(before: string, core: string, after: string)
    requires AllSpaces(before) && IsBare(core) && AllSpaces(after)
    ensures Strip(before + core + after) == core
    decreases |before| + |after|
  {
    var s := before + core + after;
    if before != "" {
      assert s[0] == before[0] && s[1..] == before[1..] + core + after;
      StripPadded(before[1..], core, after);
    } else if after != "" {
      var n := |after| - 1;
      assert s[0] == core[0] && s[|s| - 1] == after[n] && s[..|s| - 1] == before + core + after[..n];
      StripPadded(before, core, after[..n]);
    } else {
      assert s == core;
    }
  }

  lemma {:induction false} SpaceBefore(c: char, before: string)
    requires IsSpace(c) && AllSpaces(before)
    ensures AllSpaces([c] + before)
  {
    hide IsSpace;
  }

  lemma {:induction false} SpaceAfter(c: char, after: string)
    requires IsSpace(c) && AllSpaces(after)
    ensures AllSpaces(after + [c])
  {
    hide IsSpace;
  }

  lemma {:induction false} StripParts(s: string) returns (before: string, after: string)
    ensures s == before + Strip(s) + after && AllSpaces(before) && AllSpaces(after)
    ensures Strip(s) != "" ==> IsBare(Strip(s))
  {
    hide IsSpace;
    if s == "" {
      before, after := "", "";
    } else if IsSpace(s[0]) {
      before, after := StripParts(s[1..]);
      SpaceBefore(s[0], before);
      hide AllSpaces, IsBare;
      assert s == [s[0]] + (before + Strip(s[1..]) + after);
      before := [s[0]] + before;
    } else if IsSpace(s[|s| - 1]) {
      before, after := StripParts(s[..|s| - 1]);
      SpaceAfter(s[|s| - 1], after);
      hide AllSpaces, IsBare;
      assert s == (before + Strip(s[..|s| - 1]) + after) + [s[|s| - 1]];
      after := after + [s[|s| - 1]];
    } else {
      before, after := "", "";
    }
  }

  ghost function SignedValue(sign: string, n: nat): int {
    if sign == "-" then 0 - n else n
  }

  /** A count is read as the number it denotes, whatever spaces surround it. */
  lemma {:induction false} CountReads(before: string, sign: string, numeral: string, after: string)
    requires AllSpaces(before) && sign in {"", "+", "-"} && IsNumeral(numeral) && AllSpaces(after)
    ensures ParseInt(before + (sign + numeral) + after) == Some(SignedValue(sign, Denoted(numeral)))
  {
    var core := sign + numeral;
    assert core[|core| - 1] == numeral[|numeral| - 1] && core[|sign|..] == numeral;
    assert core[0] == if sign == "" then numeral[0] else sign[0];
    StripPadded(before, core, after);
    DigitsIff(numeral);
    hide Strip, Digits, Denoted, IsNumeral;
  }

  lemma {:induction false} CountParts(s: string)
    returns (before: string, sign: string, numeral: string, after: string)
    requires ParseInt(s).Some?
    ensures s == before + (sign + numeral) + after && AllSpaces(before) && AllSpaces(after)
    ensures sign in {"", "+", "-"} && IsNumeral(numeral)
  {
    before, after := StripParts(s);
    var t := Strip(s);
    sign := if t[0] == '-' then "-" else if t[0] == '+' then "+" else "";
    numeral := t[|sign|..];
    assert t == sign + numeral;
    DigitsIff(numeral);
    hide Strip, Digits, Denoted, IsNumeral;
  }

  /** A count, perhaps signed, padded or grouped by underscores, a slash and a period are read as a
      limit. */
  lemma {:induction false} RateLimitReads(before: string, sign: string, numeral: string, after: string, period: string)
    requires AllSpaces(before) && sign in {"", "+", "-"} && IsNumeral(numeral) && AllSpaces(after) && '/' !in period
    ensures var rate := ParseRateLimit(before + (sign + numeral) + after + "/" + period);
      rate.Some? && rate.value.0 == SignedValue(sign, Denoted(numeral)) && LastsFor(period, rate.value.1)
  {
    var count := before + (sign + numeral) + after;
    assert forall c :: c in count <==> c in before || c in sign || c in numeral || c in after;
    assert '/' !in count;
    assert count + "/" + period == count + ['/'] + period;
    CountReads(before, sign, numeral, after);
    SplitAtOnly(count, period, '/');
    hide Split, ParseInt, IsNumeral, Denoted;
  }

  /** No other text is a limit. */
  lemma {:induction false} RateLimitParts(rateLimit: string)
    returns (before: string, sign: string, numeral: string, after: string, period: string)
    requires ParseRateLimit(rateLimit).Some?
    ensures rateLimit == before + (sign + numeral) + after + "/" + period && '/' !in period
    ensures AllSpaces(before) && AllSpaces(after) && sign in {"", "+", "-"} && IsNumeral(numeral)
  {
    var parts := Split(rateLimit, '/');
    SplitInTwo(rateLimit, '/');
    before, sign, numeral, after := CountParts(parts[0]);
    period := parts[1];
    hide Split, IsNumeral;
  }

  lemma {:induction false} SplitInOne(s: string, sep: char)
    ensures |Split(s, sep)| == 1 ==> Split(s, sep)[0] == s && sep !in s
  {
    if s == "" {
    } else {
      SplitInOne(s[..|s| - 1], sep);
      assert s == s[..|s| - 1] + [s[|s| - 1]];
    }
  }

  lemma {:induction false} SplitInTwo(s: string, sep: char)
    ensures var parts := Split(s, sep);
      |parts| == 2 ==> s == parts[0] + [sep] + parts[1] && sep !in parts[1]
  {
    if s == "" {
    } else {
      var n := |s| - 1;
      SplitInOne(s[..n], sep);
      SplitInTwo(s[..n], sep);
      assert s == s[..n] + [s[n]];
    }
  }

  /** Any written count and period is read back, whatever the period's name. */
  lemma {:induction false} RateLimitRoundTrip(count: nat, period: string)
    requires '/' !in period
    ensures var rate := ParseRateLimit(Show(count) + "/" + period);
      rate.Some? && rate.value.0 == count && LastsFor(period, rate.value.1)
  {
    DigitsOfShow(count);
    ShowIsNumeral(count);
    var text := Show(count);
    RateLimitReads("", "", text, "", period);
    assert "" + ("" + text) + "" == text;
    hide *;
  }

  lemma {:induction false} SplitCount(s: string, sep: char)
    ensures |Split(s, sep)| == 1 + multiset(s)[sep]
  {
    if s == "" {
    } else {
      var n := |s| - 1;
      assert s == s[..n] + [s[n]];
      SplitCount(s[..n], sep);
    }
  }

  /** A rate limit without exactly one slash is rejected. */
  lemma {:induction false} RateLimitNeedsOneSlash(rateLimit: string)
    ensures ParseRateLimit(rateLimit).Some? ==> multiset(rateLimit)['/'] == 1
  {
    SplitCount(rateLimit, '/');
  }
}
