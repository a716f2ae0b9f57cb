/** The cognitive workflow (src/agent/graph.py and its nodes): a graph walked from `parse` to
    END, with a retry edge from metacognition back to the model call. */
module Workflow {
  import opened Prelude
  import SseReaders

  datatype Endpoint = DeepSeek | Qwen
  datatype Message = Message(role: string, content: string)

  /** The parts of `GraphState` the workflow reads. An absent text, flag or list reads as its default. */
  datatype GraphState = GraphState(
    prompt: string,
    messages: seq<Message>,
    model: string,
    requiresTools: bool,
    complexity: Option<Complexity>,
    isStatusQuery: bool,
    memoryContext: string,
    codeContext: string,
    response: string,
    error: string,
    metacogPassed: Option<bool>,
    verdict: string,
    retryCount: Option<int>)

  /** Keyword searches and text gates, whatever they are. */
  datatype Heuristics = Heuristics(
    lower: string -> string,
    greets: string -> bool,
    asksStatus: string -> bool,
    looksTrivial: string -> bool,
    sovereign: string -> bool,
    looksComplex: string -> bool,
    mentionsCode: string -> bool,
    hallucinates: string -> bool,
    incomplete: string -> bool,
    tooShort: string -> bool,
    incoherent: (string, string) -> bool)

  /** What the services answer while one node runs. */
  datatype Env = Env(memory: string, knowledge: string, status: string, answer: Answer)

  /** How a model call ends: with a text, or with one of three kinds of exceptions. */
  datatype Answer = Text(text: string) | TimedOut(detail: string) | BadStatus(detail: string) | Failure(detail: string)

  datatype Node =
    | Parse | RetrieveMemory | Classify | HandleStatus | RetrieveKnowledge
    | CallModel | StoreMemory | Metacog | Finalize | End

  const MAX_RETRIES := 2

  // ----- node functions --------------------------------------------------

  /** The last user message, if the prompt is empty. */
  function PromptOf(prompt: string, messages: seq<Message>): string {
    if prompt != "" || messages == [] then prompt
    else
      var n := |messages| - 1;
      if messages[n].role == "user" then messages[n].content
      else PromptOf(prompt, messages[..n])
  }

  function RetryCount(s: GraphState): int {
    if s.retryCount.Some? then s.retryCount.value else 0
  }

  function ParseRequest(s: GraphState): GraphState {
    s.(prompt := PromptOf(s.prompt, s.messages), retryCount := Some(RetryCount(s)))
  }

  predicate ShouldUseMemory(h: Heuristics, s: GraphState) {
    !(h.greets(h.lower(s.prompt)) && |h.lower(s.prompt)| < 50)
  }

  /** `retrieve_memory` skips only tasks already classified as trivial or routine. */
  function RetrieveMemoryNode(s: GraphState, env: Env): GraphState {
    if s.complexity == Some(Trivial) || s.complexity == Some(Routine) then s.(memoryContext := "")
    else s.(memoryContext := env.memory)
  }

  function Alias(model: string): Option<Endpoint> {
    if model in {"deepseek-v3.2", "deepseek"} then Some(DeepSeek)
    else if model in {"qwen2.5-coder-7b", "qwen", "qwen-executor"} then Some(Qwen)
    else None
  }

  function EstimateComplexity(h: Heuristics, s: GraphState, prompt: string): Complexity {
    var text := h.lower(prompt);
    if h.looksTrivial(text) && |prompt| < 50 then Trivial
    else if s.requiresTools then ToolHeavy
    else if h.sovereign(text) || h.looksComplex(text) then Complex
    else if |prompt| > 500 || |s.messages| - 1 > 5 then Complex
    else Routine
  }

  /** `classify_complexity`: an explicit model first, then status queries, then the heuristics. */
  function ClassifyNode(h: Heuristics, s: GraphState): GraphState {
    var prompt := PromptOf(s.prompt, s.messages);
    var requested := h.lower(s.model);
    if s.model != "" && requested != "auto" && Alias(requested).Some? then
      s.(complexity := Some(if Alias(requested).value == DeepSeek then Complex else Routine), prompt := prompt)
    else if h.asksStatus(h.lower(prompt)) then
      s.(complexity := Some(Trivial), isStatusQuery := true, prompt := prompt)
    else
      s.(complexity := Some(EstimateComplexity(h, s, prompt)), prompt := prompt)
  }

  function RetrieveKnowledgeNode(h: Heuristics, s: GraphState, env: Env): GraphState {
    if s.complexity == Some(ToolHeavy) && h.mentionsCode(h.lower(s.prompt)) then s.(codeContext := env.knowledge)
    else s.(codeContext := "")
  }

  function CallModelNode(s: GraphState, env: Env): GraphState {
    match env.answer
    case Text(text) => s.(response := text)
    case TimedOut(detail) => s.(response := "", error := "Model timeout after " + detail)
    case BadStatus(detail) => s.(response := "", error := "Model HTTP error " + detail)
    case Failure(detail) => s.(response := "", error := "Model call failed: " + detail)
  }

  predicate ShouldVerify(s: GraphState) {
    && s.complexity != Some(Trivial) && s.complexity != Some(Routine)
    && s.error == "" && s.response != ""
  }

  /** `store_memory` reaches the store under the same conditions. */
  predicate Stores(s: GraphState) {
    ShouldVerify(s)
  }

  /** The first of the four gates a response fails. */
  function FailedGate(h: Heuristics, s: GraphState): Option<string> {
    if h.hallucinates(s.response) then Some("hallucination")
    else if h.incomplete(s.response) then Some("incomplete")
    else if h.tooShort(s.response) then Some("too_short")
    else if h.incoherent(s.response, s.prompt) then Some("incoherent")
    else None
  }

  /** `_handle_failure`; the reason text is left out of the verdict. */
  function HandleFailure(s: GraphState, gate: string): GraphState {
    if RetryCount(s) >= MAX_RETRIES then
      s.(metacogPassed := Some(true), verdict := "passed_after_max_retries:" + gate)
    else
      s.(metacogPassed := Some(false), verdict := "failed:" + gate, retryCount := Some(RetryCount(s) + 1))
  }

  function MetacogNode(h: Heuristics, s: GraphState): GraphState {
    if !ShouldVerify(s) then s.(metacogPassed := Some(true), verdict := "skipped")
    else
      match FailedGate(h, s)
      case None => s.(metacogPassed := Some(true), verdict := "passed_all_gates")
      case Some(gate) => HandleFailure(s, gate)
  }

  /** `route_after_metacog`. */
  predicate Retries(s: GraphState) {
    s.metacogPassed == Some(false) && RetryCount(s) < 2
  }

  // ----- the graph -------------------------------------------------------

  datatype Config = Config(node: Node, s: GraphState)

  /** The state update of one node, then the edge out of it. */
  function Next(h: Heuristics, c: Config, env: Env): Config
    requires c.node != End
  {
    match c.node
    case Parse =>
      var s := ParseRequest(c.s);
      Config(if ShouldUseMemory(h, s) then RetrieveMemory else Classify, s)
    case RetrieveMemory => Config(Classify, RetrieveMemoryNode(c.s, env))
    case Classify =>
      var s := ClassifyNode(h, c.s);
      Config(if s.isStatusQuery then HandleStatus else RetrieveKnowledge, s)
    case HandleStatus => Config(StoreMemory, c.s.(response := env.status))
    case RetrieveKnowledge => Config(CallModel, RetrieveKnowledgeNode(h, c.s, env))
    case CallModel => Config(StoreMemory, CallModelNode(c.s, env))
    case StoreMemory => Config(if ShouldVerify(c.s) then Metacog else Finalize, c.s)
    case Metacog =>
      var s := MetacogNode(h, c.s);
      Config(if Retries(s) then CallModel else Finalize, s)
    case Finalize => Config(End, c.s)
  }

  ghost predicate IsStep(h: Heuristics, a: Config, b: Config) {
    a.node != End && exists env :: b == Next(h, a, env)
  }

  /** A run from a given initial state, complete or cut short. */
  ghost predicate IsRun(h: Heuristics, run: seq<Config>) {
    && run != [] && run[0].node == Parse
    && forall i :: 0 < i < |run| ==> IsStep(h, run[i - 1], run[i])
  }

  /** How many times a node has been executed. */
  ghost function Executions(run: seq<Config>, node: Node): nat
    requires run != []
  {
    if |run| == 1 then 0
    else
      var n := |run| - 1;
      Executions(run[..n], node) + (if run[n - 1].node == node then 1 else 0)
  }

  /** How many verifications have failed. */
  ghost function GateFailures(run: seq<Config>): nat
    requires run != []
  {
    if |run| == 1 then 0
    else
      var n := |run| - 1;
      GateFailures(run[..n]) +
        (if run[n - 1].node == Metacog && run[n].s.metacogPassed == Some(false) then 1 else 0)
  }

  // ----- termination -----------------------------------------------------

  /** A bound on the node executions still to come. */
  ghost function Remaining(c: Config): nat {
    var retries := Max(0, 1 - RetryCount(c.s));
    match c.node
    case End => 0
    case Finalize => 1
    case Metacog => 3 * retries + 2
    case StoreMemory => 3 * retries + 3
    case CallModel => 3 * retries + 4
    case RetrieveKnowledge => 3 * retries + 5
    case HandleStatus => 3 * retries + 5
    case Classify => 3 * retries + 6
    case RetrieveMemory => 3 * retries + 7
    case Parse => 3 * retries + 8
  }

  /** A bound on the model calls still to come. */
  ghost function CallsLeft(c: Config): nat {
    var retries := Max(0, 1 - RetryCount(c.s));
    match c.node
    case End => 0
    case Finalize => 0
    case Metacog => retries
    case StoreMemory => retries
    case _ => retries + 1
  }

  lemma {:induction false} StepDecreases(h: Heuristics, c: Config, env: Env)
    requires c.node != End
    ensures Remaining(Next(h, c, env)) < Remaining(c)
    ensures CallsLeft(Next(h, c, env)) + (if c.node == CallModel then 1 else 0) <= CallsLeft(c)
  {
  }

  /** From an initial retry count `r`, no run executes more than `5 + 3 * max(1, 2 - r)` nodes or
      calls the model more than `max(1, 2 - r)` times; without one, 11 and 2. */
  lemma {:induction false} Terminates(h: Heuristics, run: seq<Config>)
    requires IsRun(h, run)
    ensures |run| - 1 + Remaining(run[|run| - 1]) <= 5 + 3 * Max(1, 2 - RetryCount(run[0].s))
    ensures Executions(run, CallModel) + CallsLeft(run[|run| - 1]) <= Max(1, 2 - RetryCount(run[0].s))
  {
    if |run| == 1 {
    } else {
      var n := |run| - 1;
      Terminates(h, run[..n]);
      assert IsStep(h, run[n - 1], run[n]);
      var env :| run[n] == Next(h, run[n - 1], env);
      StepDecreases(h, run[n - 1], env);
    }
  }

  // ----- runs from a fresh request --------------------------------------

  /** An initial state in which nothing has happened yet; `invoke_graph` and `stream_graph` build such
      states. */
  predicate Fresh(s: GraphState) {
    && s.retryCount.None? && s.metacogPassed.None? && s.complexity.None? && !s.isStatusQuery
    && s.response == "" && s.error == "" && s.memoryContext == "" && s.codeContext == ""
  }

  /** The flag `metacog_passed` records exactly the outcome of the last verification. */
  ghost predicate FlagAfter(s: GraphState, failures: nat) {
    s.metacogPassed == Some(false) <==> failures > 0
  }

  /** What holds whenever a run from a fresh request is about to execute a node. */
  ghost predicate Invariant(c: Config, calls: nat, failures: nat, statuses: nat, verifications: nat) {
    var s := c.s;
    && (c.node !in {Finalize, End} ==>
          FlagAfter(s, failures) && RetryCount(s) == failures <= 1 && s.metacogPassed != Some(true))
    && (statuses > 0 ==> calls == 0 && verifications == 0 && s.complexity == Some(Trivial))
    && (failures > 0 ==> s.complexity != Some(Trivial) && s.complexity != Some(Routine))
    && failures <= verifications <= calls
    && (c.node in {RetrieveKnowledge, CallModel, StoreMemory, Metacog} ==> s.complexity.Some?)
    && match c.node
       case Parse => calls == statuses == 0 && !s.isStatusQuery && s.error == ""
       case RetrieveMemory => calls == statuses == 0 && !s.isStatusQuery && s.error == ""
       case Classify => calls == statuses == 0 && !s.isStatusQuery && s.error == ""
       case HandleStatus => calls == statuses == 0 && s.complexity == Some(Trivial)
       case RetrieveKnowledge => calls == statuses == 0 && s.error == ""
       case CallModel => calls == verifications == failures && statuses == 0 && s.error == ""
       case StoreMemory => if statuses > 0 then calls == 0 else calls == verifications + 1 == failures + 1
       case Metacog => calls == verifications + 1 == failures + 1 && statuses == 0 && ShouldVerify(s)
       case _ =>
         && calls <= 2
         && (s.metacogPassed == Some(false) <==>
               || (failures == 2 && calls == 2)
               || (failures == 1 && calls == 2 && (s.error != "" || s.response == "")))
         && (failures == 2 ==> calls == 2)
         && calls <= verifications + 1
         && verifications == failures + (if s.metacogPassed == Some(true) then 1 else 0)
  }

  lemma {:induction false} InvariantStep(h: Heuristics, c: Config, env: Env, calls: nat, failures: nat, statuses: nat,
        verifications: nat)
    requires c.node != End && Invariant(c, calls, failures, statuses, verifications)
    ensures var d := Next(h, c, env);
      Invariant(d,
        calls + (if c.node == CallModel then 1 else 0),
        failures + (if c.node == Metacog && d.s.metacogPassed == Some(false) then 1 else 0),
        statuses + (if c.node == HandleStatus then 1 else 0),
        verifications + (if c.node == Metacog then 1 else 0))
  {
  }

  lemma {:induction false} InvariantHolds(h: Heuristics, run: seq<Config>)
    requires IsRun(h, run) && Fresh(run[0].s)
    ensures Invariant(run[|run| - 1], Executions(run, CallModel), GateFailures(run),
                      Executions(run, HandleStatus), Executions(run, Metacog))
  {
    if |run| == 1 {
    } else {
      var n := |run| - 1;
      InvariantHolds(h, run[..n]);
      assert IsStep(h, run[n - 1], run[n]);
      var env :| run[n] == Next(h, run[n - 1], env);
      InvariantStep(h, run[n - 1], env, Executions(run[..n], CallModel), GateFailures(run[..n]),
                    Executions(run[..n], HandleStatus), Executions(run[..n], Metacog));
      hide Invariant;
    }
  }

  /** Every run from a fresh request stays within 11 node executions and two model calls, and a
      verification never finds the retries exhausted. */
  lemma {:induction false} FreshRunsAreShort(h: Heuristics, run: seq<Config>, i: nat)
    requires IsRun(h, run) && Fresh(run[0].s) && i < |run|
    ensures |run| - 1 <= 11 && Executions(run, CallModel) <= 2
    ensures run[i].node == Metacog ==> RetryCount(run[i].s) < MAX_RETRIES
  {
    Terminates(h, run);
    InvariantHolds(h, run[..i + 1]);
  }

  /** A finished run reports a failed verification exactly when two verifications failed, or one
      failed and the retried call came back with an error or empty. */
  lemma {:induction false} FinalStates(h: Heuristics, run: seq<Config>)
    requires IsRun(h, run) && Fresh(run[0].s) && run[|run| - 1].node == End
    ensures var s := run[|run| - 1].s;
      s.metacogPassed == Some(false) <==>
        || GateFailures(run) == 2
        || (GateFailures(run) == 1 && Executions(run, CallModel) == 2 && (s.error != "" || s.response == ""))
  {
    InvariantHolds(h, run);
  }

  /** A run that answers a status query never calls the model and is never verified. */
  lemma {:induction false} StatusShortCircuits(h: Heuristics, run: seq<Config>)
    requires IsRun(h, run) && Fresh(run[0].s)
    ensures Executions(run, HandleStatus) > 0 ==> Executions(run, CallModel) == Executions(run, Metacog) == 0
  {
    InvariantHolds(h, run);
  }

  /** On a first pass memory is always retrieved, whatever the request will turn out to be: it has
      not been classified yet. */
  lemma {:induction false} MemoryComesBeforeClassification(h: Heuristics, run: seq<Config>, i: nat)
    requires IsRun(h, run) && Fresh(run[0].s) && i < |run| && run[i].node == RetrieveMemory
    ensures run[i].s.complexity.None?
    ensures forall env :: Next(h, run[i], env).s.memoryContext == env.memory
  {
    assert i > 1 ==> IsStep(h, run[i - 2], run[i - 1]);
    assert IsStep(h, run[i - 1], run[i]);
    var before: Env :| run[i] == Next(h, run[i - 1], before);
  }

  /** Only a run that starts out classified, which no entry point begins, skips retrieval: for a trivial
      or routine task it finds no memory. */
  lemma {:induction false} ClassifiedTasksSkipMemory(h: Heuristics, run: seq<Config>, i: nat)
    requires IsRun(h, run) && i < |run| && run[i].node == RetrieveMemory && run[0].s.complexity.Some?
    ensures run[i].s.complexity == run[0].s.complexity
    ensures var light := run[0].s.complexity.value == Trivial || run[0].s.complexity.value == Routine;
      forall env :: Next(h, run[i], env).s.memoryContext == (if light then "" else env.memory)
  {
    assert i > 1 ==> IsStep(h, run[i - 2], run[i - 1]);
    assert IsStep(h, run[i - 1], run[i]);
    var before: Env :| run[i] == Next(h, run[i - 1], before);
  }

  // ----- what is stored --------------------------------------------------

  /** How many answers have been handed to the memory store. */
  ghost function StoresIn(run: seq<Config>): nat
    requires run != []
  {
    if |run| == 1 then 0
    else
      var n := |run| - 1;
      StoresIn(run[..n]) + (if run[n - 1].node == StoreMemory && Stores(run[n - 1].s) then 1 else 0)
  }

  lemma {:induction false} StoreThenVerify(h: Heuristics, c: Config, env: Env)
    requires c.node != End
    ensures Next(h, c, env).node == Metacog <==> c.node == StoreMemory && Stores(c.s)
  {
  }

  /** In any run, exactly the stored answers go on to be verified. */
  lemma {:induction false} StoredIsVerified(h: Heuristics, run: seq<Config>)
    requires IsRun(h, run)
    ensures StoresIn(run) == Executions(run, Metacog) + (if run[|run| - 1].node == Metacog then 1 else 0)
  {
    if |run| == 1 {
    } else {
      var n := |run| - 1;
      StoredIsVerified(h, run[..n]);
      assert IsStep(h, run[n - 1], run[n]);
      var env :| run[n] == Next(h, run[n - 1], env);
      StoreThenVerify(h, run[n - 1], env);
      hide Next, Stores;
    }
  }

  /** A finished run has stored every answer a gate rejected, and one more if verification passed in
      the end: as many as model calls, or one fewer. */
  lemma {:induction false} RejectedAnswersAreStored(h: Heuristics, run: seq<Config>)
    requires IsRun(h, run) && Fresh(run[0].s) && run[|run| - 1].node == End
    ensures StoresIn(run) == GateFailures(run) + (if run[|run| - 1].s.metacogPassed == Some(true) then 1 else 0)
    ensures StoresIn(run) <= Executions(run, CallModel) <= StoresIn(run) + 1
  {
    StoredIsVerified(h, run);
    InvariantHolds(h, run);
    hide IsRun, Executions, GateFailures, StoresIn;
  }

  // ----- what is sent to the model --------------------------------------

  /** The endpoint and messages of one model call. */
  datatype Request = Request(endpoint: Endpoint, messages: seq<Message>)

  /** The context block put in front of a conversation; empty when there is no context. */
  function ContextBlock(memoryContext: string, codeContext: string): string {
    var code := "<code_context>\n" + codeContext + "\n</code_context>";
    if memoryContext == "" then (if codeContext == "" then "" else code)
    else if codeContext == "" then memoryContext
    else memoryContext + "\n\n" + code
  }

  predicate LeadsWithSystem(messages: seq<Message>) {
    messages != [] && messages[0].role == "system"
  }

  /** The context extends or becomes the leading system message, and the rest is the conversation. */
  ghost predicate CarriesContext(r: seq<Message>, messages: seq<Message>, memoryContext: string, codeContext: string) {
    if memoryContext == "" && codeContext == "" then r == messages
    else
      var led := messages != [] && messages[0].role == "system";
      && r != [] && r[0].role == "system" && r[1..] == (if led then messages[1..] else messages)
      && r[0].content == (if led then messages[0].content + "\n\n" else "")
           + (memoryContext + (if memoryContext != "" && codeContext != "" then "\n\n" else "")
              + (if codeContext != "" then "<code_context>\n" + codeContext + "\n</code_context>" else ""))
  }

  lemma {:induction false} InjectedCarries(messages: seq<Message>, memoryContext: string, codeContext: string)
    ensures CarriesContext(Injected(messages, memoryContext, codeContext), messages, memoryContext, codeContext)
  {
    var code := "<code_context>\n" + codeContext + "\n</code_context>";
    assert memoryContext + "" + "" == memoryContext && "" + "" + code == code;
  }

  /** `_inject_context`: extends a leading system message, or inserts one. */
  method InjectContext(messages: seq<Message>, memoryContext: string, codeContext: string) returns (r: seq<Message>)
    ensures CarriesContext(r, messages, memoryContext, codeContext)
    ensures r == Injected(messages, memoryContext, codeContext)
  {
    var parts: seq<string> := [];
    if memoryContext != "" {
      parts := parts + [memoryContext];
    }
    if codeContext != "" {
      parts := parts + ["<code_context>\n" + codeContext + "\n</code_context>"];
    }
    if parts == [] {
      return messages;
    }
    var block := if |parts| == 1 then parts[0] else parts[0] + "\n\n" + parts[1];
    r := messages;
    if LeadsWithSystem(r) {
      r := r[0 := Message("system", r[0].content + "\n\n" + block)];
      assert r == [r[0]] + messages[1..];
    } else {
      r := [Message("system", block)] + r;
    }
  }

  function Injected(messages: seq<Message>, memoryContext: string, codeContext: string): seq<Message> {
    if memoryContext == "" && codeContext == "" then messages
    else
      var block := ContextBlock(memoryContext, codeContext);
      if LeadsWithSystem(messages) then
        [Message("system", messages[0].content + "\n\n" + block)] + messages[1..]
      else [Message("system", block)] + messages
  }

  /** The request `call_model` and `stream_model_response` build from a state. */
  function ModelRequest(s: GraphState): Request {
    Request(
      if s.complexity == Some(Complex) || s.complexity == Some(ToolHeavy) then DeepSeek else Qwen,
      Injected(
        if s.prompt != "" && s.messages == [] then [Message("user", s.prompt)] else s.messages,
        s.memoryContext, s.codeContext))
  }

  /** No node from the first model call on changes anything a request is built from. */
  lemma {:induction false} RequestIsKept(h: Heuristics, c: Config, env: Env)
    requires c.node in {CallModel, StoreMemory, Metacog, Finalize}
    ensures Next(h, c, env).node in {CallModel, StoreMemory, Metacog, Finalize, End}
    ensures ModelRequest(Next(h, c, env).s) == ModelRequest(c.s)
  {
    var s, t := c.s, Next(h, c, env).s;
    assert (s.prompt, s.messages, s.complexity) == (t.prompt, t.messages, t.complexity);
    assert (s.memoryContext, s.codeContext) == (t.memoryContext, t.codeContext);
    hide Next, Injected;
  }

  /** A retry repeats the very same request, whatever the initial state: same endpoint, same
      messages, and no hint that the first answer failed. */
  lemma {:induction false} RetrySendsSameRequest(h: Heuristics, run: seq<Config>, i: nat, j: nat)
    requires IsRun(h, run) && i <= j < |run| && run[i].node == CallModel
    ensures run[j].node in {CallModel, StoreMemory, Metacog, Finalize, End}
    ensures ModelRequest(run[j].s) == ModelRequest(run[i].s)
    decreases j
  {
    if i == j {
    } else {
      RetrySendsSameRequest(h, run, i, j - 1);
      assert IsStep(h, run[j - 1], run[j]);
      var env :| run[j] == Next(h, run[j - 1], env);
      RequestIsKept(h, run[j - 1], env);
    }
  }

  /** Only the large model's answers are retried. */
  lemma {:induction false} RetriesGoToDeepSeek(h: Heuristics, run: seq<Config>)
    requires IsRun(h, run) && Fresh(run[0].s)
    requires run[|run| - 1].node == CallModel && Executions(run, CallModel) > 0
    ensures ModelRequest(run[|run| - 1].s).endpoint == DeepSeek
  {
    InvariantHolds(h, run);
    var complexity := run[|run| - 1].s.complexity;
    assert GateFailures(run) > 0 && complexity.Some?;
    assert complexity != Some(Trivial) && complexity != Some(Routine);
    match complexity.value {
      case Complex => assert complexity == Some(Complex);
      case ToolHeavy => assert complexity == Some(ToolHeavy);
      case Trivial => assert false;
      case Routine => assert false;
    }
  }

  // ----- what is asked of which model -----------------------------------

  /** The last message of the user. */
  ghost predicate IsLastOfUser(messages: seq<Message>, k: int) {
    && 0 <= k < |messages| && messages[k].role == "user"
    && forall j :: k < j < |messages| ==> messages[j].role != "user"
  }

  /** The prompt, or if there is none the last message of the user. */
  ghost predicate IsQuestion(prompt: string, messages: seq<Message>, question: string) {
    if prompt != "" then question == prompt
    else
      || (exists k :: IsLastOfUser(messages, k) && question == messages[k].content)
      || (question == "" && forall j :: 0 <= j < |messages| ==> messages[j].role != "user")
  }

  lemma {:induction false} OlderQuestion(messages: seq<Message>, question: string)
    requires messages != [] && messages[|messages| - 1].role != "user"
    requires IsQuestion("", messages[..|messages| - 1], question)
    ensures IsQuestion("", messages, question)
  {
    var n, past := |messages| - 1, messages[..|messages| - 1];
    assert forall j :: 0 <= j < n ==> past[j] == messages[j];
    if k :| IsLastOfUser(past, k) && question == past[k].content {
      assert IsLastOfUser(messages, k);
    }
  }

  lemma {:induction false} PromptIsQuestion(prompt: string, messages: seq<Message>)
    ensures IsQuestion(prompt, messages, PromptOf(prompt, messages))
  {
    if prompt != "" || messages == [] {
    } else {
      var n := |messages| - 1;
      if messages[n].role != "user" {
        PromptIsQuestion(prompt, messages[..n]);
        OlderQuestion(messages, PromptOf(prompt, messages[..n]));
        hide IsQuestion;
      }
    }
  }

  /** The request names one of the models by an alias. */
  ghost predicate Requests(h: Heuristics, s: GraphState, aliases: set<string>) {
    s.model != "" && h.lower(s.model) in aliases
  }

  ghost predicate RequestsDeepSeek(h: Heuristics, s: GraphState) {
    Requests(h, s, {"deepseek-v3.2", "deepseek"})
  }

  ghost predicate RequestsQwen(h: Heuristics, s: GraphState) {
    Requests(h, s, {"qwen2.5-coder-7b", "qwen", "qwen-executor"})
  }

  /** A question for the large model: not both trivial and short, and asking for tools, holding a word
      that marks complex tasks, long, or late in a conversation. */
  ghost predicate IsDemanding(h: Heuristics, s: GraphState, question: string) {
    var text := h.lower(question);
    && !(h.looksTrivial(text) && |question| < 50)
    && (s.requiresTools || h.sovereign(text) || h.looksComplex(text) || |question| > 500 || |s.messages| > 6)
  }

  ghost predicate IsStatusQuery(h: Heuristics, s: GraphState, question: string) {
    !RequestsDeepSeek(h, s) && !RequestsQwen(h, s) && h.asksStatus(h.lower(question))
  }

  ghost predicate GoesToDeepSeek(h: Heuristics, s: GraphState, question: string) {
    RequestsDeepSeek(h, s) || (!RequestsQwen(h, s) && IsDemanding(h, s, question))
  }

  /** A task that needs tools: asked for, not both trivial and short, and for no model in particular. */
  ghost predicate NeedsTools(h: Heuristics, s: GraphState, question: string) {
    && s.requiresTools && !RequestsDeepSeek(h, s) && !RequestsQwen(h, s)
    && !(h.looksTrivial(h.lower(question)) && |question| < 50)
  }

  /** How a request is classified: trivial as a status query or a short trivial question, tool-heavy if
      it needs tools, complex if it goes to DeepSeek otherwise, and else routine. */
  ghost predicate IsClassified(h: Heuristics, s: GraphState, question: string, c: Option<Complexity>) {
    var status := IsStatusQuery(h, s, question);
    var brief := !RequestsDeepSeek(h, s) && !RequestsQwen(h, s) && h.looksTrivial(h.lower(question)) && |question| < 50;
    && c.Some?
    && (c.value == Trivial <==> status || brief)
    && (c.value == ToolHeavy <==> !status && NeedsTools(h, s, question))
    && (c.value == Complex <==> !status && GoesToDeepSeek(h, s, question) && !NeedsTools(h, s, question))
  }

  /** The request is still that of the start of the run, with its question as the prompt. */
  ghost predicate SameRequest(start: GraphState, s: GraphState, question: string) {
    && s.messages == start.messages && s.model == start.model && s.requiresTools == start.requiresTools
    && s.prompt == question
  }

  /** Where a run from `start` stands until it first calls the model or answers a status query. */
  ghost predicate Incoming(h: Heuristics, start: GraphState, question: string, c: Config) {
    match c.node
    case Parse => c.s == start
    case RetrieveMemory =>
      && SameRequest(start, c.s, question) && c.s.complexity.None? && !c.s.isStatusQuery
      && ShouldUseMemory(h, c.s)
    case Classify =>
      && SameRequest(start, c.s, question) && c.s.complexity.None? && !c.s.isStatusQuery
    case HandleStatus =>
      && SameRequest(start, c.s, question) && IsStatusQuery(h, start, question)
      && IsClassified(h, start, question, c.s.complexity)
    case RetrieveKnowledge =>
      && SameRequest(start, c.s, question) && !IsStatusQuery(h, start, question)
      && (ModelRequest(c.s).endpoint == DeepSeek <==> GoesToDeepSeek(h, start, question))
      && IsClassified(h, start, question, c.s.complexity)
    case CallModel =>
      && SameRequest(start, c.s, question) && !IsStatusQuery(h, start, question)
      && IsClassified(h, start, question, c.s.complexity)
      && (ModelRequest(c.s).endpoint == DeepSeek <==> GoesToDeepSeek(h, start, question))
    case _ => false
  }

  lemma {:induction false} IncomingStep(h: Heuristics, start: GraphState, question: string, c: Config, env: Env)
    requires Fresh(start) && question == PromptOf(start.prompt, start.messages)
    requires c.node in {Parse, RetrieveMemory, Classify, RetrieveKnowledge} && Incoming(h, start, question, c)
    ensures Incoming(h, start, question, Next(h, c, env))
  {
    hide Injected;
    if c.node == Classify {
      PromptAgain(start.prompt, start.messages);
    }
  }

  lemma {:induction false} PromptAgain(prompt: string, messages: seq<Message>)
    ensures var question := PromptOf(prompt, messages); PromptOf(question, messages) == question
  {
    if prompt != "" || messages == [] {
    } else {
      var n := |messages| - 1;
      if messages[n].role != "user" {
        PromptAgain(prompt, messages[..n]);
      }
    }
  }

  lemma {:induction false} IncomingHolds(h: Heuristics, run: seq<Config>, question: string, i: nat)
    requires IsRun(h, run) && Fresh(run[0].s) && question == PromptOf(run[0].s.prompt, run[0].s.messages)
    requires i < |run| && forall j :: 0 <= j < i ==> run[j].node !in {CallModel, HandleStatus}
    ensures Incoming(h, run[0].s, question, run[i])
  {
    if i == 0 {
    } else {
      IncomingHolds(h, run, question, i - 1);
      assert IsStep(h, run[i - 1], run[i]);
      var env :| run[i] == Next(h, run[i - 1], env);
      IncomingStep(h, run[0].s, question, run[i - 1], env);
    }
    hide Next, IsStatusQuery, GoesToDeepSeek, SameRequest, ModelRequest, Fresh, PromptOf, IsClassified;
  }

  /** In a run from a fresh request, the first call of the model or answer to a status query, in terms
      of the request alone. The status is reported exactly when no model is named by an alias and the
      question asks for it. DeepSeek is called exactly when it is named, or no model is and the question
      is a demanding one. */
  lemma {:induction false} FirstCall(h: Heuristics, run: seq<Config>) returns (question: string)
    requires IsRun(h, run) && Fresh(run[0].s)
    requires run[|run| - 1].node in {CallModel, HandleStatus}
    requires forall j :: 0 <= j < |run| - 1 ==> run[j].node !in {CallModel, HandleStatus}
    ensures var start, last := run[0].s, run[|run| - 1];
      && IsQuestion(start.prompt, start.messages, question) && SameRequest(start, last.s, question)
      && IsClassified(h, start, question, last.s.complexity)
      && (last.node == HandleStatus <==> IsStatusQuery(h, start, question))
      && (last.node == CallModel ==>
            && (ModelRequest(last.s).endpoint == DeepSeek <==> GoesToDeepSeek(h, start, question))
            && CarriesContext(
                 ModelRequest(last.s).messages,
                 if question != "" && start.messages == [] then [Message("user", question)] else start.messages,
                 last.s.memoryContext, last.s.codeContext))
  {
    var start, n := run[0].s, |run| - 1;
    question := PromptOf(start.prompt, start.messages);
    PromptIsQuestion(start.prompt, start.messages);
    IncomingHolds(h, run, question, n);
    RequestCarries(run[n].s);
    hide IsStatusQuery, GoesToDeepSeek, ModelRequest, Fresh, PromptOf, IsQuestion, IsRun, CarriesContext,
      IsClassified;
  }

  lemma {:induction false} RequestCarries(s: GraphState)
    ensures CarriesContext(
      ModelRequest(s).messages,
      if s.prompt != "" && s.messages == [] then [Message("user", s.prompt)] else s.messages,
      s.memoryContext, s.codeContext)
  {
    var conversation := if s.prompt != "" && s.messages == [] then [Message("user", s.prompt)] else s.messages;
    InjectedCarries(conversation, s.memoryContext, s.codeContext);
    hide CarriesContext, Injected;
  }

  /** Memory is retrieved first unless the question is a short greeting, and kept for the model call;
      without retrieval there is none. */
  lemma {:induction false} MemoryReachesModel(h: Heuristics, run: seq<Config>, i: nat) returns (question: string)
    requires IsRun(h, run) && Fresh(run[0].s) && 2 <= i < |run| && run[i].node == CallModel
    requires forall j :: 0 <= j < i ==> run[j].node !in {CallModel, HandleStatus}
    ensures IsQuestion(run[0].s.prompt, run[0].s.messages, question)
    ensures var text := h.lower(question);
      if h.greets(text) && |text| < 50 then run[1].node == Classify && run[i].s.memoryContext == ""
      else run[1].node == RetrieveMemory && run[i].s.memoryContext == run[2].s.memoryContext
  {
    question := PromptOf(run[0].s.prompt, run[0].s.messages);
    PromptIsQuestion(run[0].s.prompt, run[0].s.messages);
    assert IsStep(h, run[0], run[1]);
    var first: Env :| run[1] == Next(h, run[0], first);
    if run[1].node == RetrieveMemory {
      assert IsStep(h, run[1], run[2]);
      var second: Env :| run[2] == Next(h, run[1], second);
      MemoryIsKept(h, run, 2, i);
    } else {
      MemoryIsKept(h, run, 1, i);
    }
  }

  lemma {:induction false} KeepsMemory(h: Heuristics, c: Config, env: Env)
    requires c.node !in {Parse, RetrieveMemory, End}
    ensures var d := Next(h, c, env);
      d.node !in {Parse, RetrieveMemory} && d.s.memoryContext == c.s.memoryContext
  {
    hide PromptOf, EstimateComplexity, Alias;
  }

  lemma {:induction false} MemoryIsKept(h: Heuristics, run: seq<Config>, i: nat, j: nat)
    requires IsRun(h, run) && i <= j < |run| && run[i].node !in {Parse, RetrieveMemory}
    ensures run[j].node !in {Parse, RetrieveMemory} && run[j].s.memoryContext == run[i].s.memoryContext
    decreases j
  {
    if i == j {
    } else {
      MemoryIsKept(h, run, i, j - 1);
      assert IsStep(h, run[j - 1], run[j]);
      var env :| run[j] == Next(h, run[j - 1], env);
      KeepsMemory(h, run[j - 1], env);
      hide Next;
    }
  }

  /** Code is looked up exactly for tasks that need tools and mention code, and nothing stands in its
      place otherwise. */
  lemma {:induction false} CodeForTools(h: Heuristics, run: seq<Config>, i: nat) returns (question: string)
    requires IsRun(h, run) && Fresh(run[0].s) && i < |run| && run[i].node == RetrieveKnowledge
    requires forall j :: 0 <= j < i ==> run[j].node !in {CallModel, HandleStatus}
    ensures IsQuestion(run[0].s.prompt, run[0].s.messages, question)
    ensures var wanted := NeedsTools(h, run[0].s, question) && h.mentionsCode(h.lower(question));
      forall env :: Next(h, run[i], env).s.codeContext == (if wanted then env.knowledge else "")
  {
    question := PromptOf(run[0].s.prompt, run[0].s.messages);
    PromptIsQuestion(run[0].s.prompt, run[0].s.messages);
    IncomingHolds(h, run, question, i);
    hide NeedsTools, GoesToDeepSeek, PromptOf, IsQuestion;
  }

  lemma {:induction false} LargeTasksAreVerified(s: GraphState)
    requires s.complexity.Some?
    ensures ShouldVerify(s) <==> ModelRequest(s).endpoint == DeepSeek && s.error == "" && s.response != ""
  {
    hide Injected;
    match s.complexity.value
    case Trivial =>
    case Routine =>
    case Complex => assert s.complexity == Some(Complex);
    case ToolHeavy => assert s.complexity == Some(ToolHeavy);
  }

  lemma {:induction false} AnswerVerified(h: Heuristics, c: Config, env: Env, next: Env)
    requires c.node == CallModel && c.s.error == "" && c.s.complexity.Some?
    ensures var d := Next(h, c, env);
      && d.node == StoreMemory && (Stores(d.s) <==> Next(h, d, next).node == Metacog)
      && (Stores(d.s) <==> ModelRequest(c.s).endpoint == DeepSeek && env.answer.Text? && env.answer.text != "")
  {
    LargeTasksAreVerified(Next(h, c, env).s);
    RequestIsKept(h, c, env);
    hide ModelRequest;
  }

  /** The first answer of a run from a fresh request is stored and verified exactly if the request goes
      to the large model and the answer is a text that is not empty. */
  lemma {:induction false} FirstAnswerVerifiedIff(h: Heuristics, run: seq<Config>, i: nat, env: Env)
    returns (question: string)
    requires IsRun(h, run) && Fresh(run[0].s) && i + 2 < |run|
    requires run[i].node == CallModel && run[i + 1] == Next(h, run[i], env)
    requires forall j :: 0 <= j < i ==> run[j].node !in {CallModel, HandleStatus}
    ensures IsQuestion(run[0].s.prompt, run[0].s.messages, question)
    ensures run[i + 2].node == Metacog <==>
      GoesToDeepSeek(h, run[0].s, question) && env.answer.Text? && env.answer.text != ""
    ensures Stores(run[i + 1].s) <==> run[i + 2].node == Metacog
  {
    question := FirstCall(h, run[..i + 1]);
    assert IsStep(h, run[i + 1], run[i + 2]);
    var next: Env :| run[i + 2] == Next(h, run[i + 1], next);
    NoErrorBefore(h, run[..i + 1]);
    AnswerVerified(h, run[i], env, next);
    hide *;
  }

  lemma {:induction false} NoErrorBefore(h: Heuristics, run: seq<Config>)
    requires IsRun(h, run) && Fresh(run[0].s) && run[|run| - 1].node == CallModel
    ensures run[|run| - 1].s.error == "" && run[|run| - 1].s.complexity.Some?
  {
    InvariantHolds(h, run);
  }

  // ----- what is answered -----------------------------------------------

  /** The outcome of a verification: the gates are tried in this order, and the verdict names the first
      one that fails. */
  ghost predicate IsVerdict(h: Heuristics, response: string, prompt: string, gate: string) {
    && (gate == "" <==>
          !h.hallucinates(response) && !h.incomplete(response) && !h.tooShort(response)
          && !h.incoherent(response, prompt))
    && (gate == "hallucination" <==> h.hallucinates(response))
    && (gate == "incomplete" <==> !h.hallucinates(response) && h.incomplete(response))
    && (gate == "too_short" <==> !h.hallucinates(response) && !h.incomplete(response) && h.tooShort(response))
    && gate in {"", "hallucination", "incomplete", "too_short", "incoherent"}
  }

  /** Every verification of any run: passed without a verdict of failure exactly if no gate fails;
      otherwise the first failing gate is named, and the answer rejected while retries are left. */
  lemma {:induction false} VerdictNamesGate(h: Heuristics, run: seq<Config>, i: nat) returns (gate: string)
    requires IsRun(h, run) && i + 1 < |run| && run[i].node == Metacog
    ensures var s, t := run[i].s, run[i + 1].s;
      && IsVerdict(h, s.response, s.prompt, gate)
      && (gate == "" ==> t.verdict == "passed_all_gates" && t.metacogPassed == Some(true))
      && (gate != "" && RetryCount(s) < 2 ==>
            t.verdict == "failed:" + gate && t.metacogPassed == Some(false) && RetryCount(t) == RetryCount(s) + 1)
      && (gate != "" && RetryCount(s) >= 2 ==>
            t.verdict == "passed_after_max_retries:" + gate && t.metacogPassed == Some(true))
  {
    var s := run[i].s;
    assert IsStep(h, run[i - 1], run[i]);
    var before: Env :| run[i] == Next(h, run[i - 1], before);
    assert ShouldVerify(s);
    assert IsStep(h, run[i], run[i + 1]);
    var env: Env :| run[i + 1] == Next(h, run[i], env);
    gate := if FailedGate(h, s).Some? then FailedGate(h, s).value else "";
  }

  lemma {:induction false} AnswerIsKept(h: Heuristics, run: seq<Config>, i: nat, j: nat)
    requires IsRun(h, run) && i <= j < |run| && run[i].node == StoreMemory
    requires forall k :: i <= k < j ==> run[k].node != CallModel
    ensures run[j].node in {StoreMemory, Metacog, CallModel, Finalize, End}
    ensures run[j].s.response == run[i].s.response && run[j].s.error == run[i].s.error
    decreases j
  {
    if i == j {
    } else {
      AnswerIsKept(h, run, i, j - 1);
      assert IsStep(h, run[j - 1], run[j]);
      var env :| run[j] == Next(h, run[j - 1], env);
    }
  }

  /** What a finished run answers with is what its last model call brought, or the status. */
  lemma {:induction false} LastAnswerCounts(h: Heuristics, run: seq<Config>, i: nat, env: Env)
    requires IsRun(h, run) && run[|run| - 1].node == End && i + 1 < |run|
    requires run[i].node in {CallModel, HandleStatus} && run[i + 1] == Next(h, run[i], env)
    requires forall j :: i < j < |run| ==> run[j].node != CallModel
    ensures var last := run[|run| - 1].s;
      if run[i].node == HandleStatus then last.response == env.status && last.error == run[i].s.error
      else
        match env.answer
        case Text(text) => last.response == text && last.error == run[i].s.error
        case TimedOut(detail) => last.response == "" && last.error == "Model timeout after " + detail
        case BadStatus(detail) => last.response == "" && last.error == "Model HTTP error " + detail
        case Failure(detail) => last.response == "" && last.error == "Model call failed: " + detail
  {
    AnswerIsKept(h, run, i + 1, |run| - 1);
  }

  // ----- every run reaches END ------------------------------------------

  /** The configuration a run ends in when node number `k` meets the services' answers `envs(k)`. */
  ghost function Execute(h: Heuristics, c: Config, envs: nat -> Env, k: nat): (last: Config)
    ensures last.node == End
    decreases Remaining(c)
  {
    if c.node == End then c
    else
      StepDecreases(h, c, envs(k));
      Execute(h, Next(h, c, envs(k)), envs, k + 1)
  }

  lemma {:induction false} Extend(h: Heuristics, run: seq<Config>, env: Env) returns (longer: seq<Config>)
    requires IsRun(h, run) && run[|run| - 1].node != End
    ensures IsRun(h, longer) && |longer| == |run| + 1 && longer[0] == run[0]
    ensures longer[|run|] == Next(h, run[|run| - 1], env)
    ensures Executions(longer, CallModel) ==
      Executions(run, CallModel) + (if run[|run| - 1].node == CallModel then 1 else 0)
  {
    longer := run + [Next(h, run[|run| - 1], env)];
    assert IsStep(h, run[|run| - 1], longer[|run|]);
    assert longer[..|run|] == run;
  }

  /** A complex task is about to call the model, with so many retries counted. */
  ghost predicate AboutToCall(c: Config, retries: int) {
    c.node == CallModel && c.s.complexity == Some(Complex) && c.s.error == "" && RetryCount(c.s) == retries
  }

  /** One attempt that fails a gate: a model call, a store and a verification. */
  lemma {:induction false} FailedAttempt(h: Heuristics, run: seq<Config>, env: Env, r: int)
    returns (longer: seq<Config>)
    requires IsRun(h, run) && AboutToCall(run[|run| - 1], r)
    requires env.answer.Text? && env.answer.text != "" && h.hallucinates(env.answer.text)
    ensures IsRun(h, longer) && |longer| == |run| + 3 && longer[0] == run[0]
    ensures Executions(longer, CallModel) == Executions(run, CallModel) + 1
    ensures var d := longer[|longer| - 1];
      if r < 1 then AboutToCall(d, r + 1) else d.node == Finalize && (d.s.metacogPassed == Some(false) <==> r == 1)
  {
    longer := Extend(h, run, env);
    longer := Extend(h, longer, env);
    longer := Extend(h, longer, env);
    hide IsRun, Executions;
  }

  /** All attempts that are still allowed. */
  lemma {:induction false} FailedAttempts(h: Heuristics, run: seq<Config>, env: Env, r: int)
    returns (longer: seq<Config>)
    requires IsRun(h, run) && AboutToCall(run[|run| - 1], r)
    requires env.answer.Text? && env.answer.text != "" && h.hallucinates(env.answer.text)
    ensures IsRun(h, longer) && |longer| == |run| + 3 * Max(1, 2 - r) && longer[0] == run[0]
    ensures Executions(longer, CallModel) == Executions(run, CallModel) + Max(1, 2 - r)
    ensures var d := longer[|longer| - 1];
      d.node == Finalize && (d.s.metacogPassed == Some(false) <==> r <= 1)
    decreases Max(0, 2 - r)
  {
    hide IsRun, Executions, AboutToCall, RetryCount;
    longer := FailedAttempt(h, run, env, r);
    if r < 1 {
      longer := FailedAttempts(h, longer, env, r + 1);
    }
  }

  /** The run of a complex task up to its first model call. */
  lemma {:induction false} Opening(h: Heuristics, s: GraphState, env: Env) returns (run: seq<Config>)
    requires Fresh(s.(retryCount := None)) && s.prompt != "" && s.model == ""
    requires ShouldUseMemory(h, s) && !h.asksStatus(h.lower(s.prompt)) && EstimateComplexity(h, s, s.prompt) == Complex
    ensures IsRun(h, run) && |run| == 5 && run[0] == Config(Parse, s) && Executions(run, CallModel) == 0
    ensures AboutToCall(run[4], RetryCount(s))
  {
    run := [Config(Parse, s)];
    run := Extend(h, run, env);
    run := Extend(h, run, env);
    run := Extend(h, run, env);
    run := Extend(h, run, env);
    hide IsRun, Executions;
  }

  /** The bounds are met from every initial retry count: when every answer of a complex task fails a
      gate, the run executes `5 + 3 * max(1, 2 - r)` nodes, `max(1, 2 - r)` of them model calls, and
      ends unverified unless it began with the retries exhausted. */
  lemma {:induction false} BoundsAreTight(h: Heuristics, s: GraphState, env: Env) returns (run: seq<Config>)
    requires Fresh(s.(retryCount := None)) && s.prompt != "" && s.model == ""
    requires ShouldUseMemory(h, s) && !h.asksStatus(h.lower(s.prompt)) && EstimateComplexity(h, s, s.prompt) == Complex
    requires env.answer.Text? && env.answer.text != "" && h.hallucinates(env.answer.text)
    ensures IsRun(h, run) && run[0] == Config(Parse, s) && run[|run| - 1].node == End
    ensures |run| - 1 == 5 + 3 * Max(1, 2 - RetryCount(s)) && Executions(run, CallModel) == Max(1, 2 - RetryCount(s))
    ensures run[|run| - 1].s.metacogPassed == Some(false) <==> RetryCount(s) <= 1
  {
    run := Opening(h, s, env);
    run := FailedAttempts(h, run, env, RetryCount(s));
    run := Extend(h, run, env);
    hide IsRun, Executions, EstimateComplexity, Max;
  }

  // ----- the streaming entry point --------------------------------------

  function InitialState(prompt: string, messages: seq<Message>, model: string): (s: GraphState)
    ensures Fresh(s) && s.prompt == prompt && s.messages == messages && s.model == model
  {
    GraphState(prompt, messages, model, false, None, false, "", "", "", "", None, "", None)
  }

  ghost predicate Toolless(s: GraphState) {
    !s.requiresTools && s.complexity != Some(ToolHeavy) && s.codeContext == ""
  }

  lemma {:induction false} StaysToolless(h: Heuristics, c: Config, env: Env)
    requires c.node != End && Toolless(c.s)
    ensures Toolless(Next(h, c, env).s)
  {
  }

  /** Neither entry point asks for tools, so from their states no task is ever tool-heavy and no code
      context is ever retrieved. */
  lemma {:induction false} NoToolTasks(h: Heuristics, run: seq<Config>, prompt: string, messages: seq<Message>,
        model: string)
    requires IsRun(h, run) && run[0].s == InitialState(prompt, messages, model)
    ensures Toolless(run[|run| - 1].s)
  {
    if |run| == 1 {
    } else {
      var n := |run| - 1;
      NoToolTasks(h, run[..n], prompt, messages, model);
      assert IsStep(h, run[n - 1], run[n]);
      var env :| run[n] == Next(h, run[n - 1], env);
      StaysToolless(h, run[n - 1], env);
      hide Toolless, Next;
    }
  }

  /** Where the graph stands when it is about to call the model or answer a status query. */
  ghost function Intake(h: Heuristics, c: Config, env: Env): (d: Config)
    requires c.node in {Parse, RetrieveMemory, Classify, RetrieveKnowledge, HandleStatus, CallModel}
    ensures d.node in {HandleStatus, CallModel}
    decreases Remaining(c)
  {
    if c.node in {HandleStatus, CallModel} then c
    else
      StepDecreases(h, c, env);
      Intake(h, Next(h, c, env), env)
  }

  lemma {:induction false} IntakeIncoming(h: Heuristics, start: GraphState, question: string, c: Config, env: Env)
    requires Fresh(start) && question == PromptOf(start.prompt, start.messages)
    requires c.node in {Parse, RetrieveMemory, Classify, RetrieveKnowledge, HandleStatus, CallModel}
    requires Incoming(h, start, question, c)
    ensures Incoming(h, start, question, Intake(h, c, env))
    decreases Remaining(c)
  {
    hide Incoming, PromptOf, Fresh, Next;
    if c.node in {HandleStatus, CallModel} {
    } else {
      StepDecreases(h, c, env);
      IncomingStep(h, start, question, c, env);
      StaysBeforeAnswer(h, c, env);
      IntakeIncoming(h, start, question, Next(h, c, env), env);
    }
  }

  lemma {:induction false} StaysBeforeAnswer(h: Heuristics, c: Config, env: Env)
    requires c.node in {Parse, RetrieveMemory, Classify, RetrieveKnowledge}
    ensures Next(h, c, env).node in {RetrieveMemory, Classify, RetrieveKnowledge, HandleStatus, CallModel}
  {
  }

  /** A request is sent exactly if the question is no status query, and to the model it goes to. */
  ghost predicate IsCalledFor(h: Heuristics, s: GraphState, sent: Option<Request>) {
    exists question ::
      && IsQuestion(s.prompt, s.messages, question)
      && (sent.None? <==> IsStatusQuery(h, s, question))
      && (sent.Some? ==> (sent.value.endpoint == DeepSeek <==> GoesToDeepSeek(h, s, question)))
  }

  /** What `stream_graph` makes of a request is what a run makes of it up to the first call. */
  lemma {:induction false} StreamedRequest(h: Heuristics, prompt: string, messages: seq<Message>, model: string,
        env: Env) returns (question: string)
    ensures var start := InitialState(prompt, messages, model);
      var c := Intake(h, Config(Parse, start), env);
      && IsQuestion(prompt, messages, question)
      && (c.node == HandleStatus <==> IsStatusQuery(h, start, question))
      && (c.node == CallModel ==>
            (ModelRequest(c.s).endpoint == DeepSeek <==> GoesToDeepSeek(h, start, question)))
  {
    var start := InitialState(prompt, messages, model);
    question := PromptOf(prompt, messages);
    PromptIsQuestion(prompt, messages);
    IntakeIncoming(h, start, question, Config(Parse, start), env);
    hide Intake, PromptOf, IsQuestion, IsStatusQuery, GoesToDeepSeek, ModelRequest, SameRequest;
  }

  /** The lines of the model's answer that are not empty, each ended. */
  function Relayed(answer: seq<string>): (lines: seq<string>)
    ensures |lines| == |SseReaders.NonBlank(answer)|
    ensures forall k :: 0 <= k < |lines| ==> lines[k] == SseReaders.NonBlank(answer)[k] + "\n"
  {
    var kept := SseReaders.NonBlank(answer);
    seq(|kept|, k requires 0 <= k < |kept| => kept[k] + "\n")
  }

  /** `stream_model_response`, given the lines the model's server answers with. */
  method StreamModelResponse(answer: seq<string>) returns (lines: seq<string>)
    ensures lines == Relayed(answer)
  {
    lines := [];
    for k := 0 to |answer|
      invariant lines == Relayed(answer[..k])
    {
      assert answer[..k + 1][..k] == answer[..k];
      if answer[k] != "" {
        lines := lines + [answer[k] + "\n"];
      }
    }
    assert answer[..|answer|] == answer;
  }

  /** `stream_graph` runs the nodes by hand. It sends the model exactly what the graph would send and
      relays the answer line by line, answers status queries itself, and, since the streamed text
      never enters its state, the final `store_memory` call never stores anything. `None` as the
      answer stands for an HTTP error, which it does not catch. */
  method StreamGraph(h: Heuristics, prompt: string, messages: seq<Message>, model: string, env: Env,
        answer: Option<seq<string>>)
    returns (sent: Option<Request>, lines: seq<string>, raised: bool, stored: bool)
    ensures var c := Intake(h, Config(Parse, InitialState(prompt, messages, model)), env);
      if c.node == CallModel then
        && sent == Some(ModelRequest(c.s)) && raised == answer.None?
        && lines == (if answer.Some? then Relayed(answer.value) else [])
      else sent == None && !raised && lines == ["data: " + env.status + "\n\n", "data: [DONE]\n\n"]
    ensures IsCalledFor(h, InitialState(prompt, messages, model), sent)
    ensures !stored
  {
    ghost var question := StreamedRequest(h, prompt, messages, model, env);
    hide IsQuestion, IsStatusQuery, GoesToDeepSeek, Injected;
    var state := InitialState(prompt, messages, model);
    ghost var start := Config(Parse, state);
    state := ParseRequest(state);
    if ShouldUseMemory(h, state) {
      state := RetrieveMemoryNode(state, env);
    }
    ghost var classify := Config(Classify, state);
    assert Intake(h, start, env) == Intake(h, classify, env);
    ghost var classified := Next(h, classify, env);
    assert Intake(h, classify, env) == Intake(h, classified, env);
    state := ClassifyNode(h, state);
    raised := false;
    if state.isStatusQuery {
      lines := ["data: " + env.status + "\n\n", "data: [DONE]\n\n"];
      sent := None;
      stored := Stores(state);
      return;
    }
    state := RetrieveKnowledgeNode(h, state, env);
    assert Intake(h, classified, env) == Next(h, classified, env) == Config(CallModel, state);
    sent := Some(ModelRequest(state));
    if answer.None? {
      return sent, [], true, false;
    }
    lines := StreamModelResponse(answer.value);
    stored := Stores(state);
  }
}
