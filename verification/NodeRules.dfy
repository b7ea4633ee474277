/**
  What each node type does with its collected inputs: fail, finish with a value, or call the outside world
  (the execute functions of internal/core/workflow, without the graph traversal).
  */
module NodeRules {
  import opened Outcomes
  import opened WorkflowModel
  import opened TimeSchedule
  import opened Text

  /** collectedWorkflowInputs */
  datatype Inputs = Inputs(prompts: seq<string>, texts: seq<string>, searches: seq<string>, items: seq<Item>,
                           triggers: nat, blocked: nat, blockedByTimer: nat, blockedByWindow: nat)
  {
    predicate HasActiveContent() {
      prompts != [] || texts != [] || searches != [] || items != [] || triggers > 0
    }

    predicate OnlyBlocked() { blocked > 0 && !HasActiveContent() }

    predicate OnlyBlockedByTimer() { OnlyBlocked() && blocked == blockedByTimer }

    predicate HasBlockingWindow() { blockedByWindow > 0 }
  }

  const NO_INPUTS := Inputs([], [], [], [], 0, 0, 0, 0)

  function Accumulate(inputs: Inputs, value: Value): Inputs {
    Inputs(
      if value.prompt != "" then inputs.prompts + [value.prompt] else inputs.prompts,
      if value.text != "" then inputs.texts + [value.text] else inputs.texts,
      if value.search.Some? then inputs.searches + [value.search.value] else inputs.searches,
      inputs.items + value.items,
      inputs.triggers + (if value.triggered then 1 else 0),
      inputs.blocked + (if value.blocked then 1 else 0),
      inputs.blockedByTimer + (if value.blocked && value.blockedByTimer then 1 else 0),
      inputs.blockedByWindow + (if value.blocked && value.blockedByWindow then 1 else 0))
  }

  /** The input handles a node type collects, in the order it collects them; "" stands for every handle. */
  function Handles(kind: Kind): seq<string> {
    match kind
    case TextBlock(_) => ["text"]
    case Llm(_) => ["prompt", "context", "search"]
    case Rss(_) => ["trigger"]
    case Weather(_) => ["trigger"]
    case StateIs(_) => [""]
    case TimeWindow(_) => [""]
    case WeCom(_) => [""]
    case Command(_) => [""]
    case AgentFunction(_) => [""]
    case _ => []
  }

  function IncomingByHandle(edges: seq<Edge>, nodeID: string, handle: string): seq<Edge> {
    if edges == [] then []
    else
      var rest := IncomingByHandle(edges[1..], nodeID, handle);
      if edges[0].target == nodeID
         && (TrimSpace(handle) == "" || TrimSpace(edges[0].targetHandle) == TrimSpace(handle))
      then [edges[0]] + rest else rest
  }

  function Incoming(env: Env, nodeID: string, handle: string): seq<Edge> {
    IncomingByHandle(env.workflow.edges, nodeID, handle)
  }

  /** What the rule of a node decides once its inputs are known. */
  datatype Decision = Fail(error: Error) | Done(value: Value) | Ask(call: Call)

  /** The checks a node makes before it looks at any input. */
  function PreCheck(env: Env, kind: Kind): Option<Error> {
    match kind
    case Group => None
    case Timer(config) => if config.None? then Some(BadData) else None
    case StateChanged(decodes) => if !decodes then Some(BadData) else None
    case StateIs(config) =>
      if !env.hasDevices then Some(RuntimeMissing) else if config.None? then Some(BadData) else None
    case TimeWindow(config) => if config.None? then Some(BadData) else None
    case Rss(decodes) => if !decodes then Some(BadData) else None
    case Weather(decodes) => if !decodes then Some(BadData) else None
    case TextBlock(config) => if config.None? then Some(BadData) else None
    case SearchProvider(config) => if config.None? then Some(BadData) else None
    case Llm(config) => if config.None? then Some(BadData) else None
    case WeCom(config) =>
      if config.None? then Some(BadData) else if !env.hasOutput then Some(RuntimeMissing) else None
    case Command(_) => if !env.hasDevices then Some(RuntimeMissing) else None
    case AgentFunction(_) => if !env.hasInput then Some(RuntimeMissing) else None
    case UnsupportedKind => Some(UnsupportedType)
  }

  function NormalizeTimer(config: TimerConfig): Option<Spec> {
    Normalize(Spec(config.schedule, config.at, At(0), At(0), config.intervalSeconds, config.zone))
  }

  function TimerRule(env: Env, id: string, config: TimerConfig): Decision {
    if NormalizeTimer(config).None? then Fail(BadInput)
    else Done(EMPTY_VALUE.(triggered := id in env.options.triggered))
  }

  function StateChangedRule(env: Env, id: string): Decision {
    if id !in env.options.triggered then Done(BlockedValue(false, false))
    else if id !in env.options.matchedEvents then Done(BlockedValue(false, false))
    else Done(EMPTY_VALUE.(triggered := true, text := env.options.matchedEvents[id]))
  }

  function StateIsRule(env: Env, id: string, config: StateIsConfig, inputs: Inputs): Decision {
    var gated := Incoming(env, id, "") != [];
    if gated && inputs.HasBlockingWindow() then Done(BlockedValue(false, true))
    else if gated && !inputs.HasActiveContent() then Done(BlockedValue(inputs.blockedByTimer > 0, false))
    else if TrimSpace(config.deviceID) == "" || TrimSpace(config.stateKey) == "" then Fail(BadInput)
    else Ask(ReadDevice(TrimSpace(config.deviceID)))
  }

  function StateIsFinish(config: StateIsConfig, inputs: Inputs, reply: Reply): Result<Value, Error> {
    if !reply.ok then Err(CallFailed)
    else if !config.matcherValid then Err(BadInput)
    else if !reply.matched then Ok(BlockedValue(false, false))
    else
      var matched := "Device " + TrimSpace(config.deviceID) + " state " + TrimSpace(config.stateKey) + " matched";
      Ok(EMPTY_VALUE.(triggered := true, text := Join(OrderedStrings(inputs.texts) + [matched], "\n\n")))
  }

  /** The window test: no bounds means always open, one bound is an error. */
  function WindowMatches(now: int, window: WindowConfig): Result<bool, Error> {
    if window.start.Blank? && window.end.Blank? then Ok(true)
    else if !window.start.At? || !window.end.At? || window.zone.UnknownZone? then Err(BadInput)
    else Ok(MinutesInWindow(LocalMinute(now + window.zone.ns), window.start.minutes, window.end.minutes))
  }

  /** Both bounds are blank, or both are clocks and the zone is known. */
  predicate WindowIsReadable(window: WindowConfig) {
    || (window.start.Blank? && window.end.Blank?)
    || (window.start.At? && window.end.At? && window.zone.Offset?)
  }

  /** The window has no bounds, or the instant lies in one of its intervals of real time. */
  ghost predicate WindowHolds(now: int, window: WindowConfig) {
    || (window.start.Blank? && window.end.Blank?)
    || (window.start.At? && window.end.At? && window.zone.Offset?
        && OpenAt(now, window.zone.ns, window.start.minutes, window.end.minutes))
  }

  /** The window test of the code reads exactly the readable windows and holds exactly inside them. */
  lemma WindowMatchesIff(now: int, window: WindowConfig)
    ensures WindowMatches(now, window).Ok? <==> WindowIsReadable(window)
    ensures WindowMatches(now, window).Err? ==> WindowMatches(now, window).error == BadInput
    ensures WindowMatches(now, window) == Ok(true) <==> WindowHolds(now, window)
  {
    if window.start.At? && window.end.At? && window.zone.Offset? {
      MinutesInWindowIff(now, window.zone.ns, window.start.minutes, window.end.minutes);
    }
  }

  function WindowAt(env: Env, id: string, config: WindowConfig, inputs: Inputs, now: int): Result<Value, Error> {
    var gated := Incoming(env, id, "") != [];
    match WindowMatches(now, config)
    case Err(e) => Err(e)
    case Ok(matched) =>
      if !matched then Ok(BlockedValue(false, true))
      else if gated && !inputs.HasActiveContent() then Ok(BlockedValue(inputs.blockedByTimer > 0, false))
      else if gated then Ok(EMPTY_VALUE.(triggered := true, text := JoinOrdered(inputs.texts)))
      else Ok(EMPTY_VALUE)
  }

  /** The instant a run takes as now: the claim time, else the event time; None means the clock is read. */
  function RunTime(options: RunOptions): Option<int> {
    if options.triggeredAt.Some? && options.triggeredAt.value != ZERO_TIME then options.triggeredAt
    else if options.eventAt.Some? && options.eventAt.value != ZERO_TIME then options.eventAt
    else None
  }

  /** The run goes by this instant: that of its trigger, or without one that of its event. */
  predicate RunsAt(options: RunOptions, now: int) {
    && now != ZERO_TIME
    && (options.triggeredAt == Some(now)
        || (options.triggeredAt in {None, Some(ZERO_TIME)} && options.eventAt == Some(now)))
  }

  /** The run goes by no instant and reads the clock. */
  predicate RunsByClock(options: RunOptions) {
    options.triggeredAt in {None, Some(ZERO_TIME)} && options.eventAt in {None, Some(ZERO_TIME)}
  }

  lemma RunTimeIff(options: RunOptions, now: int)
    ensures RunTime(options) == Some(now) <==> RunsAt(options, now)
    ensures RunTime(options) == None <==> RunsByClock(options)
  {
  }

  function WindowRule(env: Env, id: string, config: WindowConfig, inputs: Inputs): Decision {
    match RunTime(env.options)
    case None => Ask(ReadClock)
    case Some(now) =>
      match WindowAt(env, id, config, inputs, now)
      case Ok(value) => Done(value)
      case Err(e) => Fail(e)
  }

  function RssRule(env: Env, id: string, inputs: Inputs): Decision {
    var gated := Incoming(env, id, "trigger") != [];
    if gated && inputs.HasBlockingWindow() then Done(BlockedValue(false, true))
    else if gated && inputs.triggers == 0 then Done(BlockedValue(true, false))
    else Ask(PollFeeds)
  }

  function RssFinish(reply: Reply): Value {
    if reply.items == [] then BlockedValue(false, false)
    else EMPTY_VALUE.(text := reply.text, items := reply.items)
  }

  function WeatherRule(env: Env, id: string, inputs: Inputs): Decision {
    var gated := Incoming(env, id, "trigger") != [];
    if gated && inputs.HasBlockingWindow() then Done(BlockedValue(false, true))
    else if gated && inputs.triggers == 0 && inputs.OnlyBlockedByTimer() then Done(BlockedValue(true, false))
    else if gated && !inputs.HasActiveContent() then Done(BlockedValue(false, false))
    else Ask(FetchWeather)
  }

  function TextRule(config: TextConfig, inputs: Inputs): Decision {
    var text := JoinOrdered(inputs.texts + [FirstNonEmpty(config.text, config.prompt)]);
    if inputs.HasBlockingWindow() then Done(BlockedValue(false, true))
    else if text == "" then
      if inputs.OnlyBlockedByTimer() then Done(BlockedValue(true, false))
      else if inputs.OnlyBlocked() then Done(BlockedValue(false, false))
      else Fail(BadInput)
    else Done(EMPTY_VALUE.(prompt := text, text := text, items := inputs.items))
  }

  function SearchRule(config: SearchConfig): Decision {
    if TrimSpace(config.query) == "" then Fail(BadInput) else Ask(RunSearch(TrimSpace(config.query)))
  }

  /** The non-blank texts of the prompt inputs that are not prompts themselves. */
  function ExtraContext(texts: seq<string>, prompts: set<string>): seq<string> {
    if texts == [] then []
    else
      var head := TrimSpace(texts[0]);
      (if head == "" || head in prompts then [] else [head]) + ExtraContext(texts[1..], prompts)
  }

  function Section(title: string, body: string): seq<string> {
    if TrimSpace(body) == "" then [] else [title + TrimSpace(body)]
  }

  function LlmPrompt(config: LlmConfig, prompt: Inputs, context: Inputs, search: Inputs): string {
    var prompts := set s | s in OrderedStrings(prompt.prompts);
    Join(Section("Workflow Input:\n", JoinOrdered(context.texts + ExtraContext(prompt.texts, prompts)))
         + Section("Search Results:\n", JoinOrdered(search.searches))
         + Section("Text Blocks:\n", JoinOrdered(prompt.prompts))
         + Section("User Prompt:\n", TrimSpace(config.userPrompt)), "\n\n")
  }

  function LlmRule(env: Env, id: string, config: LlmConfig, prompt: Inputs, context: Inputs, search: Inputs): Decision {
    var promptEdges, contextEdges := Incoming(env, id, "prompt"), Incoming(env, id, "context");
    if prompt.HasBlockingWindow() || context.HasBlockingWindow() || search.HasBlockingWindow() then
      Done(BlockedValue(false, true))
    else if Incoming(env, id, "tool") != [] || Incoming(env, id, "skill") != [] then Fail(ReservedHandle)
    else if contextEdges != [] && context.OnlyBlockedByTimer() then Done(BlockedValue(true, false))
    else if contextEdges != [] && context.OnlyBlocked() then Done(BlockedValue(false, false))
    else if contextEdges == [] && promptEdges != [] && prompt.OnlyBlockedByTimer() then Done(BlockedValue(true, false))
    else if contextEdges == [] && promptEdges != [] && prompt.OnlyBlocked() then Done(BlockedValue(false, false))
    else
      var finalPrompt := LlmPrompt(config, prompt, context, search);
      if TrimSpace(finalPrompt) == "" then Fail(BadInput)
      else Ask(GenerateText(TrimSpace(config.providerID), finalPrompt))
  }

  function WeComRule(config: WeComConfig, inputs: Inputs): Decision {
    var text := JoinOrdered(inputs.texts);
    if inputs.HasBlockingWindow() then Done(BlockedValue(false, true))
    else if TrimSpace(text) == "" then
      if inputs.OnlyBlockedByTimer() then Done(BlockedValue(true, false))
      else if inputs.OnlyBlocked() then Done(BlockedValue(false, false))
      else Fail(BadInput)
    else if TrimSpace(config.toUser) == "" then Fail(BadInput)
    else Ask(SendWeCom(TrimSpace(config.toUser), text))
  }

  function ShouldBlockExecution(incoming: seq<Edge>, inputs: Inputs): bool {
    incoming != [] && (inputs.HasBlockingWindow() || !inputs.HasActiveContent())
  }

  function BlockedExecution(inputs: Inputs): Decision {
    Done(BlockedValue(inputs.blockedByTimer > 0, inputs.blockedByWindow > 0))
  }

  function CommandRule(env: Env, id: string, config: Option<CommandConfig>, inputs: Inputs): Decision {
    if ShouldBlockExecution(Incoming(env, id, ""), inputs) then BlockedExecution(inputs)
    else if config.None? then Fail(BadData)
    else if TrimSpace(config.value.deviceID) == "" || TrimSpace(config.value.action) == "" then Fail(BadInput)
    else Ask(RunCommand(TrimSpace(config.value.deviceID), TrimSpace(config.value.action), JoinOrdered(inputs.texts)))
  }

  function AgentRule(env: Env, id: string, config: Option<AgentConfig>, inputs: Inputs): Decision {
    if ShouldBlockExecution(Incoming(env, id, ""), inputs) then BlockedExecution(inputs)
    else if config.None? then Fail(BadData)
    else
      var own := TrimSpace(config.value.input);
      var input := if own == "" then JoinOrdered(inputs.prompts + inputs.texts) else own;
      if input == "" then Fail(BadInput) else Ask(CallAgent(input))
  }

  /** The decision of a node on its inputs, one per handle of its type. */
  function Decide(env: Env, node: Node, inputs: seq<Inputs>): Decision
    requires |inputs| == |Handles(node.kind)| && PreCheck(env, node.kind).None?
  {
    match node.kind
    case Group => Done(EMPTY_VALUE)
    case Timer(config) => TimerRule(env, node.id, config.value)
    case StateChanged(_) => StateChangedRule(env, node.id)
    case StateIs(config) => StateIsRule(env, node.id, config.value, inputs[0])
    case TimeWindow(config) => WindowRule(env, node.id, config.value, inputs[0])
    case Rss(_) => RssRule(env, node.id, inputs[0])
    case Weather(_) => WeatherRule(env, node.id, inputs[0])
    case TextBlock(config) => TextRule(config.value, inputs[0])
    case SearchProvider(config) => SearchRule(config.value)
    case Llm(config) => LlmRule(env, node.id, config.value, inputs[0], inputs[1], inputs[2])
    case WeCom(config) => WeComRule(config.value, inputs[0])
    case Command(config) => CommandRule(env, node.id, config, inputs[0])
    case AgentFunction(config) => AgentRule(env, node.id, config, inputs[0])
  }

  /** What a node makes of the reply to its call. */
  function Finish(env: Env, node: Node, inputs: seq<Inputs>, reply: Reply): Result<Value, Error>
    requires |inputs| == |Handles(node.kind)| && PreCheck(env, node.kind).None?
    requires Decide(env, node, inputs).Ask?
  {
    match node.kind
    case StateIs(config) => StateIsFinish(config.value, inputs[0], reply)
    case TimeWindow(config) => WindowAt(env, node.id, config.value, inputs[0], reply.clock)
    case Rss(_) => Ok(RssFinish(reply))
    case Weather(_) => if !reply.ok then Err(CallFailed) else Ok(EMPTY_VALUE.(text := reply.text))
    case SearchProvider(_) =>
      if !reply.ok then Err(CallFailed) else Ok(EMPTY_VALUE.(search := Some(reply.text), text := reply.text))
    case Llm(_) =>
      if !reply.ok then Err(CallFailed)
      else Ok(EMPTY_VALUE.(text := reply.text, items := inputs[1].items + inputs[0].items))
    case WeCom(_) =>
      if !reply.ok then Err(CallFailed)
      else Ok(EMPTY_VALUE.(text := Decide(env, node, inputs).call.message, items := inputs[0].items))
    case Command(_) =>
      if !reply.ok then Err(CallFailed)
      else Ok(EMPTY_VALUE.(triggered := true, text := Decide(env, node, inputs).call.inputText))
    case AgentFunction(_) =>
      if !reply.ok || TrimSpace(reply.text) == "" then Err(CallFailed)
      else Ok(EMPTY_VALUE.(text := TrimSpace(reply.text), items := inputs[0].items))
  }
}
