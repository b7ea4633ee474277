/** What executing a node of each type does, given the values of its sources. */
module NodeTypes {
  import opened Outcomes
  import opened WorkflowModel
  import opened NodeRules
  import opened ExecutorSpec
  import opened ExecutorInvariant
  import opened Runs
  import opened Gating
  import opened Wiring
  import opened Behaviour
  import opened Text

  // ----- What a node can do -----

  /** Finish without a call, or make one call and finish with an answer to the reply. */
  datatype Doing = Finishes(outcome: Outcome) | Calls(call: Call, answer: Reply -> Outcome)

  /** The call is logged with its reply, the errors that the reply reports are noted, and nothing else changes. */
  ghost function Answered(s: State, id: string, call: Call, reply: Reply): State {
    s.(log := s.log + [Entry(id, call, reply)],
       fetchErrors := s.fetchErrors + (if call.PollFeeds? || call.FetchWeather? then reply.fetchErrors else []),
       deliveryErrors := s.deliveryErrors + (if call.SendWeCom? && !reply.ok then [call.toUser] else []))
  }

  /** Executing the node on its cached sources does this. */
  ghost predicate Does(env: Env, s: State, id: string, doing: Doing)
    requires Ready(env, s.cache, id)
  {
    var (t, outcome) := Perform(env, s, env.Nodes()[id], InputsOf(env, s.cache, id));
    match doing
    case Finishes(r) => t == s && outcome == r
    case Calls(call, answer) =>
      var reply := env.world(|s.log|, id, call);
      t == Answered(s, id, call, reply) && outcome == answer(reply)
  }

  /** The decision and what is made of the reply determine what the node does. */
  ghost predicate Decides(env: Env, node: Node, inputs: seq<Inputs>, doing: Doing)
    requires PreCheck(env, node.kind).None? && |inputs| == |Handles(node.kind)|
  {
    match doing
    case Finishes(Ok(value)) => Decide(env, node, inputs) == Done(value)
    case Finishes(Err(e)) => Decide(env, node, inputs) == Fail(e)
    case Calls(call, answer) =>
      Decide(env, node, inputs) == Ask(call) && forall reply :: Finish(env, node, inputs, reply) == answer(reply)
  }

  lemma DecidesMeansDoes(env: Env, s: State, id: string, doing: Doing)
    requires Ready(env, s.cache, id) && Decides(env, env.Nodes()[id], InputsOf(env, s.cache, id), doing)
    ensures Does(env, s, id, doing)
  {
    hide Decide, Finish, InputsOf, Deps, PreCheck;
  }

  function Blocked(byTimer: bool, byWindow: bool): Outcome {
    Ok(BlockedValue(byTimer, byWindow))
  }

  /** The texts of the sources in order, blanks dropped, with blank lines between them. */
  function JoinedTexts(vs: seq<Value>): string {
    JoinOrdered(TextsOf(vs))
  }

  lemma EdgesOn(env: Env, id: string, handle: string)
    ensures Incoming(env, id, handle) != [] <==> HasEdge(env, id, handle)
  {
    hide OnHandle, Incoming;
    forall e: Edge
      ensures e in Incoming(env, id, handle) <==> e in env.workflow.edges && OnHandle(id, handle)(e)
    {
      IncomingMembers(env, id, handle, e);
    }
    if Incoming(env, id, handle) != [] {
      assert Incoming(env, id, handle)[0] in Incoming(env, id, handle);
    }
  }

  /** A node type with one handle gets the summary of its sources there. */
  lemma OneHandle(env: Env, s: State, id: string, handle: string) returns (vs: seq<Value>)
    requires Ready(env, s.cache, id) && ScopesAreReach(env) && Handles(env.Nodes()[id].kind) == [handle]
    ensures vs == SourcesOn(env, s.cache, id, handle) && InputsOf(env, s.cache, id) == [Summary(vs)]
  {
    hide FoldInputs, IncomingByHandle, ScopesAreReach, DependencyGraph, HandleSources;
    vs := SourcesOn(env, s.cache, id, handle);
    SingleHandle(env, s.cache, id);
    FoldIsSummary(env, s.cache, env.workflow.edges, id, handle);
  }

  lemma {:induction false} ValuesNeedEdges(env: Env, values: map<string, Value>, edges: seq<Edge>, id: string,
                                           handle: string)
    ensures ValuesOn(env, values, edges, id, handle) != [] ==> exists e :: e in edges && OnHandle(id, handle)(e)
  {
    hide OnHandle, TakesPart;
    if edges != [] {
      ValuesNeedEdges(env, values, edges[..|edges| - 1], id, handle);
    }
  }

  lemma SourcesNeedEdges(env: Env, values: map<string, Value>, id: string, handle: string)
    ensures SourcesOn(env, values, id, handle) != [] ==> HasEdge(env, id, handle)
    ensures SomeByWindow(SourcesOn(env, values, id, handle)) ==> HasEdge(env, id, handle)
  {
    hide OnHandle;
    ValuesNeedEdges(env, values, env.workflow.edges, id, handle);
  }

  lemma WaitsNeedsEdge(env: Env, values: map<string, Value>, id: string, handle: string)
    ensures Waits(SourcesOn(env, values, id, handle)) ==> HasEdge(env, id, handle)
  {
    hide HasEdge;
    SourcesNeedEdges(env, values, id, handle);
  }

  /** All that the rule of a node with one handle looks at. */
  ghost predicate Says(env: Env, id: string, handle: string, vs: seq<Value>, inputs: Inputs) {
    && (Incoming(env, id, handle) != [] <==> HasEdge(env, id, handle))
    && (SomeByWindow(vs) || Waits(vs) ==> HasEdge(env, id, handle))
    && inputs.texts == TextsOf(vs) && inputs.prompts == PromptsOf(vs) && inputs.items == ItemsOf(vs)
    && (inputs.HasBlockingWindow() <==> SomeByWindow(vs)) && (inputs.blockedByTimer > 0 <==> SomeByTimer(vs))
    && (inputs.HasActiveContent() <==> SomeLive(vs)) && (inputs.triggers > 0 <==> SomeTriggered(vs))
    && (inputs.OnlyBlocked() <==> Waits(vs)) && (inputs.OnlyBlockedByTimer() <==> WaitsForTimer(vs))
  }

  lemma OneHandleSays(env: Env, s: State, id: string, handle: string) returns (vs: seq<Value>)
    requires Ready(env, s.cache, id) && ScopesAreReach(env) && Handles(env.Nodes()[id].kind) == [handle]
    ensures vs == SourcesOn(env, s.cache, id, handle) && InputsOf(env, s.cache, id) == [Summary(vs)]
    ensures Says(env, id, handle, vs, Summary(vs))
  {
    hide InputsOf, Handles, Says;
    vs := OneHandle(env, s, id, handle);
    HandleSays(env, s.cache, id, handle);
  }

  // ----- Before the inputs -----

  /** The data of the node decodes, where it is decoded before the inputs are collected. */
  predicate DataDecodes(kind: Kind) {
    match kind
    case Timer(config) => config.Some?
    case StateChanged(decodes) => decodes
    case StateIs(config) => config.Some?
    case TimeWindow(config) => config.Some?
    case Rss(decodes) => decodes
    case Weather(decodes) => decodes
    case TextBlock(config) => config.Some?
    case SearchProvider(config) => config.Some?
    case Llm(config) => config.Some?
    case WeCom(config) => config.Some?
    case _ => true
  }

  /** The part of the world that the node type needs is there. */
  predicate RuntimeIsThere(env: Env, kind: Kind) {
    && (kind.StateIs? || kind.Command? ==> env.hasDevices)
    && (kind.AgentFunction? ==> env.hasInput)
    && (kind.WeCom? ==> env.hasOutput)
  }

  /** A node looks at its inputs exactly if its type is supported, its data decodes and its runtime is there. */
  lemma StartsIff(env: Env, kind: Kind)
    ensures PreCheck(env, kind).None? <==> !kind.UnsupportedKind? && DataDecodes(kind) && RuntimeIsThere(env, kind)
    ensures PreCheck(env, kind) == Some(UnsupportedType) <==> kind.UnsupportedKind?
    ensures PreCheck(env, kind).Some? && PreCheck(env, kind).value == BadData ==> !DataDecodes(kind)
    ensures PreCheck(env, kind).Some? && PreCheck(env, kind).value == RuntimeMissing ==> !RuntimeIsThere(env, kind)
  {
  }

  // ----- Triggers and groups -----

  lemma GroupNode(env: Env, s: State, id: string)
    requires Ready(env, s.cache, id) && env.Nodes()[id].kind.Group?
    ensures Does(env, s, id, Finishes(Ok(EMPTY_VALUE)))
  {
    hide InputsOf, Deps;
  }

  predicate TimerIsReadable(config: TimerConfig) {
    && config.zone.Offset?
    && match config.schedule
       case Unset | Daily => config.at.At?
       case Interval => config.intervalSeconds > 0
       case Unsupported => false
  }

  /** A timer gives a signal exactly in the runs it fired; its schedule must be readable. */
  lemma TimerNode(env: Env, s: State, id: string)
    requires Ready(env, s.cache, id) && env.Nodes()[id].kind.Timer?
    ensures env.Nodes()[id].kind.timer.Some?
    ensures Does(env, s, id, Finishes(if TimerIsReadable(env.Nodes()[id].kind.timer.value)
                                      then Ok(EMPTY_VALUE.(triggered := id in env.options.triggered))
                                      else Err(BadInput)))
  {
    hide InputsOf, Deps;
  }

  /** A state-change trigger signals exactly in the runs it fired with an event that still matches. */
  lemma StateChangedNode(env: Env, s: State, id: string)
    requires Ready(env, s.cache, id) && env.Nodes()[id].kind.StateChanged?
    ensures Does(env, s, id,
                 Finishes(if id in env.options.triggered && id in env.options.matchedEvents
                          then Ok(EMPTY_VALUE.(triggered := true, text := env.options.matchedEvents[id]))
                          else Blocked(false, false)))
  {
    hide InputsOf, Deps;
  }

  // ----- Conditions -----

  ghost function StateIsDoing(config: StateIsConfig, wired: bool, vs: seq<Value>): Doing {
    var device, key := TrimSpace(config.deviceID), TrimSpace(config.stateKey);
    var matched := Join(OrderedStrings(TextsOf(vs)) + ["Device " + device + " state " + key + " matched"], "\n\n");
    if SomeByWindow(vs) then Finishes(Blocked(false, true))
    else if wired && !SomeLive(vs) then Finishes(Blocked(SomeByTimer(vs), false))
    else if device == "" || key == "" then Finishes(Err(BadInput))
    else Calls(ReadDevice(device), (reply: Reply) =>
      if !reply.ok then Err(CallFailed)
      else if !config.matcherValid then Err(BadInput)
      else if !reply.matched then Blocked(false, false)
      else Ok(EMPTY_VALUE.(triggered := true, text := matched)))
  }

  lemma StateIsDecides(env: Env, node: Node, vs: seq<Value>, inputs: Inputs)
    requires node.kind.StateIs? && PreCheck(env, node.kind).None? && Says(env, node.id, "", vs, inputs)
    ensures node.kind.stateIs.Some?
    ensures Decides(env, node, [inputs], StateIsDoing(node.kind.stateIs.value, HasEdge(env, node.id, ""), vs))
  {
    hide Incoming, TrimSpace, OrderedStrings, Join, SomeByWindow, SomeByTimer, SomeLive, HasEdge, TextsOf;
  }

  /** A state condition waits for a live gate, then reads the device and signals exactly when its matcher accepts. */
  lemma StateIsNode(env: Env, s: State, id: string)
    requires Ready(env, s.cache, id) && ScopesAreReach(env) && env.Nodes()[id].kind.StateIs?
    ensures env.Nodes()[id].kind.stateIs.Some?
    ensures Does(env, s, id,
                 StateIsDoing(env.Nodes()[id].kind.stateIs.value, HasEdge(env, id, ""),
                              SourcesOn(env, s.cache, id, "")))
  {
    hide InputsOf, Deps, Says, Decides, StateIsDoing, Does;
    var vs := OneHandleSays(env, s, id, "");
    StateIsDecides(env, env.Nodes()[id], vs, Summary(vs));
    DecidesMeansDoes(env, s, id, StateIsDoing(env.Nodes()[id].kind.stateIs.value, HasEdge(env, id, ""), vs));
  }

  ghost function WindowOutcome(config: WindowConfig, wired: bool, vs: seq<Value>, now: int): Outcome {
    if !WindowIsReadable(config) then Err(BadInput)
    else if !WindowHolds(now, config) then Blocked(false, true)
    else if wired && !SomeLive(vs) then Blocked(SomeByTimer(vs), false)
    else if wired then Ok(EMPTY_VALUE.(triggered := true, text := JoinedTexts(vs)))
    else Ok(EMPTY_VALUE)
  }

  lemma WindowAtIs(env: Env, id: string, config: WindowConfig, vs: seq<Value>, inputs: Inputs, now: int)
    requires Incoming(env, id, "") != [] <==> HasEdge(env, id, "")
    requires inputs.texts == TextsOf(vs) && (inputs.HasActiveContent() <==> SomeLive(vs))
    requires inputs.blockedByTimer > 0 <==> SomeByTimer(vs)
    ensures WindowAt(env, id, config, inputs, now) == WindowOutcome(config, HasEdge(env, id, ""), vs, now)
  {
    hide WindowMatches, WindowHolds, Incoming, HasEdge, SomeLive, SomeByTimer, TextsOf, JoinOrdered;
    WindowMatchesIff(now, config);
  }

  /** A window is open or closed by the instant of the run, or by the clock in a run without one; an open window waits
      for a live gate and then passes on the texts of its sources. */
  lemma WindowNode(env: Env, s: State, id: string, now: int)
    requires Ready(env, s.cache, id) && ScopesAreReach(env) && env.Nodes()[id].kind.TimeWindow?
    ensures env.Nodes()[id].kind.window.Some?
    ensures var config, vs := env.Nodes()[id].kind.window.value, SourcesOn(env, s.cache, id, "");
            var wired := HasEdge(env, id, "");
            && (RunsAt(env.options, now) ==> Does(env, s, id, Finishes(WindowOutcome(config, wired, vs, now))))
            && (RunsByClock(env.options) ==>
                  Does(env, s, id, Calls(ReadClock, (reply: Reply) => WindowOutcome(config, wired, vs, reply.clock))))
  {
    hide InputsOf, Deps, Incoming, OnHandle, WindowAt, WindowOutcome, RunTime, RunsAt, RunsByClock;
    var vs := OneHandleSays(env, s, id, "");
    var config, wired := env.Nodes()[id].kind.window.value, HasEdge(env, id, "");
    hide Summary, SomeByWindow, SomeByTimer, SomeLive, HasEdge, TextsOf;
    RunTimeIff(env.options, now);
    forall at: int
      ensures WindowAt(env, id, config, Summary(vs), at) == WindowOutcome(config, wired, vs, at)
    {
      WindowAtIs(env, id, config, vs, Summary(vs), at);
    }
    if RunsAt(env.options, now) {
      DecidesMeansDoes(env, s, id, Finishes(WindowOutcome(config, wired, vs, now)));
    }
    if RunsByClock(env.options) {
      DecidesMeansDoes(env, s, id, Calls(ReadClock, (reply: Reply) => WindowOutcome(config, wired, vs, reply.clock)));
    }
  }

  // ----- Sources of content -----

  ghost function RssDoing(wired: bool, vs: seq<Value>): Doing {
    if SomeByWindow(vs) then Finishes(Blocked(false, true))
    else if wired && !SomeTriggered(vs) then Finishes(Blocked(true, false))
    else Calls(PollFeeds, (reply: Reply) =>
      if reply.items == [] then Blocked(false, false)
      else Ok(EMPTY_VALUE.(text := reply.text, items := reply.items)))
  }

  lemma RssDecides(env: Env, node: Node, vs: seq<Value>, inputs: Inputs)
    requires node.kind.Rss? && PreCheck(env, node.kind).None? && Says(env, node.id, "trigger", vs, inputs)
    ensures Decides(env, node, [inputs], RssDoing(HasEdge(env, node.id, "trigger"), vs))
  {
    hide Incoming, SomeByWindow, SomeTriggered, HasEdge;
  }

  /** A feed node polls unless a window blocks it or its trigger edges bring no trigger; no new items block. */
  lemma RssNode(env: Env, s: State, id: string)
    requires Ready(env, s.cache, id) && ScopesAreReach(env) && env.Nodes()[id].kind.Rss?
    ensures Does(env, s, id, RssDoing(HasEdge(env, id, "trigger"), SourcesOn(env, s.cache, id, "trigger")))
  {
    hide InputsOf, Deps, Says, Decides, RssDoing, Does;
    var vs := OneHandleSays(env, s, id, "trigger");
    RssDecides(env, env.Nodes()[id], vs, Summary(vs));
    DecidesMeansDoes(env, s, id, RssDoing(HasEdge(env, id, "trigger"), vs));
  }

  ghost function WeatherDoing(wired: bool, vs: seq<Value>): Doing {
    if SomeByWindow(vs) then Finishes(Blocked(false, true))
    else if WaitsForTimer(vs) then Finishes(Blocked(true, false))
    else if wired && !SomeLive(vs) then Finishes(Blocked(false, false))
    else Calls(FetchWeather, (reply: Reply) =>
      if reply.ok then Ok(EMPTY_VALUE.(text := reply.text)) else Err(CallFailed))
  }

  lemma WeatherDecides(env: Env, node: Node, vs: seq<Value>, inputs: Inputs)
    requires node.kind.Weather? && PreCheck(env, node.kind).None? && Says(env, node.id, "trigger", vs, inputs)
    ensures Decides(env, node, [inputs], WeatherDoing(HasEdge(env, node.id, "trigger"), vs))
  {
    hide Incoming, SomeByWindow, Waits, SomeLive, HasEdge;
  }

  /** A weather node asks unless a window blocks it or its trigger edges bring nothing live. */
  lemma WeatherNode(env: Env, s: State, id: string)
    requires Ready(env, s.cache, id) && ScopesAreReach(env) && env.Nodes()[id].kind.Weather?
    ensures Does(env, s, id, WeatherDoing(HasEdge(env, id, "trigger"), SourcesOn(env, s.cache, id, "trigger")))
  {
    hide InputsOf, Deps, Says, Decides, WeatherDoing, Does;
    var vs := OneHandleSays(env, s, id, "trigger");
    WeatherDecides(env, env.Nodes()[id], vs, Summary(vs));
    DecidesMeansDoes(env, s, id, WeatherDoing(HasEdge(env, id, "trigger"), vs));
  }

  ghost function TextDoing(config: TextConfig, vs: seq<Value>): Doing {
    var own := if TrimSpace(config.text) != "" then TrimSpace(config.text) else TrimSpace(config.prompt);
    var text := JoinOrdered(TextsOf(vs) + [own]);
    if SomeByWindow(vs) then Finishes(Blocked(false, true))
    else if text != "" then Finishes(Ok(EMPTY_VALUE.(prompt := text, text := text, items := ItemsOf(vs))))
    else if WaitsForTimer(vs) then Finishes(Blocked(true, false))
    else if Waits(vs) then Finishes(Blocked(false, false))
    else Finishes(Err(BadInput))
  }

  lemma TextDecides(env: Env, node: Node, vs: seq<Value>, inputs: Inputs)
    requires node.kind.TextBlock? && PreCheck(env, node.kind).None? && Says(env, node.id, "text", vs, inputs)
    ensures node.kind.text.Some? && Decides(env, node, [inputs], TextDoing(node.kind.text.value, vs))
  {
    hide Incoming, TrimSpace, JoinOrdered, SomeByWindow, Waits, HasEdge, TextsOf, ItemsOf;
  }

  /** A text node is the texts of its sources followed by its own. */
  lemma TextNode(env: Env, s: State, id: string)
    requires Ready(env, s.cache, id) && ScopesAreReach(env) && env.Nodes()[id].kind.TextBlock?
    ensures env.Nodes()[id].kind.text.Some?
    ensures Does(env, s, id, TextDoing(env.Nodes()[id].kind.text.value, SourcesOn(env, s.cache, id, "text")))
  {
    hide InputsOf, Deps, Says, Decides, TextDoing, Does;
    var vs := OneHandleSays(env, s, id, "text");
    TextDecides(env, env.Nodes()[id], vs, Summary(vs));
    DecidesMeansDoes(env, s, id, TextDoing(env.Nodes()[id].kind.text.value, vs));
  }

  /** A search node searches for its own query, whatever its edges. */
  lemma SearchNode(env: Env, s: State, id: string)
    requires Ready(env, s.cache, id) && env.Nodes()[id].kind.SearchProvider?
    ensures env.Nodes()[id].kind.search.Some?
    ensures var query := TrimSpace(env.Nodes()[id].kind.search.value.query);
            Does(env, s, id,
                 if query == "" then Finishes(Err(BadInput))
                 else Calls(RunSearch(query), (reply: Reply) =>
                   if reply.ok then Ok(EMPTY_VALUE.(search := Some(reply.text), text := reply.text))
                   else Err(CallFailed)))
  {
    hide InputsOf, Deps, TrimSpace;
    var query := TrimSpace(env.Nodes()[id].kind.search.value.query);
    DecidesMeansDoes(env, s, id,
                     if query == "" then Finishes(Err(BadInput))
                     else Calls(RunSearch(query), (reply: Reply) =>
                       if reply.ok then Ok(EMPTY_VALUE.(search := Some(reply.text), text := reply.text))
                       else Err(CallFailed)));
  }

  // ----- Actions -----

  ghost function WeComDoing(config: WeComConfig, vs: seq<Value>): Doing {
    var text, toUser := JoinedTexts(vs), TrimSpace(config.toUser);
    if SomeByWindow(vs) then Finishes(Blocked(false, true))
    else if TrimSpace(text) == "" then
      Finishes(if WaitsForTimer(vs) then Blocked(true, false)
               else if Waits(vs) then Blocked(false, false)
               else Err(BadInput))
    else if toUser == "" then Finishes(Err(BadInput))
    else Calls(SendWeCom(toUser, text), (reply: Reply) =>
      if reply.ok then Ok(EMPTY_VALUE.(text := text, items := ItemsOf(vs))) else Err(CallFailed))
  }

  lemma WeComDecides(env: Env, node: Node, vs: seq<Value>, inputs: Inputs)
    requires node.kind.WeCom? && PreCheck(env, node.kind).None? && Says(env, node.id, "", vs, inputs)
    ensures node.kind.wecom.Some? && Decides(env, node, [inputs], WeComDoing(node.kind.wecom.value, vs))
  {
    hide Incoming, TrimSpace, JoinOrdered, SomeByWindow, Waits, HasEdge, TextsOf, ItemsOf;
  }

  /** A WeCom output sends the texts of its sources to its user. */
  lemma WeComNode(env: Env, s: State, id: string)
    requires Ready(env, s.cache, id) && ScopesAreReach(env) && env.Nodes()[id].kind.WeCom?
    ensures env.Nodes()[id].kind.wecom.Some?
    ensures Does(env, s, id, WeComDoing(env.Nodes()[id].kind.wecom.value, SourcesOn(env, s.cache, id, "")))
  {
    hide InputsOf, Deps, Says, Decides, WeComDoing, Does;
    var vs := OneHandleSays(env, s, id, "");
    WeComDecides(env, env.Nodes()[id], vs, Summary(vs));
    DecidesMeansDoes(env, s, id, WeComDoing(env.Nodes()[id].kind.wecom.value, vs));
  }

  ghost function CommandDoing(config: Option<CommandConfig>, wired: bool, vs: seq<Value>): Doing {
    if SomeByWindow(vs) || (wired && !SomeLive(vs)) then Finishes(Blocked(SomeByTimer(vs), SomeByWindow(vs)))
    else if config.None? then Finishes(Err(BadData))
    else
      var device, action := TrimSpace(config.value.deviceID), TrimSpace(config.value.action);
      if device == "" || action == "" then Finishes(Err(BadInput))
      else Calls(RunCommand(device, action, JoinedTexts(vs)), (reply: Reply) =>
        if reply.ok then Ok(EMPTY_VALUE.(triggered := true, text := JoinedTexts(vs))) else Err(CallFailed))
  }

  lemma CommandDecides(env: Env, node: Node, vs: seq<Value>, inputs: Inputs)
    requires node.kind.Command? && PreCheck(env, node.kind).None? && Says(env, node.id, "", vs, inputs)
    ensures Decides(env, node, [inputs], CommandDoing(node.kind.command, HasEdge(env, node.id, ""), vs))
  {
    hide Incoming, TrimSpace, JoinOrdered, SomeByWindow, SomeByTimer, SomeLive, HasEdge, TextsOf;
  }

  /** A command runs on its device with the texts of its sources, unless it waits for live input. */
  lemma CommandNode(env: Env, s: State, id: string)
    requires Ready(env, s.cache, id) && ScopesAreReach(env) && env.Nodes()[id].kind.Command?
    ensures Does(env, s, id,
                 CommandDoing(env.Nodes()[id].kind.command, HasEdge(env, id, ""), SourcesOn(env, s.cache, id, "")))
  {
    hide InputsOf, Deps, Says, Decides, CommandDoing, Does;
    var vs := OneHandleSays(env, s, id, "");
    CommandDecides(env, env.Nodes()[id], vs, Summary(vs));
    DecidesMeansDoes(env, s, id, CommandDoing(env.Nodes()[id].kind.command, HasEdge(env, id, ""), vs));
  }

  ghost function AgentDoing(config: Option<AgentConfig>, wired: bool, vs: seq<Value>): Doing {
    if SomeByWindow(vs) || (wired && !SomeLive(vs)) then Finishes(Blocked(SomeByTimer(vs), SomeByWindow(vs)))
    else if config.None? then Finishes(Err(BadData))
    else
      var own, given := TrimSpace(config.value.input), JoinOrdered(PromptsOf(vs) + TextsOf(vs));
      var input := if own != "" then own else given;
      if input == "" then Finishes(Err(BadInput))
      else Calls(CallAgent(input), (reply: Reply) =>
        if reply.ok && TrimSpace(reply.text) != ""
        then Ok(EMPTY_VALUE.(text := TrimSpace(reply.text), items := ItemsOf(vs)))
        else Err(CallFailed))
  }

  lemma AgentDecides(env: Env, node: Node, vs: seq<Value>, inputs: Inputs)
    requires node.kind.AgentFunction? && PreCheck(env, node.kind).None? && Says(env, node.id, "", vs, inputs)
    ensures Decides(env, node, [inputs], AgentDoing(node.kind.agent, HasEdge(env, node.id, ""), vs))
  {
    hide Incoming, TrimSpace, JoinOrdered, SomeByWindow, SomeByTimer, SomeLive, HasEdge, TextsOf, PromptsOf, ItemsOf;
  }

  /** An agent node hands over its own input or else the prompts and texts of its sources; an empty answer fails. */
  lemma AgentNode(env: Env, s: State, id: string)
    requires Ready(env, s.cache, id) && ScopesAreReach(env) && env.Nodes()[id].kind.AgentFunction?
    ensures Does(env, s, id,
                 AgentDoing(env.Nodes()[id].kind.agent, HasEdge(env, id, ""), SourcesOn(env, s.cache, id, "")))
  {
    hide InputsOf, Deps, Says, Decides, AgentDoing, Does;
    var vs := OneHandleSays(env, s, id, "");
    AgentDecides(env, env.Nodes()[id], vs, Summary(vs));
    DecidesMeansDoes(env, s, id, AgentDoing(env.Nodes()[id].kind.agent, HasEdge(env, id, ""), vs));
  }

  // ----- Models -----

  /** A titled section after what is there already; blank bodies are left out. */
  function AddSection(prompt: string, title: string, body: string): string {
    if TrimSpace(body) == "" then prompt
    else (if prompt == "" then "" else prompt + "\n\n") + title + TrimSpace(body)
  }

  /** The texts that are not prompts. */
  function NotPrompts(texts: seq<string>, prompts: seq<string>): seq<string> {
    if texts == [] then []
    else
      var last := TrimSpace(texts[|texts| - 1]);
      NotPrompts(texts[..|texts| - 1], prompts) + (if last == "" || last in OrderedStrings(prompts) then [] else [last])
  }

  /** The prompt of a model: context and further texts, search results, text blocks, and its own prompt. */
  function PromptText(userPrompt: string, ps: seq<Value>, cs: seq<Value>, ss: seq<Value>): string {
    var context := JoinOrdered(TextsOf(cs) + NotPrompts(TextsOf(ps), PromptsOf(ps)));
    var withContext := AddSection("", "Workflow Input:\n", context);
    var withSearch := AddSection(withContext, "Search Results:\n", JoinOrdered(SearchesOf(ss)));
    var withBlocks := AddSection(withSearch, "Text Blocks:\n", JoinOrdered(PromptsOf(ps)));
    AddSection(withBlocks, "User Prompt:\n", userPrompt)
  }

  ghost function LlmDoing(env: Env, id: string, config: LlmConfig, ps: seq<Value>, cs: seq<Value>, ss: seq<Value>)
    : Doing
  {
    var prompt := PromptText(config.userPrompt, ps, cs, ss);
    var gate := if HasEdge(env, id, "context") then cs else ps;
    if SomeByWindow(ps) || SomeByWindow(cs) || SomeByWindow(ss) then Finishes(Blocked(false, true))
    else if HasEdge(env, id, "tool") || HasEdge(env, id, "skill") then Finishes(Err(ReservedHandle))
    else if WaitsForTimer(gate) then Finishes(Blocked(true, false))
    else if Waits(gate) then Finishes(Blocked(false, false))
    else if TrimSpace(prompt) == "" then Finishes(Err(BadInput))
    else Calls(GenerateText(TrimSpace(config.providerID), prompt), (reply: Reply) =>
      if reply.ok then Ok(EMPTY_VALUE.(text := reply.text, items := ItemsOf(cs) + ItemsOf(ps))) else Err(CallFailed))
  }

  lemma {:induction false} ExtraNext(texts: seq<string>, text: string, prompts: set<string>)
    ensures var trimmed := TrimSpace(text);
            ExtraContext(texts + [text], prompts)
            == ExtraContext(texts, prompts) + (if trimmed == "" || trimmed in prompts then [] else [trimmed])
  {
    hide TrimSpace;
    if texts == [] {
      assert texts + [text] == [text] && [text][1..] == [];
    } else {
      assert (texts + [text])[1..] == texts[1..] + [text];
      ExtraNext(texts[1..], text, prompts);
    }
  }

  lemma {:induction false} ExtraIsNotPrompts(texts: seq<string>, prompts: seq<string>)
    ensures ExtraContext(texts, set s | s in OrderedStrings(prompts)) == NotPrompts(texts, prompts)
  {
    hide TrimSpace, OrderedStrings, ExtraContext;
    if texts == [] {
      NoExtra(set s | s in OrderedStrings(prompts));
    } else {
      var front, last := texts[..|texts| - 1], texts[|texts| - 1];
      assert texts == front + [last];
      ExtraIsNotPrompts(front, prompts);
      ExtraNext(front, last, set s | s in OrderedStrings(prompts));
    }
  }

  lemma NoExtra(prompts: set<string>)
    ensures ExtraContext([], prompts) == []
  {
  }

  lemma SectionAdds(parts: seq<string>, title: string, body: string)
    requires title != "" && (parts != [] <==> Join(parts, "\n\n") != "")
    ensures var more := parts + Section(title, body);
            && Join(more, "\n\n") == AddSection(Join(parts, "\n\n"), title, body)
            && (more != [] <==> Join(more, "\n\n") != "")
  {
    hide TrimSpace, Join;
    if TrimSpace(body) == "" {
      assert parts + [] == parts;
    } else {
      JoinNext(parts, title + TrimSpace(body), "\n\n");
    }
  }

  /** The prompt that the rule of a model builds from its three inputs. */
  lemma PromptIs(config: LlmConfig, ps: seq<Value>, cs: seq<Value>, ss: seq<Value>)
    ensures LlmPrompt(config, Summary(ps), Summary(cs), Summary(ss)) == PromptText(config.userPrompt, ps, cs, ss)
  {
    SummaryLists(ps);
    SummaryLists(cs);
    SummaryLists(ss);
    ExtraIsNotPrompts(TextsOf(ps), PromptsOf(ps));
    var context := JoinOrdered(TextsOf(cs) + NotPrompts(TextsOf(ps), PromptsOf(ps)));
    var search, blocks := JoinOrdered(SearchesOf(ss)), JoinOrdered(PromptsOf(ps));
    hide Summary, TextsOf, PromptsOf, SearchesOf, NotPrompts, ExtraContext, TrimSpace, JoinOrdered, OrderedStrings;
    var one := [] + Section("Workflow Input:\n", context);
    var two := one + Section("Search Results:\n", search);
    var three := two + Section("Text Blocks:\n", blocks);
    NothingJoined();
    assert one == Section("Workflow Input:\n", context);
    assert (set s | s in OrderedStrings(Summary(ps).prompts)) == set s | s in OrderedStrings(PromptsOf(ps));
    SectionAdds([], "Workflow Input:\n", context);
    SectionAdds(one, "Search Results:\n", search);
    SectionAdds(two, "Text Blocks:\n", blocks);
    SectionAdds(three, "User Prompt:\n", TrimSpace(config.userPrompt));
    TrimmedSection(three, config.userPrompt);
  }

  lemma NothingJoined()
    ensures Join([], "\n\n") == ""
  {
  }

  lemma TrimmedSection(parts: seq<string>, body: string)
    ensures AddSection(Join(parts, "\n\n"), "User Prompt:\n", TrimSpace(body))
         == AddSection(Join(parts, "\n\n"), "User Prompt:\n", body)
  {
    TrimSpaceTrims(body);
    TrimSpaceTrims(TrimSpace(body));
  }

  /** A model gets the summaries of the sources on its three handles. */
  lemma LlmInputs(env: Env, s: State, id: string)
    requires Ready(env, s.cache, id) && ScopesAreReach(env) && env.Nodes()[id].kind.Llm?
    ensures InputsOf(env, s.cache, id)
         == [Summary(SourcesOn(env, s.cache, id, "prompt")), Summary(SourcesOn(env, s.cache, id, "context")),
             Summary(SourcesOn(env, s.cache, id, "search"))]
  {
    hide FoldInputs, Incoming, ScopesAreReach, CollectedSources, Summary, SourcesOn, HandleInputs, HandleSources;
    ThreeHandles(env, s.cache, id, "prompt", "context", "search");
    HandleIsSummary(env, s.cache, id, "prompt");
    HandleIsSummary(env, s.cache, id, "context");
    HandleIsSummary(env, s.cache, id, "search");
  }

  lemma ThreeHandles(env: Env, values: map<string, Value>, id: string, a: string, b: string, c: string)
    requires HandleSources(env, id, [a, b, c]) <= values.Keys
    ensures CollectedSources(env, Incoming(env, id, a)) <= values.Keys
    ensures CollectedSources(env, Incoming(env, id, b)) <= values.Keys
    ensures CollectedSources(env, Incoming(env, id, c)) <= values.Keys
    ensures HandleInputs(env, values, id, [a, b, c])
         == [FoldInputs(env, values, Incoming(env, id, a), NO_INPUTS),
             FoldInputs(env, values, Incoming(env, id, b), NO_INPUTS),
             FoldInputs(env, values, Incoming(env, id, c), NO_INPUTS)]
  {
    hide FoldInputs, Incoming, CollectedSources;
    assert [a, b, c][1..] == [b, c] && [b, c][1..] == [c] && [c][1..] == [];
    assert HandleSources(env, id, [c]) == CollectedSources(env, Incoming(env, id, c)) + HandleSources(env, id, []);
    assert HandleSources(env, id, [b, c]) == CollectedSources(env, Incoming(env, id, b)) + HandleSources(env, id, [c]);
    assert HandleInputs(env, values, id, []) == [];
    assert HandleInputs(env, values, id, [c]) == [FoldInputs(env, values, Incoming(env, id, c), NO_INPUTS)];
  }

  lemma HandleIsSummary(env: Env, values: map<string, Value>, id: string, handle: string)
    requires ScopesAreReach(env)
    ensures CollectedSources(env, Incoming(env, id, handle)) <= values.Keys ==>
            FoldInputs(env, values, Incoming(env, id, handle), NO_INPUTS) == Summary(SourcesOn(env, values, id, handle))
  {
    hide FoldInputs, IncomingByHandle, ScopesAreReach, CollectedSources, Summary;
    if CollectedSources(env, Incoming(env, id, handle)) <= values.Keys {
      FoldIsSummary(env, values, env.workflow.edges, id, handle);
    }
  }

  lemma LlmDecides(env: Env, node: Node, ps: seq<Value>, cs: seq<Value>, ss: seq<Value>)
    requires node.kind.Llm? && PreCheck(env, node.kind).None?
    requires Says(env, node.id, "prompt", ps, Summary(ps)) && Says(env, node.id, "context", cs, Summary(cs))
    requires Says(env, node.id, "search", ss, Summary(ss))
    requires Incoming(env, node.id, "tool") != [] <==> HasEdge(env, node.id, "tool")
    requires Incoming(env, node.id, "skill") != [] <==> HasEdge(env, node.id, "skill")
    ensures node.kind.llm.Some?
    ensures Decides(env, node, [Summary(ps), Summary(cs), Summary(ss)],
                    LlmDoing(env, node.id, node.kind.llm.value, ps, cs, ss))
  {
    hide Incoming, TrimSpace, LlmPrompt, PromptText, SomeByWindow, Waits, HasEdge, Summary;
    hide TextsOf, ItemsOf, PromptsOf, SearchesOf;
    PromptIs(node.kind.llm.value, ps, cs, ss);
  }

  lemma HandleSays(env: Env, values: map<string, Value>, id: string, handle: string)
    ensures var vs := SourcesOn(env, values, id, handle); Says(env, id, handle, vs, Summary(vs))
  {
    hide SourcesOn, Incoming, HasEdge;
    EdgesOn(env, id, handle);
    SourcesNeedEdges(env, values, id, handle);
    WaitsNeedsEdge(env, values, id, handle);
    SummarySays(SourcesOn(env, values, id, handle));
  }

  /** A model is asked with the prompt text of its sources, unless its context, or without context edges its prompts,
      wait; tool and skill edges are refused. */
  lemma LlmNode(env: Env, s: State, id: string)
    requires Ready(env, s.cache, id) && ScopesAreReach(env) && env.Nodes()[id].kind.Llm?
    ensures env.Nodes()[id].kind.llm.Some?
    ensures Does(env, s, id,
                 LlmDoing(env, id, env.Nodes()[id].kind.llm.value, SourcesOn(env, s.cache, id, "prompt"),
                          SourcesOn(env, s.cache, id, "context"), SourcesOn(env, s.cache, id, "search")))
  {
    hide InputsOf, Deps, Says, Decides, LlmDoing, Does, SourcesOn, HasEdge, Incoming;
    var ps, cs := SourcesOn(env, s.cache, id, "prompt"), SourcesOn(env, s.cache, id, "context");
    var ss := SourcesOn(env, s.cache, id, "search");
    LlmInputs(env, s, id);
    HandleSays(env, s.cache, id, "prompt");
    HandleSays(env, s.cache, id, "context");
    HandleSays(env, s.cache, id, "search");
    EdgesOn(env, id, "tool");
    EdgesOn(env, id, "skill");
    LlmDecides(env, env.Nodes()[id], ps, cs, ss);
    DecidesMeansDoes(env, s, id, LlmDoing(env, id, env.Nodes()[id].kind.llm.value, ps, cs, ss));
  }
}
