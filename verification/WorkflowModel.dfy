/**
  Workflow definitions, node values and run options (internal/models/agent_workflow.go and the types of
  internal/core/workflow/workflow_run.go). Node data is already decoded: None stands for data that fails to decode.
  */
module WorkflowModel {
  import opened Outcomes
  import opened Graphs
  import TimeSchedule

  datatype Item = Item(title: string, url: string)

  datatype TimerConfig = TimerConfig(schedule: TimeSchedule.Schedule, at: TimeSchedule.Clock,
                                     intervalSeconds: int, zone: TimeSchedule.Zone)
  datatype WindowConfig = WindowConfig(start: TimeSchedule.Clock, end: TimeSchedule.Clock, zone: TimeSchedule.Zone)
  datatype StateIsConfig = StateIsConfig(deviceID: string, stateKey: string, matcherValid: bool)
  datatype TextConfig = TextConfig(text: string, prompt: string)
  datatype LlmConfig = LlmConfig(providerID: string, userPrompt: string)
  datatype SearchConfig = SearchConfig(query: string)
  datatype WeComConfig = WeComConfig(toUser: string)
  datatype CommandConfig = CommandConfig(deviceID: string, action: string)
  datatype AgentConfig = AgentConfig(input: string)

  datatype Kind =
    | Group
    | Timer(timer: Option<TimerConfig>)
    | StateChanged(decodes: bool)
    | StateIs(stateIs: Option<StateIsConfig>)
    | TimeWindow(window: Option<WindowConfig>)
    | Rss(decodes: bool)
    | Weather(decodes: bool)
    | TextBlock(text: Option<TextConfig>)
    | SearchProvider(search: Option<SearchConfig>)
    | Llm(llm: Option<LlmConfig>)
    | WeCom(wecom: Option<WeComConfig>)
    | Command(command: Option<CommandConfig>)
    | AgentFunction(agent: Option<AgentConfig>)
    | UnsupportedKind

  datatype Node = Node(id: string, kind: Kind)

  datatype Edge = Edge(source: string, target: string, targetHandle: string)

  datatype Workflow = Workflow(id: string, nodes: seq<Node>, edges: seq<Edge>, updatedAt: int)

  predicate IsAutonomousTrigger(kind: Kind) {
    kind.Timer? || kind.StateChanged? || kind.StateIs?
  }

  predicate CannotBeRunTarget(kind: Kind) {
    kind.Group? || IsAutonomousTrigger(kind) || kind.TimeWindow?
  }

  predicate SupportsTriggeredRun(kind: Kind) {
    kind.TextBlock? || kind.Group? || kind.TimeWindow?
  }

  /** The id-to-node table; a later node overwrites an earlier one with the same id. */
  function NodeTable(nodes: seq<Node>): (m: map<string, Node>)
    ensures forall id :: id in m ==> m[id].id == id && m[id] in nodes
    ensures forall node :: node in nodes ==> node.id in m
  {
    if nodes == [] then map[]
    else
      var last := nodes[|nodes| - 1];
      NodeTable(nodes[..|nodes| - 1])[last.id := last]
  }

  ghost predicate DistinctNodeIds(nodes: seq<Node>) {
    forall i, j :: 0 <= i < j < |nodes| ==> nodes[i].id != nodes[j].id
  }

  lemma {:induction false} TableHoldsEveryNode(nodes: seq<Node>)
    requires DistinctNodeIds(nodes)
    ensures forall node :: node in nodes ==> NodeTable(nodes)[node.id] == node
  {
    if nodes != [] {
      var front := nodes[..|nodes| - 1];
      TableHoldsEveryNode(front);
      forall node | node in nodes
        ensures NodeTable(nodes)[node.id] == node
      {
        if node in front {
          var i :| 0 <= i < |front| && front[i] == node;
          assert nodes[i].id != nodes[|nodes| - 1].id;
        }
      }
    }
  }

  function Sources(edges: seq<Edge>): set<string> {
    set e | e in edges :: e.source
  }

  function TargetsOf(edges: seq<Edge>, source: string): set<string> {
    set e | e in edges && e.source == source :: e.target
  }

  /** The edges of a workflow as a graph from sources to targets. */
  function OutgoingGraph(edges: seq<Edge>): (g: Graph)
    ensures forall a, b :: b in Succ(g, a) <==> exists e :: e in edges && e.source == a && e.target == b
  {
    map a | a in Sources(edges) :: TargetsOf(edges, a)
  }

  /** What a node evaluates to (workflowNodeValue). */
  datatype Value = Value(prompt: string, text: string, items: seq<Item>, search: Option<string>, triggered: bool,
                         blocked: bool, blockedByTimer: bool, blockedByWindow: bool)

  const EMPTY_VALUE := Value("", "", [], None, false, false, false, false)

  function BlockedValue(byTimer: bool, byWindow: bool): Value {
    EMPTY_VALUE.(blocked := true, blockedByTimer := byTimer, blockedByWindow := byWindow)
  }

  datatype Error =
    | CycleFound | NodeMissing | UnsupportedType | BadData | RuntimeMissing | BadInput | ReservedHandle | CallFailed

  /** A request to the world outside the workflow engine, made on behalf of a node. */
  datatype Call =
    | ReadClock
    | ReadDevice(deviceID: string)
    | PollFeeds
    | FetchWeather
    | RunSearch(query: string)
    | GenerateText(providerID: string, prompt: string)
    | SendWeCom(toUser: string, message: string)
    | RunCommand(commandDeviceID: string, action: string, inputText: string)
    | CallAgent(input: string)

  datatype Reply = Reply(ok: bool, text: string, items: seq<Item>, matched: bool, clock: int, fetchErrors: seq<string>)

  /** The world: an arbitrary reply for each call, which may depend on how many calls came before it. */
  type World = (nat, string, Call) -> Reply

  datatype RunOptions = RunOptions(triggered: set<string>, eventAt: Option<int>, triggeredAt: Option<int>,
                                   matchedEvents: map<string, string>)

  /** Everything that stays fixed during one run of one workflow. */
  datatype Env = Env(workflow: Workflow, options: RunOptions, scopes: map<string, set<string>>,
                     hasDevices: bool, hasInput: bool, hasOutput: bool, world: World)
  {
    function Nodes(): (m: map<string, Node>)
      ensures forall id :: id in m ==> m[id].id == id && m[id] in workflow.nodes
      ensures forall node :: node in workflow.nodes ==> node.id in m
    {
      NodeTable(workflow.nodes)
    }
  }
}
