/**
  The executor as a function on states: the memoised depth-first evaluation of
  internal/core/workflow/workflow_run.go and workflow_inputs.go.
  */
module ExecutorSpec {
  import opened Outcomes
  import opened WorkflowModel
  import opened NodeRules

  datatype NodeResult = Succeeded | Failed(error: Error)

  /** One call to the outside world, with the node that made it and the reply it got. */
  datatype Entry = Entry(node: string, call: Call, reply: Reply)

  datatype State = State(cache: map<string, Value>, active: set<string>, results: map<string, NodeResult>,
                         log: seq<Entry>, fetchErrors: seq<string>, deliveryErrors: seq<string>)

  const INITIAL := State(map[], {}, map[], [], [], [])

  type Outcome = Result<Value, Error>

  // ----- Triggered runs: which nodes and edges take part -----

  predicate MatchesTrigger(env: Env, id: string) {
    id in env.scopes && env.scopes[id] * env.options.triggered != {}
  }

  predicate HasTriggerScope(env: Env, id: string) {
    id in env.scopes && env.scopes[id] != {}
  }

  predicate ShouldEvaluate(env: Env, id: string) {
    env.options.triggered == {} || MatchesTrigger(env, id)
  }

  predicate ShouldCollect(env: Env, source: string) {
    env.options.triggered == {} || MatchesTrigger(env, source)
    || (!HasTriggerScope(env, source) && source in env.Nodes() && SupportsTriggeredRun(env.Nodes()[source].kind))
  }

  // ----- Evaluation -----

  /** The nodes that are not being evaluated yet: what the recursion consumes. */
  function Open(env: Env, active: set<string>): set<string> {
    env.Nodes().Keys - active
  }

  lemma OpenShrinks(env: Env, active: set<string>, id: string)
    requires id in env.Nodes() && id !in active
    ensures |Open(env, active + {id})| < |Open(env, active)|
  {
    assert Open(env, active + {id}) == Open(env, active) - {id};
  }

  function Enter(s: State, id: string): State {
    s.(active := s.active + {id})
  }

  function RecordFailure(s: State, id: string, e: Error): State {
    s.(results := s.results[id := Failed(e)])
  }

  function Evaluate(env: Env, s: State, id: string): (r: (State, Outcome))
    ensures r.0.active == s.active
    decreases |Open(env, s.active)|, 0, 0
  {
    if id in s.cache then (s, Ok(s.cache[id]))
    else if id in s.active then (RecordFailure(s, id, CycleFound), Err(CycleFound))
    else if id !in env.Nodes() then (RecordFailure(s, id, NodeMissing), Err(NodeMissing))
    else
      OpenShrinks(env, s.active, id);
      var node := env.Nodes()[id];
      var (gathered, inputs) := Gather(env, Enter(s, id), node);
      assert gathered.active - {id} == s.active;
      Conclude(env, gathered, node, inputs)
  }

  /** The checks before the inputs, then the inputs of every handle. */
  function Gather(env: Env, s: State, node: Node): (r: (State, Result<seq<Inputs>, Error>))
    ensures r.0.active == s.active
    ensures r.1.Ok? ==> PreCheck(env, node.kind).None? && |r.1.value| == |Handles(node.kind)|
    decreases |Open(env, s.active)|, 3, 0
  {
    match PreCheck(env, node.kind)
    case Some(e) => (s, Err(e))
    case None => CollectHandles(env, s, node.id, Handles(node.kind))
  }

  function CollectHandles(env: Env, s: State, id: string, handles: seq<string>)
    : (r: (State, Result<seq<Inputs>, Error>))
    ensures r.0.active == s.active
    ensures r.1.Ok? ==> |r.1.value| == |handles|
    decreases |Open(env, s.active)|, 2, |handles|
  {
    if handles == [] then (s, Ok([]))
    else
      var (s1, first) := Collect(env, s, Incoming(env, id, handles[0]), NO_INPUTS);
      match first
      case Err(e) => (s1, Err(e))
      case Ok(inputs) =>
        var (s2, rest) := CollectHandles(env, s1, id, handles[1..]);
        match rest
        case Err(e) => (s2, Err(e))
        case Ok(others) => (s2, Ok([inputs] + others))
  }

  function Collect(env: Env, s: State, edges: seq<Edge>, inputs: Inputs): (r: (State, Result<Inputs, Error>))
    ensures r.0.active == s.active
    decreases |Open(env, s.active)|, 1, |edges|
  {
    if edges == [] then (s, Ok(inputs))
    else if !ShouldCollect(env, edges[0].source) then Collect(env, s, edges[1..], inputs)
    else
      var (s1, outcome) := Evaluate(env, s, edges[0].source);
      match outcome
      case Err(e) => (s1, Err(e))
      case Ok(value) => Collect(env, s1, edges[1..], Accumulate(inputs, value))
  }

  /** The world replies and the executor notes what the reply reports. */
  function Answer(env: Env, s: State, id: string, call: Call): (State, Reply) {
    var reply := env.world(|s.log|, id, call);
    (s.(log := s.log + [Entry(id, call, reply)],
        fetchErrors :=
          if call.PollFeeds? || call.FetchWeather? then s.fetchErrors + reply.fetchErrors else s.fetchErrors,
        deliveryErrors := if call.SendWeCom? && !reply.ok then s.deliveryErrors + [call.toUser] else s.deliveryErrors),
     reply)
  }

  /** Decide, make the call if there is one, and finish. */
  function Perform(env: Env, s: State, node: Node, inputs: seq<Inputs>): (r: (State, Outcome))
    requires |inputs| == |Handles(node.kind)| && PreCheck(env, node.kind).None?
    ensures r.0.active == s.active
  {
    match Decide(env, node, inputs)
    case Fail(e) => (s, Err(e))
    case Done(value) => (s, Ok(value))
    case Ask(call) =>
      var (s1, reply) := Answer(env, s, node.id, call);
      (s1, Finish(env, node, inputs, reply))
  }

  /** Leave the node: cache and report a success, report a failure, either way no longer active. */
  function Settle(s: State, id: string, outcome: Outcome): (r: (State, Outcome))
    ensures r.0.active == s.active - {id}
  {
    match outcome
    case Ok(value) =>
      (s.(cache := s.cache[id := value], active := s.active - {id}, results := s.results[id := Succeeded]), outcome)
    case Err(e) => (RecordFailure(s, id, e).(active := s.active - {id}), outcome)
  }

  function Conclude(env: Env, s: State, node: Node, inputs: Result<seq<Inputs>, Error>): (r: (State, Outcome))
    requires inputs.Ok? ==> PreCheck(env, node.kind).None? && |inputs.value| == |Handles(node.kind)|
    ensures r.0.active == s.active - {node.id}
  {
    match inputs
    case Err(e) => Settle(s, node.id, Err(e))
    case Ok(values) =>
      var (s1, outcome) := Perform(env, s, node, values);
      Settle(s1, node.id, outcome)
  }

  /** Evaluating the targets one after the other; failures are skipped, outcomes kept. */
  function EvaluateAll(env: Env, s: State, targets: seq<string>): (State, seq<Outcome>)
    decreases |targets|
  {
    if targets == [] then (s, [])
    else
      var front, last := targets[..|targets| - 1], targets[|targets| - 1];
      var (s1, outcomes) := EvaluateAll(env, s, front);
      var (s2, outcome) := Evaluate(env, s1, last);
      (s2, outcomes + [outcome])
  }
}
