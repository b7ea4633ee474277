/**
  The executor object: the mutable tables of workflowExecutor and the methods that update them, each proved equal
  to its function in ExecutorSpec, so that every theorem about those functions holds of the object.
  */
module Executor {
  import opened Outcomes
  import opened WorkflowModel
  import opened NodeRules
  import opened ExecutorSpec
  import opened TriggerScope
  import opened Runs
  import opened Lists
  import Text

  class WorkflowExecutor {
    const env: Env
    var cache: map<string, Value>
    var active: set<string>
    var results: map<string, NodeResult>
    var log: seq<Entry>
    var fetchErrors: seq<string>
    var deliveryErrors: seq<string>

    function Current(): State
      reads this
    {
      State(cache, active, results, log, fetchErrors, deliveryErrors)
    }

    constructor (workflow: Workflow, options: RunOptions, hasDevices: bool, hasInput: bool, hasOutput: bool,
                 world: World)
      ensures Current() == INITIAL
      ensures env.workflow == workflow && env.options == options && env.world == world
      ensures env.hasDevices == hasDevices && env.hasInput == hasInput && env.hasOutput == hasOutput
      ensures ScopesAreReach(env)
    {
      var scopes := BuildTriggerScopes(NodeTable(workflow.nodes), workflow.edges);
      env := Env(workflow, options, scopes, hasDevices, hasInput, hasOutput, world);
      cache, active, results := map[], {}, map[];
      log, fetchErrors, deliveryErrors := [], [], [];
    }

    method RecordFailure(id: string, e: Error)
      modifies this`results
      ensures Current() == ExecutorSpec.RecordFailure(old(Current()), id, e)
    {
      results := results[id := Failed(e)];
    }

    /** Evaluates a node: from the cache, or by executing it unless it is missing or already under way. */
    method Evaluate(id: string) returns (outcome: Outcome)
      modifies this
      ensures (Current(), outcome) == ExecutorSpec.Evaluate(env, old(Current()), id)
      decreases |Open(env, active)|, 0, 0
    {
      if id in cache {
        return Ok(cache[id]);
      }
      if id in active {
        RecordFailure(id, CycleFound);
        return Err(CycleFound);
      }
      if id !in env.Nodes() {
        RecordFailure(id, NodeMissing);
        return Err(NodeMissing);
      }
      var node := env.Nodes()[id];
      OpenShrinks(env, active, id);
      active := active + {id};
      outcome := Execute(node);
      match outcome
      case Err(e) =>
        RecordFailure(id, e);
        active := active - {id};
      case Ok(value) =>
        cache := cache[id := value];
        results := results[id := Succeeded];
        active := active - {id};
    }

    method Execute(node: Node) returns (outcome: Outcome)
      modifies this
      ensures var (gathered, inputs) := Gather(env, old(Current()), node);
              match inputs
              case Err(e) => Current() == gathered && outcome == Err(e)
              case Ok(values) => (Current(), outcome) == Perform(env, gathered, node, values)
      decreases |Open(env, active)|, 3, 0
    {
      var check := PreCheck(env, node.kind);
      if check.Some? {
        return Err(check.value);
      }
      var inputs := CollectHandles(node.id, Handles(node.kind));
      if inputs.Err? {
        return Err(inputs.error);
      }
      match Decide(env, node, inputs.value)
      case Fail(e) => outcome := Err(e);
      case Done(value) => outcome := Ok(value);
      case Ask(call) =>
        var reply := MakeCall(node.id, call);
        outcome := Finish(env, node, inputs.value, reply);
    }

    method CollectHandles(id: string, handles: seq<string>) returns (inputs: Result<seq<Inputs>, Error>)
      modifies this
      ensures (Current(), inputs) == ExecutorSpec.CollectHandles(env, old(Current()), id, handles)
      decreases |Open(env, active)|, 2, |handles|
    {
      if handles == [] {
        return Ok([]);
      }
      ghost var before := active;
      var first := Collect(id, handles[0]);
      assert active == before;
      if first.Err? {
        return Err(first.error);
      }
      var rest := CollectHandles(id, handles[1..]);
      if rest.Err? {
        return Err(rest.error);
      }
      return Ok([first.value] + rest.value);
    }

    method Collect(id: string, handle: string) returns (inputs: Result<Inputs, Error>)
      modifies this
      ensures (Current(), inputs) == ExecutorSpec.Collect(env, old(Current()), Incoming(env, id, handle), NO_INPUTS)
      decreases |Open(env, active)|, 1, 0
    {
      var edges := Incoming(env, id, handle);
      var out := NO_INPUTS;
      var i := 0;
      while i < |edges|
        invariant 0 <= i <= |edges| && active == old(active)
        invariant ExecutorSpec.Collect(env, old(Current()), edges, NO_INPUTS)
               == ExecutorSpec.Collect(env, Current(), edges[i..], out)
      {
        var rest := edges[i..];
        assert rest[1..] == edges[i + 1..];
        if ShouldCollect(env, edges[i].source) {
          var value := Evaluate(edges[i].source);
          if value.Err? {
            return Err(value.error);
          }
          out := Accumulate(out, value.value);
        }
        i := i + 1;
      }
      return Ok(out);
    }

    method MakeCall(id: string, call: Call) returns (reply: Reply)
      modifies this
      ensures (Current(), reply) == Answer(env, old(Current()), id, call)
    {
      reply := env.world(|log|, id, call);
      log := log + [Entry(id, call, reply)];
      if call.PollFeeds? || call.FetchWeather? {
        fetchErrors := fetchErrors + reply.fetchErrors;
      }
      if call.SendWeCom? && !reply.ok {
        deliveryErrors := deliveryErrors + [call.toUser];
      }
    }

    method Targets() returns (targets: seq<string>)
      ensures targets == TargetNodes(env)
    {
      hide ShouldEvaluate, OutgoingEdges;
      var nodes := env.workflow.nodes;
      targets := [];
      for i := 0 to |nodes|
        invariant targets == WeComTargets(env, nodes[..i])
      {
        assert nodes[..i + 1][..i] == nodes[..i];
        if nodes[i].kind.WeCom? && ShouldEvaluate(env, nodes[i].id) {
          targets := targets + [nodes[i].id];
        }
      }
      assert nodes[..|nodes|] == nodes;
      if targets != [] {
        return;
      }
      targets := [];
      for i := 0 to |nodes|
        invariant targets == LeafTargets(env, nodes[..i])
      {
        assert nodes[..i + 1][..i] == nodes[..i];
        if !CannotBeRunTarget(nodes[i].kind) && ShouldEvaluate(env, nodes[i].id)
           && OutgoingEdges(env.workflow.edges, nodes[i].id) == [] {
          targets := targets + [nodes[i].id];
        }
      }
    }

    /** A run on a fresh executor; none when there is no target. */
    method Run() returns (run: Option<RunRecord>)
      requires Current() == INITIAL
      modifies this
      ensures TargetNodes(env) == [] ==> run.None? && Current() == INITIAL
      ensures TargetNodes(env) != [] ==>
                Current() == FinalState(env)
                && run == Some(RecordOf(env, FinalState(env), EvaluateAll(env, INITIAL, TargetNodes(env)).1))
    {
      var targets := Targets();
      if targets == [] {
        return None;
      }
      var texts, items, outcomes := EvaluateTargets(targets);
      var reported := ReportedResults(env.workflow.nodes, results);
      var status := Status(reported, fetchErrors, deliveryErrors);
      run := Some(RunRecord(Truncate(items, ITEM_LIMIT), reported, fetchErrors, deliveryErrors,
                            Text.Join(UniqueStrings(texts, {}), "\n\n"), status));
    }

    method EvaluateTargets(targets: seq<string>)
      returns (texts: seq<string>, items: seq<Item>, ghost outcomes: seq<Outcome>)
      modifies this
      ensures (Current(), outcomes) == EvaluateAll(env, old(Current()), targets)
      ensures texts == OutcomeTexts(outcomes) && items == OutcomeItems(outcomes)
    {
      hide ExecutorSpec.Evaluate;
      texts, items, outcomes := [], [], [];
      for i := 0 to |targets|
        invariant (Current(), outcomes) == EvaluateAll(env, old(Current()), targets[..i])
        invariant texts == OutcomeTexts(outcomes) && items == OutcomeItems(outcomes)
      {
        assert targets[..i + 1][..i] == targets[..i];
        var outcome := Evaluate(targets[i]);
        outcomes := outcomes + [outcome];
        assert outcomes[..|outcomes| - 1] + [outcome] == outcomes;
        if outcome.Ok? {
          texts := texts + [Text.TrimSpace(outcome.value.text)];
          items := items + outcome.value.items;
        }
      }
      assert targets[..|targets|] == targets;
    }
  }

  /** workflowRunStatus: counts the failures in a loop. */
  method Status(results: seq<Reported>, fetchErrors: seq<string>, deliveryErrors: seq<string>)
    returns (status: RunStatus)
    ensures status == StatusFrom(CountFailed(results), |results|, fetchErrors, deliveryErrors)
  {
    var failures := 0;
    for i := 0 to |results|
      invariant failures == CountFailed(results[..i])
    {
      assert results[..i + 1][..i] == results[..i];
      if results[i].result.Failed? {
        failures := failures + 1;
      }
    }
    assert results[..|results|] == results;
    if failures == |results| && failures > 0 {
      return RunFailed;
    }
    if failures > 0 || fetchErrors != [] || deliveryErrors != [] {
      return RunDegraded;
    }
    return RunSucceeded;
  }
}
