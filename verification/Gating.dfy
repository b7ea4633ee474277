/**
  What makes a node act: polls need a fired trigger, gated actions need live input, and a manual run fires no
  autonomous trigger.
  */
module Gating {
  import opened WorkflowModel
  import opened NodeRules
  import opened ExecutorSpec
  import opened ExecutorInvariant
  import opened Text

  /** The value carries something besides blocking marks. */
  predicate Live(value: Value) {
    value.prompt != "" || value.text != "" || value.search.Some? || value.items != [] || value.triggered
  }

  predicate IsGatedAction(call: Call) {
    call.RunCommand? || call.CallAgent? || call.ReadDevice?
  }

  // ----- Inputs as facts about the collected sources -----

  lemma {:induction false} FoldIsLive(env: Env, values: map<string, Value>, edges: seq<Edge>, inputs: Inputs)
    requires CollectedSources(env, edges) <= values.Keys
    ensures var r := FoldInputs(env, values, edges, inputs);
            && (r.HasActiveContent() <==>
                inputs.HasActiveContent() || exists d :: d in CollectedSources(env, edges) && Live(values[d]))
            && (r.triggers > 0 <==>
                inputs.triggers > 0 || exists d :: d in CollectedSources(env, edges) && values[d].triggered)
  {
    if edges != [] {
      var source := edges[0].source;
      assert CollectedSources(env, edges)
             == CollectedSources(env, edges[1..]) + (if ShouldCollect(env, source) then {source} else {}) by {
        assert edges[0] in edges;
      }
      FoldIsLive(env, values, edges[1..],
                 if ShouldCollect(env, source) then Accumulate(inputs, values[source]) else inputs);
    }
  }

  /** Node types with one handle collect exactly their dependencies there. */
  lemma SingleHandle(env: Env, values: map<string, Value>, id: string)
    requires Ready(env, values, id) && |Handles(env.Nodes()[id].kind)| == 1
    ensures var handle := Handles(env.Nodes()[id].kind)[0];
            && Deps(env, id) == CollectedSources(env, Incoming(env, id, handle))
            && InputsOf(env, values, id) == [FoldInputs(env, values, Incoming(env, id, handle), NO_INPUTS)]
  {
    var handles := Handles(env.Nodes()[id].kind);
    assert handles == [handles[0]] && handles[1..] == [];
    assert HandleSources(env, id, handles[1..]) == {};
  }

  ghost predicate SomeDependency(env: Env, cache: map<string, Value>, id: string, p: Value -> bool)
    requires Deps(env, id) <= cache.Keys
  {
    exists d :: d in Deps(env, id) && p(cache[d])
  }

  // ----- The rules that ask for these calls -----

  lemma PollRule(env: Env, node: Node, inputs: seq<Inputs>)
    requires PreCheck(env, node.kind).None? && |inputs| == |Handles(node.kind)|
    requires Decide(env, node, inputs).Ask? && Decide(env, node, inputs).call.PollFeeds?
    ensures Handles(node.kind) == ["trigger"] && (Incoming(env, node.id, "trigger") == [] || inputs[0].triggers > 0)
  {
    hide JoinOrdered, LlmPrompt, IncomingByHandle;
  }

  lemma ActionRule(env: Env, node: Node, inputs: seq<Inputs>)
    requires PreCheck(env, node.kind).None? && |inputs| == |Handles(node.kind)|
    requires Decide(env, node, inputs).Ask? && IsGatedAction(Decide(env, node, inputs).call)
    ensures Handles(node.kind) == [""] && (Incoming(env, node.id, "") == [] || inputs[0].HasActiveContent())
  {
    hide JoinOrdered, LlmPrompt, IncomingByHandle;
  }

  lemma MessageRule(env: Env, node: Node, inputs: seq<Inputs>)
    requires PreCheck(env, node.kind).None? && |inputs| == |Handles(node.kind)|
    requires Decide(env, node, inputs).Ask? && Decide(env, node, inputs).call.SendWeCom?
    ensures TrimSpace(Decide(env, node, inputs).call.message) != "" && Decide(env, node, inputs).call.toUser != ""
    ensures Handles(node.kind) == [""] && Decide(env, node, inputs).call.message == JoinOrdered(inputs[0].texts)
  {
    hide JoinOrdered, LlmPrompt, IncomingByHandle;
  }

  // ----- In every reachable state -----

  /** In every reachable state: a feed was polled only by a node without trigger edges or with a fired trigger among
      its dependencies. */
  lemma PollsNeedATrigger(env: Env, s: State, i: nat, roots: set<string>)
    requires Invariant(env, s, roots) && i < |s.log| && s.log[i].call.PollFeeds?
    ensures var id := s.log[i].node;
            Ready(env, s.cache, id)
            && (Incoming(env, id, "trigger") == [] || SomeDependency(env, s.cache, id, (v: Value) => v.triggered))
  {
    hide Decide, FoldInputs, Incoming, CollectedSources, HandleSources;
    assert CallJustified(env, s.cache, s.log[i]);
    var id := s.log[i].node;
    PollRule(env, env.Nodes()[id], InputsOf(env, s.cache, id));
    SingleHandle(env, s.cache, id);
    FoldIsLive(env, s.cache, Incoming(env, id, "trigger"), NO_INPUTS);
  }

  /** In every reachable state: a command was run, the agent called or a device read only by a node without incoming
      edges or with live input. */
  lemma ActionsNeedLiveInput(env: Env, s: State, i: nat, roots: set<string>)
    requires Invariant(env, s, roots) && i < |s.log| && IsGatedAction(s.log[i].call)
    ensures var id := s.log[i].node;
            Ready(env, s.cache, id)
            && (Incoming(env, id, "") == [] || SomeDependency(env, s.cache, id, (v: Value) => Live(v)))
  {
    hide Decide, FoldInputs, Incoming, CollectedSources, HandleSources;
    assert CallJustified(env, s.cache, s.log[i]);
    var id := s.log[i].node;
    ActionRule(env, env.Nodes()[id], InputsOf(env, s.cache, id));
    SingleHandle(env, s.cache, id);
    FoldIsLive(env, s.cache, Incoming(env, id, ""), NO_INPUTS);
  }

  /** Messages are sent only with text, and no blank message is sent. */
  lemma MessagesAreNotBlank(env: Env, s: State, i: nat, roots: set<string>)
    requires Invariant(env, s, roots) && i < |s.log| && s.log[i].call.SendWeCom?
    ensures TrimSpace(s.log[i].call.message) != "" && s.log[i].call.toUser != ""
  {
    hide Decide, FoldInputs, Incoming, CollectedSources, HandleSources;
    assert CallJustified(env, s.cache, s.log[i]);
    var id := s.log[i].node;
    MessageRule(env, env.Nodes()[id], InputsOf(env, s.cache, id));
  }

  /** In a run no trigger fired: timers and state-change triggers give no signal and no text. */
  lemma ManualRunFiresNoTrigger(env: Env, s: State, id: string, roots: set<string>)
    requires Invariant(env, s, roots) && id in s.cache && env.options.triggered == {}
    requires env.Nodes()[id].kind.Timer? || env.Nodes()[id].kind.StateChanged?
    ensures !Live(s.cache[id])
  {
    hide JoinOrdered, LlmPrompt, IncomingByHandle;
    assert ValueJustified(env, s.cache, s.log, id);
  }

  /** So in a manual run a feed node fed by nothing but such triggers is never polled, and a command or agent node fed
      by nothing but such triggers never acts. */
  lemma ManualRunLeavesTriggeredActionsAlone(env: Env, s: State, i: nat, roots: set<string>)
    requires Invariant(env, s, roots) && i < |s.log| && env.options.triggered == {}
    requires s.log[i].call.PollFeeds? || IsGatedAction(s.log[i].call)
    requires var id := s.log[i].node; Incoming(env, id, if s.log[i].call.PollFeeds? then "trigger" else "") != []
    ensures exists d :: d in Deps(env, s.log[i].node)
                        && !(d in env.Nodes() && (env.Nodes()[d].kind.Timer? || env.Nodes()[d].kind.StateChanged?))
  {
    hide Invariant, IncomingByHandle, Deps;
    var id := s.log[i].node;
    if s.log[i].call.PollFeeds? {
      PollsNeedATrigger(env, s, i, roots);
    } else {
      ActionsNeedLiveInput(env, s, i, roots);
    }
    var d :| d in Deps(env, id) && Live(s.cache[d]);
    if d in env.Nodes() && (env.Nodes()[d].kind.Timer? || env.Nodes()[d].kind.StateChanged?) {
      ManualRunFiresNoTrigger(env, s, d, roots);
      assert false;
    }
  }
}
