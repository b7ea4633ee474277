/** Where "blocked by timer" comes from: only from a feed node that waits for its trigger. */
module TimerBlocks {
  import opened Outcomes
  import opened Graphs
  import opened WorkflowModel
  import opened NodeRules
  import opened ExecutorSpec
  import opened ExecutorInvariant
  import opened Text

  predicate ByTimer(value: Value) {
    value.blocked && value.blockedByTimer
  }

  ghost predicate SomeTimerBlock(inputs: seq<Inputs>) {
    exists i :: 0 <= i < |inputs| && inputs[i].blockedByTimer > 0
  }

  // ----- The rules of single nodes -----

  lemma DecidedTimerBlocks(env: Env, node: Node, inputs: seq<Inputs>)
    requires PreCheck(env, node.kind).None? && |inputs| == |Handles(node.kind)|
    requires Decide(env, node, inputs).Done? && ByTimer(Decide(env, node, inputs).value)
    ensures if node.kind.Rss? then Incoming(env, node.id, "trigger") != [] && inputs[0].triggers == 0
            else SomeTimerBlock(inputs)
  {
    hide JoinOrdered, LlmPrompt, IncomingByHandle, WindowMatches;
  }

  lemma FinishedTimerBlocks(env: Env, node: Node, inputs: seq<Inputs>, reply: Reply)
    requires PreCheck(env, node.kind).None? && |inputs| == |Handles(node.kind)| && Decide(env, node, inputs).Ask?
    requires Finish(env, node, inputs, reply).Ok? && ByTimer(Finish(env, node, inputs, reply).value)
    ensures !node.kind.Rss? && SomeTimerBlock(inputs)
  {
    hide JoinOrdered, LlmPrompt, IncomingByHandle, WindowMatches;
  }

  // ----- From inputs to dependencies -----

  lemma {:induction false} FoldCountsTimerBlocks(env: Env, values: map<string, Value>, edges: seq<Edge>, inputs: Inputs)
    requires CollectedSources(env, edges) <= values.Keys
    ensures FoldInputs(env, values, edges, inputs).blockedByTimer > 0 <==>
            inputs.blockedByTimer > 0 || exists d :: d in CollectedSources(env, edges) && ByTimer(values[d])
  {
    if edges != [] {
      var source := edges[0].source;
      assert CollectedSources(env, edges)
             == CollectedSources(env, edges[1..]) + (if ShouldCollect(env, source) then {source} else {}) by {
        assert edges[0] in edges;
      }
      FoldCountsTimerBlocks(env, values, edges[1..],
                            if ShouldCollect(env, source) then Accumulate(inputs, values[source]) else inputs);
    }
  }

  lemma {:induction false} HandlesCountTimerBlocks(env: Env, values: map<string, Value>, id: string,
                                                   handles: seq<string>)
    requires HandleSources(env, id, handles) <= values.Keys
    requires SomeTimerBlock(HandleInputs(env, values, id, handles))
    ensures exists d :: d in HandleSources(env, id, handles) && ByTimer(values[d])
  {
    hide ShouldCollect;
    var inputs := HandleInputs(env, values, id, handles);
    var i :| 0 <= i < |inputs| && inputs[i].blockedByTimer > 0;
    FoldCountsTimerBlocks(env, values, Incoming(env, id, handles[0]), NO_INPUTS);
    if i > 0 {
      assert HandleInputs(env, values, id, handles[1..])[i - 1].blockedByTimer > 0;
      HandlesCountTimerBlocks(env, values, id, handles[1..]);
    }
  }

  // ----- In every reachable state -----

  /** The feed node has trigger edges, and no trigger came along them. */
  ghost predicate WaitsForTrigger(env: Env, values: map<string, Value>, id: string)
    requires Ready(env, values, id)
  {
    && env.Nodes()[id].kind.Rss? && Incoming(env, id, "trigger") != []
    && InputsOf(env, values, id)[0].triggers == 0
  }

  /** A node blocked by timer is a feed node waiting for its trigger, or passes on the mark of a dependency. */
  lemma TimerBlockStep(env: Env, s: State, id: string, roots: set<string>)
    requires Invariant(env, s, roots) && id in s.cache && ByTimer(s.cache[id])
    ensures Ready(env, s.cache, id)
    ensures if env.Nodes()[id].kind.Rss? then WaitsForTrigger(env, s.cache, id)
            else exists d :: d in Deps(env, id) && ByTimer(s.cache[d])
  {
    hide Decide, Finish, HandleInputs, HandleSources;
    assert ValueJustified(env, s.cache, s.log, id);
    var node, inputs := env.Nodes()[id], InputsOf(env, s.cache, id);
    if DecisionOf(env, s.cache, id).Ask? {
      var i :| 0 <= i < |s.log| && s.log[i].node == id && CallJustified(env, s.cache, s.log[i])
               && FinishOf(env, s.cache, s.log[i]) == Ok(s.cache[id]);
      FinishedTimerBlocks(env, node, inputs, s.log[i].reply);
    } else {
      DecidedTimerBlocks(env, node, inputs);
    }
    if !node.kind.Rss? {
      HandlesCountTimerBlocks(env, s.cache, id, Handles(node.kind));
    }
  }

  /** A waiting feed node has polled nothing. */
  lemma WaitingFeedsAreNotPolled(env: Env, s: State, id: string, i: nat, roots: set<string>)
    requires Invariant(env, s, roots) && Ready(env, s.cache, id) && WaitsForTrigger(env, s.cache, id) && i < |s.log|
    ensures s.log[i].node != id
  {
    hide InputsOf;
  }

  /** A feed node in the cone of id that waits for its trigger and has polled nothing. */
  ghost predicate IsWaitingFeedOf(env: Env, s: State, id: string, f: string) {
    && InCone(env, id, f) && Ready(env, s.cache, f) && WaitsForTrigger(env, s.cache, f)
    && forall i :: 0 <= i < |s.log| ==> s.log[i].node != f
  }

  lemma {:induction false} FindWaitingFeed(env: Env, s: State, id: string, roots: set<string>, k: nat)
    returns (f: string)
    requires Invariant(env, s, roots) && id in s.cache && ByTimer(s.cache[id]) && Grounded(env, id, k)
    ensures IsWaitingFeedOf(env, s, id, f)
    decreases k
  {
    hide Invariant, ByTimer, WaitsForTrigger, DependencyGraph, Reach;
    TimerBlockStep(env, s, id, roots);
    if env.Nodes()[id].kind.Rss? {
      f := id;
      ReachSelf(DependencyGraph(env), id);
      forall i | 0 <= i < |s.log|
        ensures s.log[i].node != id
      {
        WaitingFeedsAreNotPolled(env, s, id, i, roots);
      }
    } else {
      var d :| d in Deps(env, id) && ByTimer(s.cache[d]);
      f := FindWaitingFeed(env, s, d, roots, k - 1);
      ReachPrepend(DependencyGraph(env), id, d, f);
    }
  }

  /** In every reachable state, a node blocked by timer depends, directly or not, on a feed node that waits for its
      trigger and has polled nothing. */
  lemma BlockedByTimerHasOrigin(env: Env, s: State, id: string, roots: set<string>)
    requires Invariant(env, s, roots) && id in s.cache && ByTimer(s.cache[id])
    ensures exists f :: IsWaitingFeedOf(env, s, id, f)
  {
    hide Grounded, IsWaitingFeedOf;
    var k: nat :| AllGrounded(env, s.cache.Keys, k);
    assert Grounded(env, id, k);
    var f := FindWaitingFeed(env, s, id, roots, k);
  }
}
