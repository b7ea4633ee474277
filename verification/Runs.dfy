/** Whole runs: targets, status and record (runWorkflow and workflowRunStatus), with what a run guarantees. */
module Runs {
  import opened Graphs
  import opened WorkflowModel
  import opened NodeRules
  import opened ExecutorSpec
  import opened ExecutorInvariant
  import opened TriggerScope
  import opened Lists
  import Text

  // ----- Targets -----

  function WeComTargets(env: Env, nodes: seq<Node>): seq<string> {
    if nodes == [] then []
    else
      var last := nodes[|nodes| - 1];
      WeComTargets(env, nodes[..|nodes| - 1])
      + (if last.kind.WeCom? && ShouldEvaluate(env, last.id) then [last.id] else [])
  }

  function LeafTargets(env: Env, nodes: seq<Node>): seq<string> {
    if nodes == [] then []
    else
      var last := nodes[|nodes| - 1];
      LeafTargets(env, nodes[..|nodes| - 1])
      + (if !CannotBeRunTarget(last.kind) && ShouldEvaluate(env, last.id)
            && OutgoingEdges(env.workflow.edges, last.id) == []
         then [last.id] else [])
  }

  /** The WeCom outputs taking part, or else the leaves taking part. */
  function TargetNodes(env: Env): seq<string> {
    var outputs := WeComTargets(env, env.workflow.nodes);
    if outputs != [] then outputs else LeafTargets(env, env.workflow.nodes)
  }

  ghost predicate IsNodeOf(nodes: seq<Node>, id: string) {
    exists node :: node in nodes && node.id == id
  }

  lemma {:induction false} WeComTargetsTakePart(env: Env, nodes: seq<Node>)
    ensures forall id :: id in WeComTargets(env, nodes) ==> ShouldEvaluate(env, id) && IsNodeOf(nodes, id)
  {
    if nodes != [] {
      var front, last := nodes[..|nodes| - 1], nodes[|nodes| - 1];
      WeComTargetsTakePart(env, front);
      assert last in nodes;
      forall id | IsNodeOf(front, id) ensures IsNodeOf(nodes, id) {}
    }
  }

  lemma {:induction false} LeafTargetsTakePart(env: Env, nodes: seq<Node>)
    ensures forall id :: id in LeafTargets(env, nodes) ==> ShouldEvaluate(env, id) && IsNodeOf(nodes, id)
  {
    if nodes != [] {
      var front, last := nodes[..|nodes| - 1], nodes[|nodes| - 1];
      LeafTargetsTakePart(env, front);
      assert last in nodes;
      forall id | IsNodeOf(front, id) ensures IsNodeOf(nodes, id) {}
    }
  }

  lemma TargetsTakePart(env: Env)
    ensures forall id :: id in TargetNodes(env) ==> ShouldEvaluate(env, id) && IsNodeOf(env.workflow.nodes, id)
  {
    WeComTargetsTakePart(env, env.workflow.nodes);
    LeafTargetsTakePart(env, env.workflow.nodes);
  }

  // ----- The record of a run -----

  datatype RunStatus = RunSucceeded | RunDegraded | RunFailed

  datatype Reported = Reported(id: string, result: NodeResult)

  /** The node results in the order of the workflow's nodes. */
  function ReportedResults(nodes: seq<Node>, results: map<string, NodeResult>): seq<Reported> {
    if nodes == [] then []
    else (if nodes[0].id in results then [Reported(nodes[0].id, results[nodes[0].id])] else [])
         + ReportedResults(nodes[1..], results)
  }

  function CountFailed(results: seq<Reported>): (n: nat)
    ensures n <= |results|
  {
    if results == [] then 0
    else CountFailed(results[..|results| - 1]) + (if results[|results| - 1].result.Failed? then 1 else 0)
  }

  function StatusFrom(failures: nat, total: nat, fetchErrors: seq<string>, deliveryErrors: seq<string>): RunStatus {
    if failures == total && failures > 0 then RunFailed
    else if failures > 0 || fetchErrors != [] || deliveryErrors != [] then RunDegraded
    else RunSucceeded
  }

  datatype RunRecord = RunRecord(items: seq<Item>, results: seq<Reported>, fetchErrors: seq<string>,
                                 deliveryErrors: seq<string>, outputText: string, status: RunStatus)

  function UniqueStrings(values: seq<string>, seen: set<string>): seq<string> {
    if values == [] then []
    else
      var head := Text.TrimSpace(values[0]);
      if head == "" || head in seen then UniqueStrings(values[1..], seen)
      else [head] + UniqueStrings(values[1..], seen + {head})
  }

  function OutcomeTexts(outcomes: seq<Outcome>): seq<string> {
    if outcomes == [] then []
    else OutcomeTexts(outcomes[..|outcomes| - 1])
         + (match outcomes[|outcomes| - 1] case Ok(v) => [Text.TrimSpace(v.text)] case Err(_) => [])
  }

  function OutcomeItems(outcomes: seq<Outcome>): seq<Item> {
    if outcomes == [] then []
    else OutcomeItems(outcomes[..|outcomes| - 1])
         + (match outcomes[|outcomes| - 1] case Ok(v) => v.items case Err(_) => [])
  }

  const ITEM_LIMIT := 30

  function RecordOf(env: Env, s: State, outcomes: seq<Outcome>): RunRecord {
    var results := ReportedResults(env.workflow.nodes, s.results);
    RunRecord(Truncate(OutcomeItems(outcomes), ITEM_LIMIT), results, s.fetchErrors, s.deliveryErrors,
              Text.Join(UniqueStrings(OutcomeTexts(outcomes), {}), "\n\n"),
              StatusFrom(CountFailed(results), |results|, s.fetchErrors, s.deliveryErrors))
  }

  /** The final state of a run on the given targets. */
  function FinalState(env: Env): State {
    EvaluateAll(env, INITIAL, TargetNodes(env)).0
  }

  ghost function TargetSet(env: Env): set<string> {
    set id | id in TargetNodes(env)
  }

  lemma FinalStateIsSound(env: Env)
    ensures Invariant(env, FinalState(env), TargetSet(env)) && FinalState(env).active == {}
    ensures forall id :: id in TargetNodes(env) ==> id in FinalState(env).results
    ensures ResultsFaithful(FinalState(env).cache, FinalState(env).results)
    ensures forall id :: id in FinalState(env).results ==> FromRoots(env, TargetSet(env), id)
  {
    hide Evaluate, TargetNodes;
    InitialInvariant(env, TargetSet(env));
    EvaluateAllKeeps(env, INITIAL, TargetNodes(env), TargetSet(env));
  }

  // ----- Status -----

  lemma {:induction false} ReportedAre(nodes: seq<Node>, results: map<string, NodeResult>)
    ensures forall r :: r in ReportedResults(nodes, results) <==>
                        IsNodeOf(nodes, r.id) && r.id in results && results[r.id] == r.result
  {
    if nodes != [] {
      ReportedAre(nodes[1..], results);
      forall id
        ensures IsNodeOf(nodes, id) <==> id == nodes[0].id || IsNodeOf(nodes[1..], id)
      {
        if IsNodeOf(nodes, id) && id != nodes[0].id {
          var node :| node in nodes && node.id == id;
          assert node in nodes[1..];
        }
        assert nodes[0] in nodes;
      }
    }
  }

  lemma {:induction false} CountFailedIs(results: seq<Reported>)
    ensures CountFailed(results) == 0 <==> forall r :: r in results ==> !r.result.Failed?
    ensures CountFailed(results) == |results| <==> forall r :: r in results ==> r.result.Failed?
  {
    if results != [] {
      CountFailedIs(results[..|results| - 1]);
      assert results == results[..|results| - 1] + [results[|results| - 1]];
    }
  }

  /** The cone of a cached node is cached. */
  lemma CachedConeIsCached(env: Env, s: State, roots: set<string>, id: string, x: string)
    requires Invariant(env, s, roots) && id in s.cache && InCone(env, id, x)
    ensures x in s.cache
  {
    forall c | c in s.cache
      ensures Succ(DependencyGraph(env), c) <= s.cache.Keys
    {
      assert ValueJustified(env, s.cache, s.log, c);
    }
    ClosedContainsReach(DependencyGraph(env), s.cache.Keys, id, x);
  }

  /** Every target succeeded if and only if no node anywhere is reported failed. */
  lemma FailuresShowInTargets(env: Env)
    ensures var s := FinalState(env);
            (forall id :: id in TargetNodes(env) ==> id in s.cache)
            <==> (forall id :: IsNodeOf(env.workflow.nodes, id) && id in s.results ==> s.results[id].Succeeded?)
  {
    hide Invariant, FinalState, TargetNodes, InCone;
    var s, roots := FinalState(env), TargetSet(env);
    FinalStateIsSound(env);
    TargetsTakePart(env);
    if forall id :: id in TargetNodes(env) ==> id in s.cache {
      forall id | id in s.results
        ensures id in s.cache
      {
        assert FromRoots(env, roots, id);
        var t :| t in roots && InCone(env, t, id);
        CachedConeIsCached(env, s, roots, t, id);
      }
    }
  }

  /** The status of a run is faithful: "succeeded" exactly when every target succeeded and nothing failed to be
      fetched or delivered, "failed" exactly when no evaluated node succeeded; and a node is reported succeeded
      exactly when it has a cached value. */
  lemma StatusIsFaithful(env: Env, outcomes: seq<Outcome>)
    requires TargetNodes(env) != []
    ensures var s := FinalState(env);
            var run := RecordOf(env, s, outcomes);
            && (run.status.RunSucceeded? <==>
                (forall id :: id in TargetNodes(env) ==> id in s.cache)
                && s.fetchErrors == [] && s.deliveryErrors == [])
            && (run.status.RunFailed? <==>
                forall id :: IsNodeOf(env.workflow.nodes, id) && id in s.results ==> id !in s.cache)
            && (forall r :: r in run.results ==> (r.result.Succeeded? <==> r.id in s.cache))
  {
    hide *;
    var s := FinalState(env);
    FinalStateIsSound(env);
    TargetsTakePart(env);
    FailuresShowInTargets(env);
    var target := TargetNodes(env)[0];
    StatusOfReports(env.workflow.nodes, s, target);
    RecordHasStatus(env, s, outcomes);
  }

  lemma RecordHasStatus(env: Env, s: State, outcomes: seq<Outcome>)
    ensures var run := RecordOf(env, s, outcomes);
            && run.results == ReportedResults(env.workflow.nodes, s.results)
            && run.status == StatusFrom(CountFailed(run.results), |run.results|, s.fetchErrors, s.deliveryErrors)
  {
    hide OutcomeTexts, OutcomeItems, UniqueStrings, ReportedResults, CountFailed, StatusFrom;
  }

  /** The status in terms of the reported nodes, at least one of which exists. */
  lemma StatusOfReports(nodes: seq<Node>, s: State, some: string)
    requires ResultsFaithful(s.cache, s.results) && IsNodeOf(nodes, some) && some in s.results
    ensures var results := ReportedResults(nodes, s.results);
            var status := StatusFrom(CountFailed(results), |results|, s.fetchErrors, s.deliveryErrors);
            && (status.RunSucceeded? <==>
                (forall id :: IsNodeOf(nodes, id) && id in s.results ==> s.results[id].Succeeded?)
                && s.fetchErrors == [] && s.deliveryErrors == [])
            && (status.RunFailed? <==> forall id :: IsNodeOf(nodes, id) && id in s.results ==> id !in s.cache)
            && (forall r :: r in results ==> (r.result.Succeeded? <==> r.id in s.cache))
  {
    hide ReportedResults, CountFailed;
    var results := ReportedResults(nodes, s.results);
    ReportedAre(nodes, s.results);
    CountFailedIs(results);
    assert Reported(some, s.results[some]) in results;
    forall id | IsNodeOf(nodes, id) && id in s.results
      ensures Reported(id, s.results[id]) in results
    {
    }
  }

  // ----- At most one delivery -----

  /** In a whole run, whatever the world answers, a WeCom or command node has at most one accepted delivery, and
      exactly one if and only if it is reported succeeded with an unblocked value. */
  lemma DeliveriesAreSingle(env: Env, id: string)
    requires id in env.Nodes() && Delivers(env.Nodes()[id].kind)
    ensures var s := FinalState(env);
            && Accepted(s.log, id) <= 1
            && (Accepted(s.log, id) == 1 <==>
                id in s.results && s.results[id].Succeeded? && id in s.cache && !s.cache[id].blocked)
  {
    FinalStateIsSound(env);
    var s := FinalState(env);
    assert DeliveredOnce(env, s.cache, s.log) && ResultsFaithful(s.cache, s.results);
  }

  // ----- Triggered runs -----

  ghost predicate ScopesAreReach(env: Env) {
    ScopesExact(env.Nodes(), env.Nodes().Keys, OutgoingGraph(env.workflow.edges), env.scopes)
  }

  /** x is reachable along edges from a fired trigger. */
  ghost predicate InFiredReach(env: Env, x: string) {
    exists t :: t in env.options.triggered && TriggerReaches(env, t, x)
  }

  ghost predicate TriggerReaches(env: Env, t: string, x: string) {
    && t in env.Nodes() && Reach(OutgoingGraph(env.workflow.edges), t, x)
    && (env.Nodes()[t].kind.Timer? || env.Nodes()[t].kind.StateChanged? || env.Nodes()[t].kind.StateIs?)
  }

  lemma MatchingIsFiredReach(env: Env, x: string)
    requires ScopesAreReach(env)
    ensures MatchesTrigger(env, x) <==> InFiredReach(env, x)
    ensures HasTriggerScope(env, x) <==> exists t :: TriggerReaches(env, t, x)
  {
    assert forall t :: InScope(env.scopes, x, t) <==> TriggerReaches(env, t, x);
    if MatchesTrigger(env, x) {
      var t :| t in env.scopes[x] * env.options.triggered;
      assert InScope(env.scopes, x, t);
    }
    if InFiredReach(env, x) {
      var t :| t in env.options.triggered && TriggerReaches(env, t, x);
      assert InScope(env.scopes, x, t);
      assert t in env.scopes[x] * env.options.triggered;
    }
    if HasTriggerScope(env, x) {
      var t :| t in env.scopes[x];
      assert InScope(env.scopes, x, t);
    }
    if t :| TriggerReaches(env, t, x) {
      assert InScope(env.scopes, x, t);
    }
  }

  /** The nodes a triggered run may touch: forward of a fired trigger, or passive and forward of no trigger. */
  ghost predicate MayTakePart(env: Env, x: string) {
    InFiredReach(env, x) || (IsPassive(env, x) && !exists t :: TriggerReaches(env, t, x))
  }

  predicate IsPassive(env: Env, x: string) {
    x in env.Nodes()
    && (env.Nodes()[x].kind.TextBlock? || env.Nodes()[x].kind.Group? || env.Nodes()[x].kind.TimeWindow?)
  }

  /** A triggered run collects exactly the sources that may take part. */
  lemma CollectedMayTakePart(env: Env, x: string)
    requires ScopesAreReach(env) && env.options.triggered != {}
    ensures ShouldCollect(env, x) <==> MayTakePart(env, x)
  {
    MatchingIsFiredReach(env, x);
  }

  lemma {:induction false} HandleSourcesAreCollected(env: Env, id: string, handles: seq<string>)
    ensures forall d :: d in HandleSources(env, id, handles) ==> ShouldCollect(env, d)
  {
    if handles != [] {
      HandleSourcesAreCollected(env, id, handles[1..]);
    }
  }

  lemma ConeMayTakePart(env: Env, id: string, x: string)
    requires ScopesAreReach(env) && env.options.triggered != {} && MayTakePart(env, id) && InCone(env, id, x)
    ensures MayTakePart(env, x)
  {
    var p :| PathFromTo(DependencyGraph(env), p, id, x);
    if |p| > 1 {
      var before := p[|p| - 2];
      assert p[|p| - 2 + 1] in Succ(DependencyGraph(env), before);
      assert before in env.Nodes();
      HandleSourcesAreCollected(env, before, Handles(env.Nodes()[before].kind));
      CollectedMayTakePart(env, x);
    }
  }

  /** Passive nodes call nothing but the clock. */
  lemma PassiveNodesOnlyReadTheClock(env: Env, node: Node, inputs: seq<Inputs>)
    requires PreCheck(env, node.kind).None? && |inputs| == |Handles(node.kind)| && SupportsTriggeredRun(node.kind)
    ensures Decide(env, node, inputs).Ask? ==> Decide(env, node, inputs).call == ReadClock
  {
  }

  /** A triggered run stays with its trigger: every node it evaluates or reports is forward of a fired trigger, or
      a text, group or window node forward of no trigger at all; every poll, search, generation, command, agent
      call, device read and delivery is made by a node forward of a fired trigger. */
  lemma TriggeredRunStaysInReach(env: Env)
    requires ScopesAreReach(env) && env.options.triggered != {}
    ensures var s := FinalState(env);
            && (forall id :: id in s.results ==> MayTakePart(env, id))
            && (forall i :: 0 <= i < |s.log| ==>
                  MayTakePart(env, s.log[i].node) && (s.log[i].call != ReadClock ==> InFiredReach(env, s.log[i].node)))
  {
    hide Decide, MayTakePart, InFiredReach, TargetNodes, FinalState, InCone, ShouldEvaluate, ScopesAreReach;
    var s, roots := FinalState(env), TargetSet(env);
    FinalStateIsSound(env);
    TargetsTakePart(env);
    forall id | FromRoots(env, roots, id)
      ensures MayTakePart(env, id)
    {
      var t :| t in roots && InCone(env, t, id);
      ShouldEvaluateMayTakePart(env, t);
      ConeMayTakePart(env, t, id);
    }
    forall i | 0 <= i < |s.log| && s.log[i].call != ReadClock
      ensures InFiredReach(env, s.log[i].node)
    {
      var node := s.log[i].node;
      assert CallJustified(env, s.cache, s.log[i]);
      assert FromRoots(env, roots, node);
      CallersAreActiveKinds(env, s, i);
      UnfoldTakingPart(env, node);
    }
  }

  lemma ShouldEvaluateMayTakePart(env: Env, id: string)
    requires ScopesAreReach(env) && env.options.triggered != {} && ShouldEvaluate(env, id)
    ensures MayTakePart(env, id)
  {
    MatchingIsFiredReach(env, id);
  }

  lemma CallersAreActiveKinds(env: Env, s: State, i: nat)
    requires i < |s.log| && CallJustified(env, s.cache, s.log[i]) && s.log[i].call != ReadClock
    ensures !SupportsTriggeredRun(env.Nodes()[s.log[i].node].kind)
  {
    hide Decide;
    var id := s.log[i].node;
    if SupportsTriggeredRun(env.Nodes()[id].kind) {
      PassiveNodesOnlyReadTheClock(env, env.Nodes()[id], InputsOf(env, s.cache, id));
    }
  }

  /** The run is manual, or a fired trigger reaches the node. */
  lemma ShouldEvaluateIff(env: Env, id: string)
    requires ScopesAreReach(env)
    ensures ShouldEvaluate(env, id) <==> env.options.triggered == {} || InFiredReach(env, id)
  {
    MatchingIsFiredReach(env, id);
  }

  lemma UnfoldTakingPart(env: Env, id: string)
    requires MayTakePart(env, id) && id in env.Nodes() && !SupportsTriggeredRun(env.Nodes()[id].kind)
    ensures InFiredReach(env, id)
  {
  }
}
