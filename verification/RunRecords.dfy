/** What the record of a run holds: which targets, results, errors, items and texts, and in which order. */
module RunRecords {
  import opened Lists
  import opened WorkflowModel
  import opened ExecutorSpec
  import opened ExecutorInvariant
  import opened TriggerScope
  import opened Runs
  import opened Text

  // ----- Targets -----

  /** The run is manual, or a fired trigger reaches the node. */
  ghost predicate MayBeTarget(env: Env, id: string) {
    env.options.triggered == {} || InFiredReach(env, id)
  }

  ghost function IsOutput(env: Env): Node -> bool {
    (node: Node) => node.kind.WeCom? && MayBeTarget(env, node.id)
  }

  /** A node without outgoing edges that is no group, trigger, condition or window. */
  ghost function IsLeaf(env: Env): Node -> bool {
    (node: Node) =>
      && !node.kind.Group? && !node.kind.Timer? && !node.kind.StateChanged? && !node.kind.StateIs?
      && !node.kind.TimeWindow? && MayBeTarget(env, node.id)
      && !exists e :: e in env.workflow.edges && e.source == node.id
  }

  lemma LeafIff(env: Env, node: Node)
    requires ScopesAreReach(env)
    ensures IsLeaf(env)(node) <==>
            !CannotBeRunTarget(node.kind) && ShouldEvaluate(env, node.id)
            && OutgoingEdges(env.workflow.edges, node.id) == []
  {
    hide ScopesAreReach, ShouldEvaluate, InFiredReach;
    ShouldEvaluateIff(env, node.id);
    var outgoing := OutgoingEdges(env.workflow.edges, node.id);
    if outgoing != [] {
      assert outgoing[0] in outgoing;
    }
    if e :| e in env.workflow.edges && e.source == node.id {
      assert e in outgoing;
    }
  }

  lemma OutputIff(env: Env, node: Node)
    requires ScopesAreReach(env)
    ensures IsOutput(env)(node) <==> node.kind.WeCom? && ShouldEvaluate(env, node.id)
  {
    hide ScopesAreReach, ShouldEvaluate, InFiredReach;
    ShouldEvaluateIff(env, node.id);
  }

  lemma {:induction false} OutputsSelected(env: Env, nodes: seq<Node>)
    requires ScopesAreReach(env)
    ensures Selects(WeComTargets(env, nodes), nodes, IsOutput(env), (node: Node) => node.id)
  {
    hide ScopesAreReach, ShouldEvaluate, IsOutput;
    if nodes == [] {
      SelectsNothing(IsOutput(env), (node: Node) => node.id);
    } else {
      var front, last := nodes[..|nodes| - 1], nodes[|nodes| - 1];
      assert nodes == front + [last];
      OutputsSelected(env, front);
      OutputIff(env, last);
      SelectsNext(WeComTargets(env, front), front, last, IsOutput(env), (node: Node) => node.id);
    }
  }

  lemma {:induction false} LeavesSelected(env: Env, nodes: seq<Node>)
    requires ScopesAreReach(env)
    ensures Selects(LeafTargets(env, nodes), nodes, IsLeaf(env), (node: Node) => node.id)
  {
    hide ScopesAreReach, ShouldEvaluate, IsLeaf;
    if nodes == [] {
      SelectsNothing(IsLeaf(env), (node: Node) => node.id);
    } else {
      var front, last := nodes[..|nodes| - 1], nodes[|nodes| - 1];
      assert nodes == front + [last];
      LeavesSelected(env, front);
      LeafIff(env, last);
      SelectsNext(LeafTargets(env, front), front, last, IsLeaf(env), (node: Node) => node.id);
    }
  }

  /** The targets are the WeCom outputs that may take part, or if there are none the leaves that may, in the order of
      the workflow. */
  lemma TargetsAre(env: Env)
    requires ScopesAreReach(env)
    ensures Selects(TargetNodes(env), env.workflow.nodes,
                    if exists node :: node in env.workflow.nodes && IsOutput(env)(node) then IsOutput(env)
                    else IsLeaf(env),
                    (node: Node) => node.id)
  {
    hide ScopesAreReach, IsOutput, IsLeaf, WeComTargets, LeafTargets;
    var nodes := env.workflow.nodes;
    OutputsSelected(env, nodes);
    LeavesSelected(env, nodes);
    NothingSelectedIff(WeComTargets(env, nodes), nodes, IsOutput(env), (node: Node) => node.id);
  }

  // ----- Results and errors -----

  ghost function IsReported(results: map<string, NodeResult>): Node -> bool {
    (node: Node) => node.id in results
  }

  ghost function ReportOf(results: map<string, NodeResult>): Node -> Reported {
    (node: Node) => Reported(node.id, if node.id in results then results[node.id] else Succeeded)
  }

  lemma {:induction false} ReportedNext(nodes: seq<Node>, node: Node, results: map<string, NodeResult>)
    ensures ReportedResults(nodes + [node], results)
         == ReportedResults(nodes, results)
            + (if node.id in results then [Reported(node.id, results[node.id])] else [])
  {
    if nodes == [] {
      assert nodes + [node] == [node] && [node][1..] == [];
    } else {
      var all := nodes + [node];
      assert all[0] == nodes[0] && all[1..] == nodes[1..] + [node];
      ReportedNext(nodes[1..], node, results);
      var head := if nodes[0].id in results then [Reported(nodes[0].id, results[nodes[0].id])] else [];
      assert ReportedResults(all, results) == head + ReportedResults(all[1..], results);
    }
  }

  /** A run reports exactly the nodes that were evaluated, in the order of the workflow. */
  lemma {:induction false} ResultsAreInOrder(nodes: seq<Node>, results: map<string, NodeResult>)
    ensures Selects(ReportedResults(nodes, results), nodes, IsReported(results), ReportOf(results))
  {
    if nodes == [] {
      SelectsNothing(IsReported(results), ReportOf(results));
    } else {
      var front, last := nodes[..|nodes| - 1], nodes[|nodes| - 1];
      assert nodes == front + [last];
      ResultsAreInOrder(front, results);
      ReportedNext(front, last, results);
      hide ReportedResults;
      SelectsNext(ReportedResults(front, results), front, last, IsReported(results), ReportOf(results));
    }
  }

  /** No reply reports that something could not be fetched. */
  ghost predicate AllFetched(log: seq<Entry>) {
    forall i :: 0 <= i < |log| && (log[i].call.PollFeeds? || log[i].call.FetchWeather?) ==>
                  log[i].reply.fetchErrors == []
  }

  /** Every message that was sent was delivered. */
  ghost predicate AllDelivered(log: seq<Entry>) {
    forall i :: 0 <= i < |log| && log[i].call.SendWeCom? ==> log[i].reply.ok
  }

  lemma QuietNext(front: seq<Entry>, last: Entry)
    ensures AllFetched(front + [last]) <==>
            AllFetched(front) && (last.call.PollFeeds? || last.call.FetchWeather? ==> last.reply.fetchErrors == [])
    ensures AllDelivered(front + [last]) <==> AllDelivered(front) && (last.call.SendWeCom? ==> last.reply.ok)
  {
    var log := front + [last];
    assert log[|front|] == last;
    assert forall i :: 0 <= i < |front| ==> log[i] == front[i];
  }

  lemma {:induction false} ErrorsIff(log: seq<Entry>)
    ensures FetchErrorsOf(log) == [] <==> AllFetched(log)
    ensures DeliveryErrorsOf(log) == [] <==> AllDelivered(log)
  {
    if log != [] {
      var front, last := log[..|log| - 1], log[|log| - 1];
      ErrorsIff(front);
      assert log == front + [last];
      QuietNext(front, last);
      hide AllFetched, AllDelivered;
    }
  }

  /** A run succeeded exactly when every target succeeded and the world reported nothing that could not be fetched or
      delivered; it failed exactly when no evaluated node succeeded; otherwise it is degraded. */
  lemma StatusSays(env: Env, outcomes: seq<Outcome>)
    requires TargetNodes(env) != []
    ensures var s := FinalState(env);
            var run := RecordOf(env, s, outcomes);
            && (run.status.RunSucceeded? <==>
                (forall id :: id in TargetNodes(env) ==> id in s.cache) && AllFetched(s.log) && AllDelivered(s.log))
            && (run.status.RunFailed? <==>
                forall id :: IsNodeOf(env.workflow.nodes, id) && id in s.results ==> id !in s.cache)
            && run.fetchErrors == FetchErrorsOf(s.log) && run.deliveryErrors == DeliveryErrorsOf(s.log)
  {
    hide FinalState, TargetNodes, AllFetched, AllDelivered, ReportedResults, CountFailed, StatusFrom;
    FinalStateIsSound(env);
    StatusIsFaithful(env, outcomes);
    ErrorsIff(FinalState(env).log);
    assert ErrorsNoted(FinalState(env));
  }

  // ----- Texts and items -----

  /** One more text is added at the end if it is neither blank nor there already. */
  lemma {:induction false} UniqueNext(values: seq<string>, value: string, seen: set<string>)
    ensures var trimmed := TrimSpace(value);
            UniqueStrings(values + [value], seen)
            == UniqueStrings(values, seen)
               + (if trimmed == "" || trimmed in seen || trimmed in OrderedStrings(values) then [] else [trimmed])
  {
    hide TrimSpace;
    if values == [] {
      assert values + [value] == [value] && [value][1..] == [];
    } else {
      assert (values + [value])[1..] == values[1..] + [value];
      var head := TrimSpace(values[0]);
      UniqueNext(values[1..], value, if head == "" || head in seen then seen else seen + {head});
    }
  }

  /** The output text has every text of the outcomes that is not blank once, at its first place. */
  lemma {:induction false} UniqueTexts(values: seq<string>)
    ensures var unique := UniqueStrings(values, {});
            && (forall s :: s in unique <==> s in OrderedStrings(values))
            && forall i, j :: 0 <= i < j < |unique| ==> unique[i] != unique[j]
  {
    hide TrimSpace, UniqueStrings;
    if values == [] {
      NoUnique();
    } else {
      var front, last := values[..|values| - 1], values[|values| - 1];
      assert values == front + [last];
      UniqueTexts(front);
      UniqueNext(front, last, {});
      OrderedNext(front, last);
      var unique := UniqueStrings(front, {});
      assert forall i :: 0 <= i < |unique| ==> unique[i] in OrderedStrings(front);
    }
  }

  lemma NoUnique()
    ensures UniqueStrings([], {}) == []
  {
  }
}
