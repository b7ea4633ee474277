/** The breadth-first trigger scopes of internal/core/workflow/workflow_timer_scope.go: exactly reachability. */
module TriggerScope {
  import opened Graphs
  import opened WorkflowModel

  /** t is in the scope of x if and only if t is an autonomous trigger node from which x can be reached. */
  ghost predicate InScope(scopes: map<string, set<string>>, x: string, t: string) {
    x in scopes && t in scopes[x]
  }

  ghost predicate ScopesExact(nodes: map<string, Node>, triggers: set<string>, g: Graph,
                              scopes: map<string, set<string>>) {
    && (forall x, t :: InScope(scopes, x, t) <==>
                       t in triggers && t in nodes && IsAutonomousTrigger(nodes[t].kind) && Reach(g, t, x))
    && (forall x :: x in scopes ==> scopes[x] != {})
  }

  function OutgoingEdges(edges: seq<Edge>, source: string): (r: seq<Edge>)
    ensures forall e :: e in r <==> e in edges && e.source == source
  {
    if edges == [] then []
    else (if edges[0].source == source then [edges[0]] else []) + OutgoingEdges(edges[1..], source)
  }

  method BuildTriggerScopes(nodes: map<string, Node>, edges: seq<Edge>) returns (scopes: map<string, set<string>>)
    ensures ScopesExact(nodes, nodes.Keys, OutgoingGraph(edges), scopes)
  {
    scopes := map[];
    var remaining := nodes.Keys;
    while remaining != {}
      invariant remaining <= nodes.Keys
      invariant ScopesExact(nodes, nodes.Keys - remaining, OutgoingGraph(edges), scopes)
      decreases remaining
    {
      var nodeID :| nodeID in remaining;
      if IsAutonomousTrigger(nodes[nodeID].kind) {
        scopes := SpreadTrigger(edges, nodeID, scopes);
      }
      remaining := remaining - {nodeID};
    }
  }

  /** scopes[x][trigger] := {} of the Go code. */
  function AddToScope(scopes: map<string, set<string>>, x: string, trigger: string): (r: map<string, set<string>>)
    requires forall y :: y in scopes ==> scopes[y] != {}
    ensures forall y, t :: InScope(r, y, t) <==> InScope(scopes, y, t) || (y == x && t == trigger)
    ensures forall y :: y in r ==> r[y] != {}
  {
    scopes[x := (if x in scopes then scopes[x] else {}) + {trigger}]
  }

  /** Marks and queues the targets that were not seen yet, each once. */
  method QueueUnseen(outgoing: seq<Edge>, seen0: set<string>, queue0: seq<string>)
    returns (seen: set<string>, queue: seq<string>)
    ensures seen == seen0 + set e | e in outgoing :: e.target
    ensures seen == seen0 ==> queue == queue0
    ensures forall x :: x in queue <==> x in queue0 || x in seen - seen0
  {
    seen, queue := seen0, queue0;
    for i := 0 to |outgoing|
      invariant seen == seen0 + set e | e in outgoing[..i] :: e.target
      invariant seen == seen0 ==> queue == queue0
      invariant forall x :: x in queue <==> x in queue0 || x in seen - seen0
    {
      var target := outgoing[i].target;
      assert outgoing[..i + 1] == outgoing[..i] + [outgoing[i]];
      if target !in seen {
        seen := seen + {target};
        queue := queue + [target];
      }
    }
    assert outgoing[..|outgoing|] == outgoing;
  }

  ghost predicate SuccessorsSeen(edges: seq<Edge>, visited: set<string>, seen: set<string>) {
    forall e :: e in edges && e.source in visited ==> e.target in seen
  }

  ghost predicate AllReached(edges: seq<Edge>, trigger: string, seen: set<string>) {
    forall x :: x in seen ==> Reach(OutgoingGraph(edges), trigger, x)
  }

  lemma TargetsOfOutgoing(edges: seq<Edge>, source: string)
    ensures (set e | e in OutgoingEdges(edges, source) :: e.target) == TargetsOf(edges, source)
    ensures TargetsOf(edges, source) <= set e | e in edges :: e.target
  {
  }

  lemma TargetsAreReached(edges: seq<Edge>, trigger: string, current: string, seen: set<string>)
    requires AllReached(edges, trigger, seen) && current in seen
    ensures AllReached(edges, trigger, seen + TargetsOf(edges, current))
  {
    var g := OutgoingGraph(edges);
    forall e | e in edges && e.source == current
      ensures Reach(g, trigger, e.target)
    {
      ReachAppend(g, trigger, current, e.target);
    }
  }

  lemma TargetsAreSeen(edges: seq<Edge>, visited: set<string>, seen: set<string>, current: string)
    requires SuccessorsSeen(edges, visited, seen)
    ensures SuccessorsSeen(edges, visited + {current}, seen + TargetsOf(edges, current))
  {
  }

  lemma SeenIsReach(edges: seq<Edge>, trigger: string, seen: set<string>)
    requires trigger in seen && SuccessorsSeen(edges, seen, seen) && AllReached(edges, trigger, seen)
    ensures forall x :: x in seen <==> Reach(OutgoingGraph(edges), trigger, x)
  {
    var g := OutgoingGraph(edges);
    forall x | Reach(g, trigger, x)
      ensures x in seen
    {
      ClosedContainsReach(g, seen, trigger, x);
    }
  }

  /** One breadth-first search: adds the trigger to the scope of everything it reaches, on any graph. */
  method SpreadTrigger(edges: seq<Edge>, trigger: string, before: map<string, set<string>>)
    returns (scopes: map<string, set<string>>)
    requires forall x :: x in before ==> before[x] != {}
    ensures forall x, t :: InScope(scopes, x, t) <==>
                           InScope(before, x, t) || (t == trigger && Reach(OutgoingGraph(edges), trigger, x))
    ensures forall x :: x in scopes ==> scopes[x] != {}
  {
    hide OutgoingGraph, InScope;
    ghost var universe := {trigger} + set e | e in edges :: e.target;
    ghost var visited: set<string> := {};
    scopes := before;
    var queue, seen := [trigger], {trigger};
    ReachSelf(OutgoingGraph(edges), trigger);
    assert AllReached(edges, trigger, seen) && SuccessorsSeen(edges, visited, seen);
    assert Pending(seen, visited, queue) && Spread(scopes, before, trigger, visited);
    hide Reach, AllReached, SuccessorsSeen, Pending, Spread, TargetsOf;
    while queue != []
      invariant trigger in seen && seen <= universe
      invariant Pending(seen, visited, queue)
      invariant AllReached(edges, trigger, seen) && SuccessorsSeen(edges, visited, seen)
      invariant Spread(scopes, before, trigger, visited)
      invariant forall x :: x in scopes ==> scopes[x] != {}
      decreases |universe - seen|, |queue|
    {
      var current := queue[0];
      SpreadStep(scopes, before, trigger, visited, current);
      scopes := AddToScope(scopes, current, trigger);
      var outgoing := OutgoingEdges(edges, current);
      assert current in seen by {
        PendingIsSeen(seen, visited, queue);
      }
      TargetsAreReached(edges, trigger, current, seen);
      TargetsAreSeen(edges, visited, seen, current);
      TargetsOfOutgoing(edges, current);
      ghost var seen0, queue0 := seen, queue;
      seen, queue := QueueUnseen(outgoing, seen, queue[1..]);
      PendingStep(seen0, visited, queue0, seen, queue);
      visited := visited + {current};
      FewerUnseen(universe, seen0, seen);
    }
    assert seen == visited by {
      AllVisited(seen, visited);
    }
    SeenIsReach(edges, trigger, seen);
    assert forall x, t :: InScope(scopes, x, t) <==> InScope(before, x, t) || (t == trigger && x in visited) by {
      SpreadMeans(scopes, before, trigger, visited);
    }
  }

  /** Every seen node was visited or is queued. */
  ghost predicate Pending(seen: set<string>, visited: set<string>, queue: seq<string>) {
    forall x :: x in seen <==> x in visited || x in queue
  }

  lemma PendingStep(seen0: set<string>, visited: set<string>, queue0: seq<string>, seen: set<string>,
                    queue: seq<string>)
    requires Pending(seen0, visited, queue0) && queue0 != [] && seen0 <= seen
    requires forall x :: x in queue <==> x in queue0[1..] || x in seen - seen0
    ensures Pending(seen, visited + {queue0[0]}, queue)
  {
    assert queue0 == [queue0[0]] + queue0[1..];
  }

  lemma PendingIsSeen(seen: set<string>, visited: set<string>, queue: seq<string>)
    requires Pending(seen, visited, queue) && queue != []
    ensures queue[0] in seen
  {
  }

  lemma AllVisited(seen: set<string>, visited: set<string>)
    requires Pending(seen, visited, [])
    ensures seen == visited
  {
  }

  /** The trigger was added to the scopes of the visited nodes, and nothing else. */
  ghost predicate Spread(scopes: map<string, set<string>>, before: map<string, set<string>>, trigger: string,
                         visited: set<string>) {
    forall x, t :: InScope(scopes, x, t) <==> InScope(before, x, t) || (t == trigger && x in visited)
  }

  lemma SpreadStep(scopes: map<string, set<string>>, before: map<string, set<string>>, trigger: string,
                   visited: set<string>, x: string)
    requires Spread(scopes, before, trigger, visited) && forall y :: y in scopes ==> scopes[y] != {}
    ensures Spread(AddToScope(scopes, x, trigger), before, trigger, visited + {x})
  {
    hide InScope;
  }

  lemma SpreadMeans(scopes: map<string, set<string>>, before: map<string, set<string>>, trigger: string,
                    visited: set<string>)
    requires Spread(scopes, before, trigger, visited)
    ensures forall x, t :: InScope(scopes, x, t) <==> InScope(before, x, t) || (t == trigger && x in visited)
  {
  }

  lemma FewerUnseen(universe: set<string>, seen0: set<string>, seen: set<string>)
    requires seen0 <= seen <= universe
    ensures |universe - seen| <= |universe - seen0|
    ensures seen != seen0 ==> |universe - seen| < |universe - seen0|
  {
    assert universe - seen0 == (universe - seen) + (seen - seen0);
  }
}
