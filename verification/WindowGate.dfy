/**
  The time windows around a trigger (internal/core/workflow/workflow_trigger_window_gates.go) and why a job that
  passed them is not stopped by them later.
  */
module WindowGate {
  import opened Outcomes
  import opened WorkflowModel
  import opened TimeSchedule
  import opened NodeRules
  import opened ExecutorSpec
  import opened ExecutorInvariant
  import opened Suppression

  function PeerSources(edges: seq<Edge>, target: string): set<string> {
    set e | e in edges && e.target == target :: e.source
  }

  /** The nodes one edge puts next to the trigger: its other end, and the peers of a shared target. */
  function Neighbours(edges: seq<Edge>, trigger: string, e: Edge): set<string> {
    (if e.target == trigger then {e.source} else {})
    + (if e.source == trigger then {e.target} + PeerSources(edges, e.target) else {})
  }

  ghost predicate Adjacent(workflow: Workflow, trigger: string, w: string) {
    exists e :: e in workflow.edges && w in Neighbours(workflow.edges, trigger, e)
  }

  predicate DecodesAsWindow(nodes: map<string, Node>, w: string) {
    w in nodes && nodes[w].kind.TimeWindow? && nodes[w].kind.window.Some?
  }

  /** The instant lies inside every window next to the trigger whose data decodes. */
  ghost predicate GateOpen(workflow: Workflow, trigger: string, now: int) {
    var nodes := NodeTable(workflow.nodes);
    forall w :: Adjacent(workflow, trigger, w) && DecodesAsWindow(nodes, w) ==>
                  WindowHolds(now, nodes[w].kind.window.value)
  }

  /** The collected windows are exactly those of the seen nodes. */
  ghost predicate WindowsOf(nodes: map<string, Node>, seen: set<string>, windows: seq<WindowConfig>) {
    && (forall w :: w in seen ==> DecodesAsWindow(nodes, w) && nodes[w].kind.window.value in windows)
    && (forall c :: c in windows ==>
          exists w :: w in seen && DecodesAsWindow(nodes, w) && nodes[w].kind.window.value == c)
  }

  method AddWindow(nodes: map<string, Node>, seen0: set<string>, windows0: seq<WindowConfig>, id: string)
    returns (seen: set<string>, windows: seq<WindowConfig>)
    requires WindowsOf(nodes, seen0, windows0)
    ensures WindowsOf(nodes, seen, windows)
    ensures seen == seen0 + (if DecodesAsWindow(nodes, id) then {id} else {})
  {
    seen, windows := seen0, windows0;
    if id in seen || !DecodesAsWindow(nodes, id) {
      return;
    }
    seen, windows := seen + {id}, windows + [nodes[id].kind.window.value];
    forall c | c in windows
      ensures exists w :: w in seen && DecodesAsWindow(nodes, w) && nodes[w].kind.window.value == c
    {
      if c in windows0 {
        var w :| w in seen0 && DecodesAsWindow(nodes, w) && nodes[w].kind.window.value == c;
        assert w in seen;
      } else {
        assert id in seen;
      }
    }
  }

  ghost predicate SeenExactly(nodes: map<string, Node>, seen: set<string>, candidates: set<string>) {
    forall w :: w in seen <==> w in candidates && DecodesAsWindow(nodes, w)
  }

  ghost function NeighboursOf(edges: seq<Edge>, trigger: string, prefix: seq<Edge>): set<string> {
    set e, w | e in prefix && w in Neighbours(edges, trigger, e) :: w
  }

  /** workflowWindowsForTrigger: one pass over the edges, one more over the peers of each outgoing edge. */
  method WindowsForTrigger(workflow: Workflow, trigger: string) returns (windows: seq<WindowConfig>)
    ensures forall c :: c in windows <==>
                        exists w :: Adjacent(workflow, trigger, w) && DecodesAsWindow(NodeTable(workflow.nodes), w)
                                    && NodeTable(workflow.nodes)[w].kind.window.value == c
  {
    var nodes, edges := NodeTable(workflow.nodes), workflow.edges;
    var seen: set<string> := {};
    windows := [];
    for i := 0 to |edges|
      invariant WindowsOf(nodes, seen, windows)
      invariant SeenExactly(nodes, seen, NeighboursOf(edges, trigger, edges[..i]))
    {
      assert edges[..i + 1] == edges[..i] + [edges[i]];
      assert NeighboursOf(edges, trigger, edges[..i + 1])
             == NeighboursOf(edges, trigger, edges[..i]) + Neighbours(edges, trigger, edges[i]);
      seen, windows := AddNeighbours(nodes, edges, trigger, edges[i], seen, windows);
    }
    assert edges[..|edges|] == edges;
    assert forall w :: w in NeighboursOf(edges, trigger, edges) <==> Adjacent(workflow, trigger, w);
  }

  method AddNeighbours(nodes: map<string, Node>, edges: seq<Edge>, trigger: string, e: Edge,
                       seen0: set<string>, windows0: seq<WindowConfig>)
    returns (seen: set<string>, windows: seq<WindowConfig>)
    requires WindowsOf(nodes, seen0, windows0)
    ensures WindowsOf(nodes, seen, windows)
    ensures forall w :: w in seen <==> w in seen0 || (w in Neighbours(edges, trigger, e) && DecodesAsWindow(nodes, w))
  {
    seen, windows := seen0, windows0;
    if e.target == trigger {
      seen, windows := AddWindow(nodes, seen, windows, e.source);
    }
    if e.source == trigger {
      seen, windows := AddWindow(nodes, seen, windows, e.target);
      ghost var seen1 := seen;
      for j := 0 to |edges|
        invariant WindowsOf(nodes, seen, windows)
        invariant forall w :: w in seen <==>
                              w in seen1 || (w in PeerSources(edges[..j], e.target) && DecodesAsWindow(nodes, w))
      {
        assert edges[..j + 1] == edges[..j] + [edges[j]];
        assert PeerSources(edges[..j + 1], e.target)
               == PeerSources(edges[..j], e.target) + (if edges[j].target == e.target then {edges[j].source} else {});
        if edges[j].target == e.target {
          seen, windows := AddWindow(nodes, seen, windows, edges[j].source);
        }
      }
      assert edges[..|edges|] == edges;
    }
  }

  /** workflowTriggerWindowsMatch */
  method TriggerWindowsMatch(workflow: Workflow, trigger: string, now: int) returns (open: bool)
    ensures open <==> GateOpen(workflow, trigger, now)
  {
    hide WindowMatches, WindowHolds;
    var windows := WindowsForTrigger(workflow, trigger);
    ghost var nodes := NodeTable(workflow.nodes);
    for i := 0 to |windows|
      invariant forall j :: 0 <= j < i ==> WindowHolds(now, windows[j])
    {
      WindowMatchesIff(now, windows[i]);
      assert windows[i] in windows;
      if WindowMatches(now, windows[i]) != Ok(true) {
        ghost var w :| Adjacent(workflow, trigger, w) && DecodesAsWindow(nodes, w)
                      && nodes[w].kind.window.value == windows[i];
        return false;
      }
    }
    forall w | Adjacent(workflow, trigger, w) && DecodesAsWindow(nodes, w)
      ensures WindowHolds(now, nodes[w].kind.window.value)
    {
      assert nodes[w].kind.window.value in windows;
    }
    return true;
  }

  /** A claimed job is never blocked by a window next to its trigger: on the definition it was claimed on, its run
      takes the claim time as now, however late it executes, so in every state of the run such a window is open. */
  lemma ClaimedJobPassesItsWindows(env: Env, s: State, roots: set<string>, trigger: string, claimedAt: int, w: string)
    requires GateOpen(env.workflow, trigger, claimedAt) && claimedAt != ZERO_TIME
    requires env.options.triggeredAt == Some(claimedAt)
    requires Adjacent(env.workflow, trigger, w) && Invariant(env, s, roots) && w in s.cache
    requires env.Nodes()[w].kind.TimeWindow?
    ensures !ByWindow(s.cache[w])
  {
    hide Adjacent, WindowHolds;
    assert ValueJustified(env, s.cache, s.log, w);
    WindowClosedIff(env, s, w, roots, claimedAt);
    assert DecodesAsWindow(NodeTable(env.workflow.nodes), w);
  }
}
