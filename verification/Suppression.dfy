/**
  What a closed time window suppresses: everything behind it up to the next window node, and nothing else.
  */
module Suppression {
  import opened Outcomes
  import opened WorkflowModel
  import opened NodeRules
  import opened ExecutorSpec
  import opened ExecutorInvariant
  import opened Text

  predicate ByWindow(value: Value) {
    value.blocked && value.blockedByWindow
  }

  /** A blocked value carries nothing; an unblocked one carries no blocking marks. */
  predicate Clean(value: Value) {
    if value.blocked then value == BlockedValue(value.blockedByTimer, value.blockedByWindow)
    else !value.blockedByTimer && !value.blockedByWindow
  }

  // ----- The rules of single nodes -----

  lemma DecidedValuesAreClean(env: Env, node: Node, inputs: seq<Inputs>)
    requires PreCheck(env, node.kind).None? && |inputs| == |Handles(node.kind)|
    ensures Decide(env, node, inputs).Done? ==> Clean(Decide(env, node, inputs).value)
  {
    hide JoinOrdered, LlmPrompt;
  }

  lemma FinishedValuesAreClean(env: Env, node: Node, inputs: seq<Inputs>, reply: Reply)
    requires PreCheck(env, node.kind).None? && |inputs| == |Handles(node.kind)|
    requires Decide(env, node, inputs).Ask?
    ensures Finish(env, node, inputs, reply).Ok? ==> Clean(Finish(env, node, inputs, reply).value)
    ensures Finish(env, node, inputs, reply).Ok? && !node.kind.TimeWindow? ==>
              !ByWindow(Finish(env, node, inputs, reply).value)
  {
    hide JoinOrdered, LlmPrompt;
  }

  ghost predicate SomeWindowBlocks(inputs: seq<Inputs>) {
    exists i :: 0 <= i < |inputs| && inputs[i].HasBlockingWindow()
  }

  /** Except in window nodes, a window block on any collected input decides: the node is blocked by window, and
      without one it is not. Inputs of a handle without edges block nothing. */
  lemma WindowBlockDecides(env: Env, node: Node, inputs: seq<Inputs>)
    requires PreCheck(env, node.kind).None? && |inputs| == |Handles(node.kind)| && !node.kind.TimeWindow?
    requires forall i :: 0 <= i < |inputs| ==>
               (inputs[i].HasBlockingWindow() ==> Incoming(env, node.id, Handles(node.kind)[i]) != [])
    ensures var decision := Decide(env, node, inputs);
            SomeWindowBlocks(inputs) <==> decision.Done? && ByWindow(decision.value)
  {
    hide JoinOrdered, LlmPrompt, IncomingByHandle;
    if node.kind.Llm? {
      assert SomeWindowBlocks(inputs) <==>
             inputs[0].HasBlockingWindow() || inputs[1].HasBlockingWindow() || inputs[2].HasBlockingWindow();
    } else if |inputs| == 1 {
      assert SomeWindowBlocks(inputs) <==> inputs[0].HasBlockingWindow();
    }
  }

  // ----- From inputs to dependencies -----

  lemma {:induction false} FoldBlocks(env: Env, values: map<string, Value>, edges: seq<Edge>, inputs: Inputs)
    requires CollectedSources(env, edges) <= values.Keys
    ensures FoldInputs(env, values, edges, inputs).HasBlockingWindow() <==>
            inputs.HasBlockingWindow() || exists d :: d in CollectedSources(env, edges) && ByWindow(values[d])
  {
    if edges != [] {
      var source := edges[0].source;
      assert CollectedSources(env, edges)
             == CollectedSources(env, edges[1..]) + (if ShouldCollect(env, source) then {source} else {}) by {
        assert edges[0] in edges;
      }
      FoldBlocks(env, values, edges[1..],
                 if ShouldCollect(env, source) then Accumulate(inputs, values[source]) else inputs);
    }
  }

  lemma {:induction false} HandlesBlock(env: Env, values: map<string, Value>, id: string, handles: seq<string>)
    requires HandleSources(env, id, handles) <= values.Keys
    ensures var inputs := HandleInputs(env, values, id, handles);
            && (SomeWindowBlocks(inputs) <==> exists d :: d in HandleSources(env, id, handles) && ByWindow(values[d]))
            && forall i :: 0 <= i < |inputs| ==>
                 (inputs[i].HasBlockingWindow() ==> Incoming(env, id, handles[i]) != [])
  {
    hide ShouldCollect;
    if handles != [] {
      var edges := Incoming(env, id, handles[0]);
      FoldBlocks(env, values, edges, NO_INPUTS);
      HandlesBlock(env, values, id, handles[1..]);
      var first := FoldInputs(env, values, edges, NO_INPUTS);
      var rest := HandleInputs(env, values, id, handles[1..]);
      SomeWindowBlocksCons(first, rest);
      assert edges == [] ==> !first.HasBlockingWindow();
    }
  }

  lemma SomeWindowBlocksCons(first: Inputs, rest: seq<Inputs>)
    ensures SomeWindowBlocks([first] + rest) <==> first.HasBlockingWindow() || SomeWindowBlocks(rest)
  {
    var all := [first] + rest;
    if first.HasBlockingWindow() {
      assert all[0].HasBlockingWindow();
    }
    if i :| 0 <= i < |rest| && rest[i].HasBlockingWindow() {
      assert all[i + 1].HasBlockingWindow();
    }
    assert all[1..] == rest;
  }

  ghost predicate SomeDependencyByWindow(env: Env, values: map<string, Value>, id: string)
    requires Deps(env, id) <= values.Keys
  {
    exists d :: d in Deps(env, id) && ByWindow(values[d])
  }

  /** For a node other than a window node: its rule says "blocked by window" exactly when a dependency is. */
  lemma BlockedExactlyByDependencies(env: Env, values: map<string, Value>, id: string)
    requires Ready(env, values, id) && !env.Nodes()[id].kind.TimeWindow?
    ensures var decision := DecisionOf(env, values, id);
            SomeDependencyByWindow(env, values, id) <==> decision.Done? && ByWindow(decision.value)
  {
    hide Decide, HandleInputs, HandleSources;
    var node := env.Nodes()[id];
    HandlesBlock(env, values, id, Handles(node.kind));
    WindowBlockDecides(env, node, InputsOf(env, values, id));
  }

  // ----- In every reachable state -----

  lemma CachedValuesAreClean(env: Env, s: State, id: string, roots: set<string>)
    requires Invariant(env, s, roots) && id in s.cache
    ensures Clean(s.cache[id])
  {
    hide Decide, Finish, Clean;
    assert ValueJustified(env, s.cache, s.log, id);
    var node, inputs := env.Nodes()[id], InputsOf(env, s.cache, id);
    DecidedValuesAreClean(env, node, inputs);
    if DecisionOf(env, s.cache, id).Ask? {
      var i :| 0 <= i < |s.log| && s.log[i].node == id && CallJustified(env, s.cache, s.log[i])
               && FinishOf(env, s.cache, s.log[i]) == Ok(s.cache[id]);
      FinishedValuesAreClean(env, node, inputs, s.log[i].reply);
    }
  }

  lemma CachedByWindowIff(env: Env, s: State, id: string, roots: set<string>)
    requires Invariant(env, s, roots) && id in s.cache && !env.Nodes()[id].kind.TimeWindow?
    ensures Deps(env, id) <= s.cache.Keys
    ensures ByWindow(s.cache[id]) <==> SomeDependencyByWindow(env, s.cache, id)
  {
    hide Decide, Finish, SomeDependencyByWindow, Deps, HandleInputs, PreCheck;
    assert ValueJustified(env, s.cache, s.log, id);
    BlockedExactlyByDependencies(env, s.cache, id);
    if DecisionOf(env, s.cache, id).Ask? {
      var i :| 0 <= i < |s.log| && s.log[i].node == id && CallJustified(env, s.cache, s.log[i])
               && FinishOf(env, s.cache, s.log[i]) == Ok(s.cache[id]);
      FinishedValuesAreClean(env, env.Nodes()[id], InputsOf(env, s.cache, id), s.log[i].reply);
    }
  }

  lemma CallersAreNotBehindWindows(env: Env, s: State, i: nat, roots: set<string>)
    requires Invariant(env, s, roots) && i < |s.log|
    requires s.log[i].node in env.Nodes() ==> !env.Nodes()[s.log[i].node].kind.TimeWindow?
    ensures forall d :: d in Deps(env, s.log[i].node) ==> d in s.cache && !ByWindow(s.cache[d])
  {
    hide Decide;
    assert CallJustified(env, s.cache, s.log[i]);
    BlockedExactlyByDependencies(env, s.cache, s.log[i].node);
  }

  /** A chain from a window to a node along collected edges, with no further window node on it. */
  ghost predicate BehindWindow(env: Env, p: seq<string>) {
    && p != [] && p[0] in env.Nodes() && env.Nodes()[p[0]].kind.TimeWindow?
    && (forall i :: 0 <= i < |p| - 1 ==> p[i] in Deps(env, p[i + 1]))
    && (forall i :: 0 < i < |p| ==> p[i] in env.Nodes() && !env.Nodes()[p[i]].kind.TimeWindow?)
  }

  /** Closed windows suppress transitively. In every state a run can reach: a node behind a window that evaluated
      as closed has made no call at all, and if it has a value it is blocked by window and carries nothing. */
  lemma {:induction false} ClosedWindowSuppresses(env: Env, s: State, p: seq<string>, roots: set<string>)
    requires Invariant(env, s, roots) && BehindWindow(env, p)
    requires p[0] in s.cache && ByWindow(s.cache[p[0]])
    ensures var n := p[|p| - 1]; n in s.cache ==> ByWindow(s.cache[n]) && Clean(s.cache[n])
    ensures var n := p[|p| - 1]; |p| > 1 ==> forall i :: 0 <= i < |s.log| ==> s.log[i].node != n
    decreases |p|
  {
    hide Invariant, Clean;
    var n := p[|p| - 1];
    if n in s.cache {
      CachedValuesAreClean(env, s, n, roots);
    }
    if |p| > 1 {
      var front := p[..|p| - 1];
      assert BehindWindow(env, front) by {
        forall i | 0 <= i < |front| - 1
          ensures front[i] in Deps(env, front[i + 1])
        {
          assert p[i] in Deps(env, p[i + 1]);
        }
      }
      ClosedWindowSuppresses(env, s, front, roots);
      var d := front[|front| - 1];
      assert d in Deps(env, n) by {
        assert p[|p| - 2] in Deps(env, p[|p| - 2 + 1]);
      }
      if n in s.cache {
        CachedByWindowIff(env, s, n, roots);
        assert d in Deps(env, n) && ByWindow(s.cache[d]);
      }
      forall i | 0 <= i < |s.log|
        ensures s.log[i].node != n
      {
        if s.log[i].node == n {
          CallersAreNotBehindWindows(env, s, i, roots);
          assert false;
        }
      }
    }
  }

  /** So evaluating a node behind a closed window errs or yields a value blocked by window, without any call. */
  lemma EvaluationBehindClosedWindow(env: Env, s: State, p: seq<string>, roots: set<string>)
    requires Invariant(env, s, roots) && BehindWindow(env, p) && FromRoots(env, roots, p[|p| - 1])
    requires p[0] in s.cache && ByWindow(s.cache[p[0]])
    ensures var (t, outcome) := Evaluate(env, s, p[|p| - 1]);
            && (outcome.Ok? ==> ByWindow(outcome.value) && Clean(outcome.value))
            && (|p| > 1 ==> forall i :: 0 <= i < |t.log| ==> t.log[i].node != p[|p| - 1])
  {
    hide Invariant, Clean, Evaluate, FromRoots;
    EvaluateKeeps(env, s, p[|p| - 1], roots);
    var (t, outcome) := Evaluate(env, s, p[|p| - 1]);
    ClosedWindowSuppresses(env, t, p, roots);
  }

  lemma BehindWindowExtends(env: Env, q: seq<string>, id: string)
    requires BehindWindow(env, q) && q[|q| - 1] in Deps(env, id)
    requires id in env.Nodes() && !env.Nodes()[id].kind.TimeWindow?
    ensures BehindWindow(env, q + [id])
  {
    hide Deps;
    var p := q + [id];
    forall i | 0 <= i < |p| - 1
      ensures p[i] in Deps(env, p[i + 1])
    {
      if i < |q| - 1 {
        assert q[i] in Deps(env, q[i + 1]);
      }
    }
  }

  /** Nothing else is blocked by window: behind every such value there is a window that evaluated as closed. */
  lemma {:induction false} BlockedByWindowHasOrigin(env: Env, s: State, id: string, roots: set<string>, k: nat)
    returns (p: seq<string>)
    requires Invariant(env, s, roots) && id in s.cache && ByWindow(s.cache[id]) && Grounded(env, id, k)
    ensures BehindWindow(env, p) && p[|p| - 1] == id && p[0] in s.cache && ByWindow(s.cache[p[0]])
    decreases k
  {
    hide Invariant, Clean, ByWindow, DependencyGraph;
    if env.Nodes()[id].kind.TimeWindow? {
      p := [id];
    } else {
      CachedByWindowIff(env, s, id, roots);
      var d :| d in Deps(env, id) && ByWindow(s.cache[d]);
      var q := BlockedByWindowHasOrigin(env, s, d, roots, k - 1);
      p := q + [id];
      BehindWindowExtends(env, q, id);
    }
  }

  /** In every reachable state a cached node is blocked by window if and only if it is behind a closed window. */
  lemma BlockedByWindowIff(env: Env, s: State, id: string, roots: set<string>)
    requires Invariant(env, s, roots) && id in s.cache
    ensures ByWindow(s.cache[id]) <==>
            exists p :: BehindWindow(env, p) && p[|p| - 1] == id && p[0] in s.cache && ByWindow(s.cache[p[0]])
  {
    if ByWindow(s.cache[id]) {
      var k: nat :| AllGrounded(env, s.cache.Keys, k);
      assert Grounded(env, id, k);
      var p := BlockedByWindowHasOrigin(env, s, id, roots, k);
      assert BehindWindow(env, p);
    } else if p :| BehindWindow(env, p) && p[|p| - 1] == id && p[0] in s.cache && ByWindow(s.cache[p[0]]) {
      ClosedWindowSuppresses(env, s, p, roots);
      assert false;
    }
  }

  /** A window node fails exactly on a window that cannot be read; otherwise it is closed exactly when the instant lies
      in none of its intervals. */
  lemma WindowAtIff(env: Env, id: string, config: WindowConfig, inputs: Inputs, now: int)
    ensures var r := WindowAt(env, id, config, inputs, now);
            && (r.Ok? <==> WindowIsReadable(config))
            && (r.Ok? ==> (ByWindow(r.value) <==> !WindowHolds(now, config)))
  {
    hide WindowMatches, WindowHolds, WindowIsReadable, JoinOrdered, Incoming;
    WindowMatchesIff(now, config);
  }

  /** When the run goes by a fixed instant, that instant decides, without a call. */
  lemma WindowRuleIff(env: Env, node: Node, inputs: seq<Inputs>, now: int)
    requires PreCheck(env, node.kind).None? && |inputs| == |Handles(node.kind)|
    requires node.kind.TimeWindow? && RunsAt(env.options, now)
    ensures node.kind.window.Some?
    ensures var decision, window := Decide(env, node, inputs), node.kind.window.value;
            && !decision.Ask? && (decision.Fail? <==> !WindowIsReadable(window))
            && (decision.Done? ==> (ByWindow(decision.value) <==> !WindowHolds(now, window)))
  {
    hide WindowAt, WindowHolds, WindowIsReadable, RunTime, RunsAt;
    RunTimeIff(env.options, now);
    WindowAtIff(env, node.id, node.kind.window.value, inputs[0], now);
  }

  /** When it does not, the clock is read and decides. */
  lemma ClockedWindowRuleIff(env: Env, node: Node, inputs: seq<Inputs>, reply: Reply)
    requires PreCheck(env, node.kind).None? && |inputs| == |Handles(node.kind)|
    requires node.kind.TimeWindow? && RunsByClock(env.options)
    ensures node.kind.window.Some? && Decide(env, node, inputs) == Ask(ReadClock)
    ensures var outcome, window := Finish(env, node, inputs, reply), node.kind.window.value;
            && (outcome.Ok? <==> WindowIsReadable(window))
            && (outcome.Ok? ==> (ByWindow(outcome.value) <==> !WindowHolds(reply.clock, window)))
  {
    hide WindowAt, WindowHolds, WindowIsReadable, RunTime, RunsByClock;
    RunTimeIff(env.options, 0);
    WindowAtIff(env, node.id, node.kind.window.value, inputs[0], reply.clock);
  }

  /** In every state of a run that goes by a fixed instant: a cached window node could be read, and it is closed exactly
      when that instant lies in no interval of real time of its window. */
  lemma WindowClosedIff(env: Env, s: State, id: string, roots: set<string>, now: int)
    requires Invariant(env, s, roots) && id in s.cache
    requires env.Nodes()[id].kind.TimeWindow? && RunsAt(env.options, now)
    ensures env.Nodes()[id].kind.window.Some? && WindowIsReadable(env.Nodes()[id].kind.window.value)
    ensures ByWindow(s.cache[id]) <==> !WindowHolds(now, env.Nodes()[id].kind.window.value)
  {
    hide Decide, WindowHolds, WindowIsReadable, RunsAt;
    assert ValueJustified(env, s.cache, s.log, id);
    WindowRuleIff(env, env.Nodes()[id], InputsOf(env, s.cache, id), now);
  }

  /** In a run that reads the clock, the same holds of the instant that was read for this node. */
  lemma ClockedWindowClosedIff(env: Env, s: State, id: string, roots: set<string>)
    requires Invariant(env, s, roots) && id in s.cache
    requires env.Nodes()[id].kind.TimeWindow? && RunsByClock(env.options)
    ensures env.Nodes()[id].kind.window.Some? && WindowIsReadable(env.Nodes()[id].kind.window.value)
    ensures exists i :: 0 <= i < |s.log| && s.log[i].node == id && s.log[i].call == ReadClock
                        && (ByWindow(s.cache[id]) <==>
                            !WindowHolds(s.log[i].reply.clock, env.Nodes()[id].kind.window.value))
  {
    hide Decide, Finish, WindowHolds, WindowIsReadable, RunsByClock, Deps, HandleInputs;
    assert ValueJustified(env, s.cache, s.log, id);
    var node, inputs := env.Nodes()[id], InputsOf(env, s.cache, id);
    ClockedWindowRuleIff(env, node, inputs, Reply(true, "", [], false, 0, []));
    var i :| 0 <= i < |s.log| && s.log[i].node == id && CallJustified(env, s.cache, s.log[i])
             && FinishOf(env, s.cache, s.log[i]) == Ok(s.cache[id]);
    ClockedWindowRuleIff(env, node, inputs, s.log[i].reply);
  }

  /** Once its inputs are collected, a window node fails exactly on a window that cannot be read, whatever the run. */
  lemma WindowFailsIff(env: Env, s: State, id: string)
    requires Ready(env, s.cache, id) && env.Nodes()[id].kind.TimeWindow?
    ensures env.Nodes()[id].kind.window.Some?
    ensures Perform(env, s, env.Nodes()[id], InputsOf(env, s.cache, id)).1.Err? <==>
            !WindowIsReadable(env.Nodes()[id].kind.window.value)
  {
    hide Decide, Finish, WindowIsReadable, RunsAt, RunsByClock, InputsOf, Deps;
    var node, inputs := env.Nodes()[id], InputsOf(env, s.cache, id);
    if RunTime(env.options).Some? {
      RunTimeIff(env.options, RunTime(env.options).value);
      WindowRuleIff(env, node, inputs, RunTime(env.options).value);
    } else {
      RunTimeIff(env.options, 0);
      ClockedWindowRuleIff(env, node, inputs, env.world(|s.log|, id, ReadClock));
    }
  }
}
