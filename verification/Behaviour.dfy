/**
  What every node type does, said over the values of its sources in the order of the edges: which outcome it has without
  a call, or which call it makes and what it makes of the reply. The rules of the nodes work on counters and lists that
  the collecting loop fills; here they are tied to the sources themselves.
  */
module Behaviour {
  import opened WorkflowModel
  import opened NodeRules
  import opened ExecutorSpec
  import opened ExecutorInvariant
  import opened Runs
  import opened Gating
  import opened Wiring

  // ----- The sources of a node -----

  /** The values of the sources that take part, edge by edge, on a handle of a node. */
  ghost function ValuesOn(env: Env, values: map<string, Value>, edges: seq<Edge>, id: string, handle: string)
    : seq<Value>
  {
    if edges == [] then []
    else
      var front, last := edges[..|edges| - 1], edges[|edges| - 1];
      ValuesOn(env, values, front, id, handle)
      + (if OnHandle(id, handle)(last) && TakesPart(env, last.source) && last.source in values
         then [values[last.source]] else [])
  }

  ghost function SourcesOn(env: Env, values: map<string, Value>, id: string, handle: string): seq<Value> {
    ValuesOn(env, values, env.workflow.edges, id, handle)
  }

  ghost predicate HasEdge(env: Env, id: string, handle: string) {
    exists e :: e in env.workflow.edges && OnHandle(id, handle)(e)
  }

  // ----- What a list of values has -----

  ghost predicate SomeByWindow(vs: seq<Value>) {
    exists v :: v in vs && v.blocked && v.blockedByWindow
  }

  ghost predicate SomeByTimer(vs: seq<Value>) {
    exists v :: v in vs && v.blocked && v.blockedByTimer
  }

  ghost predicate SomeLive(vs: seq<Value>) {
    exists v :: v in vs && Live(v)
  }

  ghost predicate SomeTriggered(vs: seq<Value>) {
    exists v :: v in vs && v.triggered
  }

  /** Something is blocked and nothing is live. */
  ghost predicate Waits(vs: seq<Value>) {
    (exists v :: v in vs && v.blocked) && !SomeLive(vs)
  }

  /** And all that is blocked is blocked by a timer. */
  ghost predicate WaitsForTimer(vs: seq<Value>) {
    Waits(vs) && forall v :: v in vs && v.blocked ==> v.blockedByTimer
  }

  function TextsOf(vs: seq<Value>): seq<string> {
    if vs == [] then []
    else
      var last := vs[|vs| - 1];
      TextsOf(vs[..|vs| - 1]) + (if last.text != "" then [last.text] else [])
  }

  function PromptsOf(vs: seq<Value>): seq<string> {
    if vs == [] then []
    else
      var last := vs[|vs| - 1];
      PromptsOf(vs[..|vs| - 1]) + (if last.prompt != "" then [last.prompt] else [])
  }

  function SearchesOf(vs: seq<Value>): seq<string> {
    if vs == [] then []
    else
      var last := vs[|vs| - 1];
      SearchesOf(vs[..|vs| - 1]) + (if last.search.Some? then [last.search.value] else [])
  }

  function ItemsOf(vs: seq<Value>): seq<Item> {
    if vs == [] then [] else ItemsOf(vs[..|vs| - 1]) + vs[|vs| - 1].items
  }

  // ----- The collected inputs -----

  function Summary(vs: seq<Value>): Inputs {
    if vs == [] then NO_INPUTS else Accumulate(Summary(vs[..|vs| - 1]), vs[|vs| - 1])
  }

  lemma SummaryNext(vs: seq<Value>, v: Value)
    ensures Summary(vs + [v]) == Accumulate(Summary(vs), v)
  {
    assert (vs + [v])[..|vs|] == vs;
  }

  lemma {:induction false} FoldNext(env: Env, values: map<string, Value>, edges: seq<Edge>, e: Edge, inputs: Inputs)
    requires CollectedSources(env, edges + [e]) <= values.Keys
    ensures CollectedSources(env, edges) <= values.Keys
    ensures ShouldCollect(env, e.source) ==> e.source in values
    ensures var r := FoldInputs(env, values, edges, inputs);
            FoldInputs(env, values, edges + [e], inputs)
            == if ShouldCollect(env, e.source) then Accumulate(r, values[e.source]) else r
  {
    hide ShouldCollect, Accumulate;
    assert e in edges + [e];
    assert CollectedSources(env, edges) <= CollectedSources(env, edges + [e]);
    if edges == [] {
      assert edges + [e] == [e] && [e][1..] == [];
    } else {
      assert (edges + [e])[1..] == edges[1..] + [e];
      assert CollectedSources(env, edges[1..] + [e]) <= CollectedSources(env, edges + [e]);
      assert edges[0] in edges + [e];
      FoldNext(env, values, edges[1..], e,
               if ShouldCollect(env, edges[0].source) then Accumulate(inputs, values[edges[0].source]) else inputs);
    }
  }

  lemma {:induction false} FoldIsSummary(env: Env, values: map<string, Value>, edges: seq<Edge>, id: string,
                                         handle: string)
    requires ScopesAreReach(env) && CollectedSources(env, IncomingByHandle(edges, id, handle)) <= values.Keys
    ensures FoldInputs(env, values, IncomingByHandle(edges, id, handle), NO_INPUTS)
         == Summary(ValuesOn(env, values, edges, id, handle))
  {
    hide IncomingByHandle, OnHandle, ShouldCollect, Accumulate, TakesPart, ScopesAreReach;
    if edges == [] {
      NoIncoming(id, handle);
    } else {
      var front, last := edges[..|edges| - 1], edges[|edges| - 1];
      assert edges == front + [last];
      IncomingNext(front, last, id, handle);
      TakesPartIff(env, last.source);
      var incoming := IncomingByHandle(front, id, handle);
      if OnHandle(id, handle)(last) {
        FoldNext(env, values, incoming, last, NO_INPUTS);
      } else {
        assert incoming + [] == incoming;
      }
      FoldIsSummary(env, values, front, id, handle);
      var vs := ValuesOn(env, values, front, id, handle);
      if last.source in values {
        SummaryNext(vs, values[last.source]);
      }
      assert vs + [] == vs;
    }
  }

  /** The counters and lists of the collecting loop say exactly this about the sources. */
  lemma SummarySays(vs: seq<Value>)
    ensures var inputs := Summary(vs);
            && inputs.texts == TextsOf(vs) && inputs.prompts == PromptsOf(vs)
            && inputs.searches == SearchesOf(vs) && inputs.items == ItemsOf(vs)
            && (inputs.HasBlockingWindow() <==> SomeByWindow(vs)) && (inputs.blockedByTimer > 0 <==> SomeByTimer(vs))
            && (inputs.HasActiveContent() <==> SomeLive(vs)) && (inputs.triggers > 0 <==> SomeTriggered(vs))
            && (inputs.OnlyBlocked() <==> Waits(vs)) && (inputs.OnlyBlockedByTimer() <==> WaitsForTimer(vs))
  {
    SummaryLists(vs);
    SummaryCounts(vs);
  }

  ghost predicate SomeBlocked(vs: seq<Value>) {
    exists v :: v in vs && v.blocked
  }

  ghost predicate OnlyTimerBlocks(vs: seq<Value>) {
    forall v :: v in vs && v.blocked ==> v.blockedByTimer
  }

  lemma ViewsNext(vs: seq<Value>, v: Value)
    ensures SomeByWindow(vs + [v]) <==> SomeByWindow(vs) || (v.blocked && v.blockedByWindow)
    ensures SomeByTimer(vs + [v]) <==> SomeByTimer(vs) || (v.blocked && v.blockedByTimer)
    ensures SomeLive(vs + [v]) <==> SomeLive(vs) || Live(v)
    ensures SomeTriggered(vs + [v]) <==> SomeTriggered(vs) || v.triggered
    ensures SomeBlocked(vs + [v]) <==> SomeBlocked(vs) || v.blocked
    ensures OnlyTimerBlocks(vs + [v]) <==> OnlyTimerBlocks(vs) && (v.blocked ==> v.blockedByTimer)
  {
    hide Live;
    assert forall w :: w in vs + [v] <==> w in vs || w == v;
  }

  lemma {:induction false} SummaryLists(vs: seq<Value>)
    ensures var inputs := Summary(vs);
            && inputs.texts == TextsOf(vs) && inputs.prompts == PromptsOf(vs)
            && inputs.searches == SearchesOf(vs) && inputs.items == ItemsOf(vs)
  {
    if vs != [] {
      SummaryLists(vs[..|vs| - 1]);
    }
  }

  lemma {:induction false} SummaryCounts(vs: seq<Value>)
    ensures var inputs := Summary(vs);
            && (inputs.HasBlockingWindow() <==> SomeByWindow(vs)) && (inputs.blockedByTimer > 0 <==> SomeByTimer(vs))
            && (inputs.HasActiveContent() <==> SomeLive(vs)) && (inputs.triggers > 0 <==> SomeTriggered(vs))
            && (inputs.blocked > 0 <==> SomeBlocked(vs)) && inputs.blockedByTimer <= inputs.blocked
            && (inputs.blocked == inputs.blockedByTimer <==> OnlyTimerBlocks(vs))
  {
    if vs != [] {
      var front, last := vs[..|vs| - 1], vs[|vs| - 1];
      assert vs == front + [last];
      SummaryCounts(front);
      ViewsNext(front, last);
      hide SomeByWindow, SomeByTimer, SomeLive, SomeTriggered, SomeBlocked, OnlyTimerBlocks;
    }
  }
}
