/**
  What the graph of a workflow means for a node: which nodes it depends on, and what it gets from them, said over the
  edges, the node types and the triggers alone.
  */
module Wiring {
  import opened Lists
  import opened WorkflowModel
  import opened NodeRules
  import opened ExecutorSpec
  import opened ExecutorInvariant
  import opened Runs
  import opened Text

  // ----- Edges -----

  /** The edges into a node on a handle; the blank handle stands for all. */
  ghost function OnHandle(id: string, handle: string): Edge -> bool {
    (e: Edge) => e.target == id && (TrimSpace(handle) == "" || TrimSpace(e.targetHandle) == TrimSpace(handle))
  }

  lemma {:induction false} IncomingNext(edges: seq<Edge>, e: Edge, id: string, handle: string)
    ensures IncomingByHandle(edges + [e], id, handle)
         == IncomingByHandle(edges, id, handle) + (if OnHandle(id, handle)(e) then [e] else [])
  {
    hide TrimSpace;
    if edges == [] {
      assert [e][1..] == [];
    } else {
      assert (edges + [e])[1..] == edges[1..] + [e];
      IncomingNext(edges[1..], e, id, handle);
    }
  }

  lemma {:induction false} IncomingSelects(edges: seq<Edge>, id: string, handle: string)
    ensures Selects(IncomingByHandle(edges, id, handle), edges, OnHandle(id, handle), (e: Edge) => e)
  {
    hide IncomingByHandle, OnHandle;
    if edges == [] {
      SelectsNothing(OnHandle(id, handle), (e: Edge) => e);
      NoIncoming(id, handle);
    } else {
      var front, last := edges[..|edges| - 1], edges[|edges| - 1];
      assert edges == front + [last];
      IncomingSelects(front, id, handle);
      IncomingNext(front, last, id, handle);
      SelectsNext(IncomingByHandle(front, id, handle), front, last, OnHandle(id, handle),
                  (e: Edge) => e);
    }
  }

  lemma NoIncoming(id: string, handle: string)
    ensures IncomingByHandle([], id, handle) == []
  {
  }

  /** The edges a node collects on a handle are exactly the edges of the workflow into the node on that handle, each at
      its position, in the order of the workflow. */
  lemma CollectsItsEdges(env: Env, id: string, handle: string)
    ensures Selects(Incoming(env, id, handle), env.workflow.edges, OnHandle(id, handle), (e: Edge) => e)
  {
    hide IncomingByHandle, OnHandle, Selects;
    IncomingSelects(env.workflow.edges, id, handle);
  }

  lemma IncomingMembers(env: Env, id: string, handle: string, e: Edge)
    ensures e in Incoming(env, id, handle) <==> e in env.workflow.edges && OnHandle(id, handle)(e)
  {
    hide IncomingByHandle, OnHandle, Incoming;
    CollectsItsEdges(env, id, handle);
    var incoming, edges := Incoming(env, id, handle), env.workflow.edges;
    var at :| Positions(at, edges, OnHandle(id, handle)) && Images(incoming, at, edges, (y: Edge) => y);
    SelectedMembers(incoming, edges, OnHandle(id, handle), at, e);
  }

  // ----- Dependencies -----

  /** The handles that count for a node type: text blocks read "text", models "prompt", "context" and "search", feeds
      and weather "trigger", conditions, windows and actions all, the other types none. */
  predicate ReadsHandle(kind: Kind, handle: string) {
    match kind
    case TextBlock(_) => TrimSpace(handle) == "text"
    case Llm(_) => TrimSpace(handle) == "prompt" || TrimSpace(handle) == "context" || TrimSpace(handle) == "search"
    case Rss(_) => TrimSpace(handle) == "trigger"
    case Weather(_) => TrimSpace(handle) == "trigger"
    case StateIs(_) => true
    case TimeWindow(_) => true
    case WeCom(_) => true
    case Command(_) => true
    case AgentFunction(_) => true
    case Group => false
    case Timer(_) => false
    case StateChanged(_) => false
    case SearchProvider(_) => false
    case UnsupportedKind => false
  }

  /** An edge leads from d to a handle that counts for the node. */
  ghost predicate IsWired(env: Env, id: string, d: string)
    requires id in env.Nodes()
  {
    exists e :: e in env.workflow.edges && e.source == d && e.target == id
                && ReadsHandle(env.Nodes()[id].kind, e.targetHandle)
  }

  ghost predicate SomeHandle(handles: seq<string>, id: string, e: Edge) {
    exists h :: h in handles && OnHandle(id, h)(e)
  }

  lemma TrimmedHandles()
    ensures TrimSpace("") == "" && TrimSpace("text") == "text" && TrimSpace("trigger") == "trigger"
    ensures TrimSpace("prompt") == "prompt" && TrimSpace("context") == "context" && TrimSpace("search") == "search"
  {
    TrimSpaceTrims("");
    TrimSpaceTrims("text");
    TrimSpaceTrims("trigger");
    TrimSpaceTrims("prompt");
    TrimSpaceTrims("context");
    TrimSpaceTrims("search");
  }

  lemma HandlesAreRead(kind: Kind, id: string, e: Edge)
    ensures SomeHandle(Handles(kind), id, e) <==> e.target == id && ReadsHandle(kind, e.targetHandle)
  {
    hide TrimSpace;
    TrimmedHandles();
    var handles := Handles(kind);
    if kind.Llm? {
      assert handles[0] == "prompt" && handles[1] == "context" && handles[2] == "search";
    } else if handles != [] {
      assert handles[0] in handles;
    }
    assert forall h :: h in handles ==> OnHandle(id, h)(e) ==> e.target == id && ReadsHandle(kind, e.targetHandle);
    if e.target == id && ReadsHandle(kind, e.targetHandle) {
      assert exists k :: 0 <= k < |handles| && OnHandle(id, handles[k])(e);
    }
  }

  lemma {:induction false} HandleSourcesAre(env: Env, id: string, handles: seq<string>, d: string)
    ensures d in HandleSources(env, id, handles) <==>
            ShouldCollect(env, d) && exists e :: e in env.workflow.edges && e.source == d && SomeHandle(handles, id, e)
  {
    hide ShouldCollect, Incoming, OnHandle;
    if handles != [] {
      HandleSourcesAre(env, id, handles[1..], d);
      forall e
        ensures e in Incoming(env, id, handles[0]) <==> e in env.workflow.edges && OnHandle(id, handles[0])(e)
        ensures SomeHandle(handles, id, e) <==> OnHandle(id, handles[0])(e) || SomeHandle(handles[1..], id, e)
      {
        IncomingMembers(env, id, handles[0], e);
        assert handles == [handles[0]] + handles[1..];
      }
    }
  }

  lemma DepsAreWired(env: Env, id: string, d: string)
    requires id in env.Nodes()
    ensures d in Deps(env, id) <==> ShouldCollect(env, d) && IsWired(env, id, d)
  {
    hide ShouldCollect, SomeHandle, ReadsHandle, HandleSources, Handles;
    var kind := env.Nodes()[id].kind;
    HandleSourcesAre(env, id, Handles(kind), d);
    forall e: Edge
      ensures SomeHandle(Handles(kind), id, e) <==> e.target == id && ReadsHandle(kind, e.targetHandle)
    {
      HandlesAreRead(kind, id, e);
    }
  }

  /** The run is manual, or the node may take part in it. */
  ghost predicate TakesPart(env: Env, id: string) {
    env.options.triggered == {} || MayTakePart(env, id)
  }

  lemma TakesPartIff(env: Env, id: string)
    requires ScopesAreReach(env)
    ensures TakesPart(env, id) <==> ShouldCollect(env, id)
  {
    hide ScopesAreReach, MayTakePart;
    if env.options.triggered != {} {
      CollectedMayTakePart(env, id);
    }
  }

  /** In a manual run a node depends on exactly the sources of its edges on the handles that count for its type. */
  lemma ManualDependencyIff(env: Env, id: string, d: string)
    requires id in env.Nodes() && env.options.triggered == {}
    ensures d in Deps(env, id) <==> IsWired(env, id, d)
  {
    hide Deps, IsWired;
    DepsAreWired(env, id, d);
  }

  /** In a triggered run it depends on exactly those of them that a fired trigger reaches, or that are text, group or
      window nodes which no trigger reaches. */
  lemma TriggeredDependencyIff(env: Env, id: string, d: string)
    requires id in env.Nodes() && env.options.triggered != {} && ScopesAreReach(env)
    ensures d in Deps(env, id) <==>
            && IsWired(env, id, d)
            && (InFiredReach(env, d) || (IsPassive(env, d) && !exists t :: TriggerReaches(env, t, d)))
  {
    hide Deps, IsWired, ShouldCollect, ScopesAreReach, InFiredReach, TriggerReaches;
    DepsAreWired(env, id, d);
    CollectedMayTakePart(env, d);
  }
}
