/**
  The memo-free meaning of a workflow node, and the memoised evaluator against it, when the outside world answers
  each call of a node always in the same way.
  */
module Semantics {
  import opened Outcomes
  import opened Graphs
  import opened WorkflowModel
  import opened NodeRules
  import opened ExecutorSpec
  import opened ExecutorInvariant

  /** The reply to a call does not depend on how many calls came before it. */
  ghost predicate Deterministic(env: Env) {
    forall i: nat, id, call :: env.world(i, id, call) == env.world(0, id, call)
  }

  /** What a node makes of the values of its dependencies: a value, or none when it fails. */
  function LocalValue(env: Env, values: map<string, Value>, id: string): Option<Value>
    requires Ready(env, values, id)
  {
    match DecisionOf(env, values, id)
    case Fail(_) => None
    case Done(value) => Some(value)
    case Ask(call) =>
      match Finish(env, env.Nodes()[id], InputsOf(env, values, id), env.world(0, id, call))
      case Ok(value) => Some(value)
      case Err(_) => None
  }

  /** The recursive meaning without cache, cycle check or state, cut off at depth k. */
  ghost function Meaning(env: Env, id: string, k: nat): Option<Value>
    decreases k, 0
  {
    if k == 0 then None
    else
      var values := Meanings(env, Deps(env, id), k - 1);
      if Ready(env, values, id) then LocalValue(env, values, id) else None
  }

  /** The meanings of those of the given nodes that have one. */
  ghost function Meanings(env: Env, ids: set<string>, k: nat): (values: map<string, Value>)
    ensures forall d :: d in values <==> d in ids && Meaning(env, d, k).Some?
    ensures forall d :: d in values ==> Meaning(env, d, k) == Some(values[d])
    decreases k, 1
  {
    map d | d in ids && Meaning(env, d, k).Some? :: Meaning(env, d, k).value
  }

  lemma MeaningFromValues(env: Env, id: string, k: nat, values: map<string, Value>)
    requires k > 0 && Ready(env, values, id) && values.Keys == Deps(env, id)
    requires forall d :: d in values ==> Meaning(env, d, k - 1) == Some(values[d])
    ensures Meaning(env, id, k) == LocalValue(env, values, id)
  {
    hide LocalValue, Ready, Deps;
    var meanings := Meanings(env, Deps(env, id), k - 1);
    assert meanings.Keys == values.Keys;
    assert meanings == values;
  }

  lemma MeaningHasValues(env: Env, id: string, k: nat)
    requires Meaning(env, id, k).Some?
    ensures k > 0
    ensures var values := Meanings(env, Deps(env, id), k - 1);
            && Ready(env, values, id) && values.Keys == Deps(env, id)
            && LocalValue(env, values, id) == Meaning(env, id, k)
  {
    hide LocalValue;
  }

  /** The node means v: the recursion comes out with v at some depth. */
  ghost predicate Means(env: Env, id: string, v: Value) {
    exists k: nat :: Meaning(env, id, k) == Some(v)
  }

  lemma {:induction false} MeaningMonotone(env: Env, id: string, k: nat, l: nat)
    requires Meaning(env, id, k).Some? && k <= l
    ensures Meaning(env, id, l) == Meaning(env, id, k)
    decreases k
  {
    hide *;
    MeaningHasValues(env, id, k);
    var values := Meanings(env, Deps(env, id), k - 1);
    forall d | d in values
      ensures Meaning(env, d, l - 1) == Some(values[d])
    {
      MeaningMonotone(env, d, k - 1, l - 1);
    }
    MeaningFromValues(env, id, l, values);
  }

  lemma MeaningIsUnique(env: Env, id: string, v: Value, w: Value)
    requires Means(env, id, v) && Means(env, id, w)
    ensures v == w
  {
    var k: nat :| Meaning(env, id, k) == Some(v);
    var l: nat :| Meaning(env, id, l) == Some(w);
    if k <= l { MeaningMonotone(env, id, k, l); } else { MeaningMonotone(env, id, l, k); }
  }

  lemma InputsAgree(env: Env, small: map<string, Value>, big: map<string, Value>, id: string)
    requires Ready(env, small, id) && Extends(small, big)
    ensures Ready(env, big, id) && LocalValue(env, big, id) == LocalValue(env, small, id)
  {
    InputsAreStable(env, small, big, id);
  }

  /** A justified cached value is what the node makes of the cached values of its dependencies. */
  lemma CachedIsLocal(env: Env, s: State, id: string, roots: set<string>)
    requires Deterministic(env) && Invariant(env, s, roots) && id in s.cache
    ensures Ready(env, s.cache, id) && LocalValue(env, s.cache, id) == Some(s.cache[id])
  {
    hide Decide, Finish;
    assert ValueJustified(env, s.cache, s.log, id);
    if DecisionOf(env, s.cache, id).Ask? {
      var i :| 0 <= i < |s.log| && s.log[i].node == id && CallJustified(env, s.cache, s.log[i])
               && FinishOf(env, s.cache, s.log[i]) == Ok(s.cache[id]);
      assert s.log[i].reply == env.world(i, id, s.log[i].call);
    }
  }

  /** Soundness: whatever the order of evaluation was, each cached value is the meaning of its node. */
  lemma {:induction false} CachedIsMeaning(env: Env, s: State, id: string, roots: set<string>, k: nat)
    requires Deterministic(env) && Invariant(env, s, roots) && id in s.cache && Grounded(env, id, k)
    ensures Meaning(env, id, k) == Some(s.cache[id])
    decreases k
  {
    hide LocalValue, Decide;
    CachedIsLocal(env, s, id, roots);
    forall d | d in Deps(env, id)
      ensures Meaning(env, d, k - 1) == Some(s.cache[d])
    {
      CachedIsMeaning(env, s, d, roots, k - 1);
    }
    var values := map d | d in Deps(env, id) :: s.cache[d];
    MeaningFromValues(env, id, k, values);
    InputsAgree(env, values, s.cache, id);
  }

  /** Completeness: a node with a meaning evaluates successfully unless it is reached while a node of its own
      depth is being evaluated, which acyclic dependencies exclude. */
  lemma {:induction false} EvaluateSucceeds(env: Env, s: State, id: string, roots: set<string>, k: nat)
    requires Deterministic(env) && Invariant(env, s, roots) && FromRoots(env, roots, id)
    requires Meaning(env, id, k).Some? && forall a :: a in s.active ==> Meaning(env, a, k).None?
    ensures Evaluate(env, s, id).1.Ok?
    decreases k, 2, 0
  {
    hide Evaluate, Meaning, Meanings, LocalValue, Invariant, CollectHandles, Ready, FromRoots, Handles, HandleSources,
         NodeTable, Deps, OutcomeFaithful, Kept, Deterministic;
    MeaningHasValues(env, id, k);
    ActiveAtLowerDepth(env, s.active, k);
    if id in s.cache {
      CachedSucceeds(env, s, id);
    } else if Meaning(env, id, k - 1).Some? {
      EvaluateSucceeds(env, s, id, roots, k - 1);
    } else {
      PresentNode(env, id, k);
      EnterKeeps(env, s, id, roots);
      DependenciesFromRoots(env, id, roots);
      CollectHandlesSucceeds(env, Enter(s, id), id, Handles(env.Nodes()[id].kind), roots, k - 1);
      FreshNodeSucceeds(env, s, id, roots, k);
    }
  }

  lemma CachedSucceeds(env: Env, s: State, id: string)
    requires id in s.cache
    ensures Evaluate(env, s, id).1.Ok?
  {
  }

  lemma PresentNode(env: Env, id: string, k: nat)
    requires Meaning(env, id, k).Some?
    ensures id in env.Nodes()
    ensures Deps(env, id) == HandleSources(env, id, Handles(env.Nodes()[id].kind))
  {
    MeaningHasValues(env, id, k);
  }

  lemma ActiveAtLowerDepth(env: Env, active: set<string>, k: nat)
    requires k > 0 && forall a :: a in active ==> Meaning(env, a, k).None?
    ensures forall a :: a in active ==> Meaning(env, a, k - 1).None?
  {
    hide *;
    forall a | a in active
      ensures Meaning(env, a, k - 1).None?
    {
      if Meaning(env, a, k - 1).Some? { MeaningMonotone(env, a, k - 1, k); }
    }
  }

  /** Once its inputs are collected, a node with a meaning finishes. */
  lemma FreshNodeSucceeds(env: Env, s: State, id: string, roots: set<string>, k: nat)
    requires Deterministic(env) && Invariant(env, s, roots) && FromRoots(env, roots, id)
    requires id !in s.cache && id !in s.active && Meaning(env, id, k).Some?
    requires CollectHandles(env, Enter(s, id), id, Handles(env.Nodes()[id].kind)).1.Ok?
    ensures Evaluate(env, s, id).1.Ok?
  {
    EvaluateUnfolds(env, s, id);
    EnterKeeps(env, s, id, roots);
    GatherKeeps(env, Enter(s, id), id, roots);
    var (gathered, _) := Gather(env, Enter(s, id), env.Nodes()[id]);
    PerformSucceeds(env, gathered, id, roots, k);
  }

  lemma PerformSucceeds(env: Env, s: State, id: string, roots: set<string>, k: nat)
    requires Deterministic(env) && Invariant(env, s, roots) && Ready(env, s.cache, id)
    requires Meaning(env, id, k).Some?
    ensures Perform(env, s, env.Nodes()[id], InputsOf(env, s.cache, id)).1.Ok?
  {
    var values := Meanings(env, Deps(env, id), k - 1);
    forall d | d in values
      ensures values[d] == s.cache[d]
    {
      var l: nat :| AllGrounded(env, s.cache.Keys, l);
      CachedIsMeaning(env, s, d, roots, l);
      MeaningIsUnique(env, d, s.cache[d], values[d]);
    }
    InputsAgree(env, values, s.cache, id);
    LocalDecidesPerform(env, s, id);
  }

  lemma LocalDecidesPerform(env: Env, s: State, id: string)
    requires Deterministic(env) && Ready(env, s.cache, id)
    ensures var (_, outcome) := Perform(env, s, env.Nodes()[id], InputsOf(env, s.cache, id));
            outcome.Ok? <==> LocalValue(env, s.cache, id).Some?
  {
    PerformDoes(env, s, id);
    if DecisionOf(env, s.cache, id).Ask? {
      var call := DecisionOf(env, s.cache, id).call;
      assert env.world(|s.log|, id, call) == env.world(0, id, call);
    }
  }

  lemma {:induction false} CollectHandlesSucceeds(env: Env, s: State, id: string, handles: seq<string>,
                                                  roots: set<string>, k: nat)
    requires Deterministic(env) && Invariant(env, s, roots)
    requires forall d :: d in HandleSources(env, id, handles) ==> FromRoots(env, roots, d) && Meaning(env, d, k).Some?
    requires forall a :: a in s.active ==> Meaning(env, a, k).None?
    ensures CollectHandles(env, s, id, handles).1.Ok?
    decreases k, 4, |handles|
  {
    if handles != [] {
      var edges := Incoming(env, id, handles[0]);
      CollectSucceeds(env, s, edges, NO_INPUTS, roots, k);
      CollectKeeps(env, s, edges, NO_INPUTS, roots);
      var (s1, _) := Collect(env, s, edges, NO_INPUTS);
      CollectHandlesSucceeds(env, s1, id, handles[1..], roots, k);
    }
  }

  lemma {:induction false} CollectSucceeds(env: Env, s: State, edges: seq<Edge>, inputs: Inputs, roots: set<string>,
                                           k: nat)
    requires Deterministic(env) && Invariant(env, s, roots)
    requires forall d :: d in CollectedSources(env, edges) ==> FromRoots(env, roots, d) && Meaning(env, d, k).Some?
    requires forall a :: a in s.active ==> Meaning(env, a, k).None?
    ensures Collect(env, s, edges, inputs).1.Ok?
    decreases k, 3, |edges|
  {
    if edges != [] {
      var source := edges[0].source;
      assert edges[0] in edges;
      assert CollectedSources(env, edges[1..]) <= CollectedSources(env, edges);
      if !ShouldCollect(env, source) {
        CollectSucceeds(env, s, edges[1..], inputs, roots, k);
      } else {
        assert source in CollectedSources(env, edges);
        EvaluateSucceeds(env, s, source, roots, k);
        EvaluateKeeps(env, s, source, roots);
        var (s1, outcome) := Evaluate(env, s, source);
        CollectSucceeds(env, s1, edges[1..], Accumulate(inputs, outcome.value), roots, k);
      }
    }
  }

  /** The memoised evaluator equals the memo-free meaning, on any graph and after any earlier evaluations. */
  lemma MemoisedEqualsMeaning(env: Env, s: State, id: string, roots: set<string>)
    requires Deterministic(env) && Invariant(env, s, roots) && s.active == {}
    ensures forall v :: Evaluate(env, s, id).1 == Ok(v) <==> Means(env, id, v)
  {
    var more := roots + {id};
    WiderRoots(env, s, roots, more);
    ReachSelf(DependencyGraph(env), id);
    assert FromRoots(env, more, id);
    EvaluateKeeps(env, s, id, more);
    var (t, outcome) := Evaluate(env, s, id);
    if outcome.Ok? {
      var k: nat :| AllGrounded(env, t.cache.Keys, k);
      CachedIsMeaning(env, t, id, more, k);
      assert Means(env, id, outcome.value);
    }
    forall v
      ensures outcome == Ok(v) <==> Means(env, id, v)
    {
      if Means(env, id, v) {
        var k: nat :| Meaning(env, id, k) == Some(v);
        EvaluateSucceeds(env, s, id, more, k);
        MeaningIsUnique(env, id, v, outcome.value);
      }
    }
  }

  lemma WiderRoots(env: Env, s: State, roots: set<string>, more: set<string>)
    requires Invariant(env, s, roots) && roots <= more
    ensures Invariant(env, s, more)
  {
    forall id | FromRoots(env, roots, id)
      ensures FromRoots(env, more, id)
    {
      var r :| r in roots && InCone(env, r, id);
      assert r in more;
    }
  }

  /** For a whole run: each target's outcome is its meaning, whatever the order of the targets. */
  lemma {:induction false} TargetsGetTheirMeaning(env: Env, s: State, targets: seq<string>, roots: set<string>)
    requires Deterministic(env) && Invariant(env, s, roots) && s.active == {}
    requires forall id :: id in targets ==> id in roots
    ensures var (_, outcomes) := EvaluateAll(env, s, targets);
            && |outcomes| == |targets|
            && forall i, v :: 0 <= i < |targets| ==> (outcomes[i] == Ok(v) <==> Means(env, targets[i], v))
    decreases |targets|
  {
    hide Evaluate, Invariant, Deterministic;
    if targets != [] {
      var front, last := targets[..|targets| - 1], targets[|targets| - 1];
      assert targets == front + [last];
      TargetsGetTheirMeaning(env, s, front, roots);
      EvaluateAllKeeps(env, s, front, roots);
      var (s1, _) := EvaluateAll(env, s, front);
      MemoisedEqualsMeaning(env, s1, last, roots);
    }
  }
}
