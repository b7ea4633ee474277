/** Dependency cones: when a node has a meaning, and what the executor does with cycles. */
module Cones {
  import opened Outcomes
  import opened Graphs
  import opened WorkflowModel
  import opened NodeRules
  import opened ExecutorSpec
  import opened ExecutorInvariant
  import opened Semantics

  ghost predicate ConeComplete(env: Env, id: string) {
    forall x :: InCone(env, id, x) ==> x in env.Nodes()
  }

  ghost predicate ConeAcyclic(env: Env, id: string) {
    forall x :: InCone(env, id, x) ==> !OnCycle(DependencyGraph(env), x)
  }

  ghost predicate IsGrounded(env: Env, id: string) {
    exists k: nat :: Grounded(env, id, k)
  }

  // ----- Grounded nodes are those with a complete acyclic cone -----

  lemma {:induction false} GroundedAlongPath(env: Env, p: seq<string>, i: nat, k: nat)
    requires IsPath(DependencyGraph(env), p) && Grounded(env, p[0], k) && i < |p|
    ensures Grounded(env, p[i], k)
  {
    hide DependencyGraph;
    if i > 0 {
      GroundedAlongPath(env, p, i - 1, k);
      assert p[i - 1 + 1] in Deps(env, p[i - 1]);
      GroundedMonotone(env, p[i], k - 1, k);
    }
  }

  lemma ConeIsGrounded(env: Env, id: string, x: string, k: nat)
    requires Grounded(env, id, k) && InCone(env, id, x)
    ensures Grounded(env, x, k)
  {
    var p :| PathFromTo(DependencyGraph(env), p, id, x);
    GroundedAlongPath(env, p, |p| - 1, k);
  }

  lemma {:induction false} GroundedIsAcyclic(env: Env, x: string, k: nat)
    requires Grounded(env, x, k)
    ensures !OnCycle(DependencyGraph(env), x)
    decreases k
  {
    var g := DependencyGraph(env);
    if OnCycle(g, x) {
      var y :| y in Succ(g, x) && Reach(g, y, x);
      assert y in Deps(env, x);
      ConeIsGrounded(env, y, x, k - 1);
      GroundedIsAcyclic(env, x, k - 1);
    }
  }

  lemma {:induction false} UngroundedPath(env: Env, id: string, k: nat) returns (p: seq<string>)
    requires !Grounded(env, id, k) && ConeComplete(env, id)
    ensures IsPath(DependencyGraph(env), p) && p[0] == id && |p| == k + 1
    decreases k
  {
    ReachSelf(DependencyGraph(env), id);
    assert InCone(env, id, id);
    if k == 0 {
      return [id];
    }
    var d :| d in Deps(env, id) && !Grounded(env, d, k - 1);
    forall x | InCone(env, d, x)
      ensures x in env.Nodes()
    {
      ReachPrepend(DependencyGraph(env), id, d, x);
      assert InCone(env, id, x);
    }
    var q := UngroundedPath(env, d, k - 1);
    p := [id] + q;
    forall i | 0 <= i < |p| - 1
      ensures p[i + 1] in Succ(DependencyGraph(env), p[i])
    {
      if i > 0 {
        assert q[i - 1 + 1] in Succ(DependencyGraph(env), q[i - 1]);
      }
    }
  }

  lemma PathStaysInCone(env: Env, p: seq<string>, i: nat)
    requires IsPath(DependencyGraph(env), p) && i < |p|
    ensures InCone(env, p[0], p[i])
  {
    var q := p[..i + 1];
    forall j | 0 <= j < |q| - 1
      ensures q[j + 1] in Succ(DependencyGraph(env), q[j])
    {
      assert p[j + 1] in Succ(DependencyGraph(env), p[j]);
    }
    assert PathFromTo(DependencyGraph(env), q, p[0], p[i]);
  }

  lemma GroundedIff(env: Env, id: string)
    ensures IsGrounded(env, id) <==> ConeComplete(env, id) && ConeAcyclic(env, id)
  {
    if IsGrounded(env, id) {
      var k: nat :| Grounded(env, id, k);
      forall x | InCone(env, id, x)
        ensures x in env.Nodes() && !OnCycle(DependencyGraph(env), x)
      {
        ConeIsGrounded(env, id, x, k);
        GroundedIsAcyclic(env, x, k);
      }
      assert ConeComplete(env, id) && ConeAcyclic(env, id);
    } else if ConeComplete(env, id) {
      var nodes := env.Nodes().Keys;
      var p := UngroundedPath(env, id, |nodes|);
      forall i | 0 <= i < |p|
        ensures p[i] in nodes && InCone(env, id, p[i])
      {
        PathStaysInCone(env, p, i);
      }
      LongPathHasCycle(DependencyGraph(env), p, nodes);
      assert !ConeAcyclic(env, id);
    }
  }

  // ----- Cycles -----

  /** In every state any run can reach, with any behaviour of the world: no cycle and no missing node can be
      reached from a node that is cached or reported succeeded. */
  lemma SucceededNodesHaveSoundCones(env: Env, s: State, id: string, roots: set<string>)
    requires Invariant(env, s, roots) && id in s.results && s.results[id].Succeeded?
    ensures id in s.cache && ConeComplete(env, id) && ConeAcyclic(env, id)
  {
    assert ResultsFaithful(s.cache, s.results);
    var k: nat :| AllGrounded(env, s.cache.Keys, k);
    assert Grounded(env, id, k);
    GroundedIff(env, id);
  }

  /** A node that leads into a cycle or to a missing node fails on every evaluation, wherever it is entered
      from, and the failure is reported. */
  lemma BadConeAlwaysFails(env: Env, s: State, id: string, roots: set<string>)
    requires Invariant(env, s, roots) && FromRoots(env, roots, id)
    requires !ConeComplete(env, id) || !ConeAcyclic(env, id)
    ensures var (t, outcome) := Evaluate(env, s, id);
            outcome.Err? && id in t.results && t.results[id].Failed? && t.active == s.active
  {
    EvaluateKeeps(env, s, id, roots);
    var (t, outcome) := Evaluate(env, s, id);
    if id in t.cache {
      assert ResultsFaithful(t.cache, t.results);
      SucceededNodesHaveSoundCones(env, t, id, roots);
    }
    assert ResultsFaithful(t.cache, t.results);
  }

  // ----- When a node has a meaning -----

  /** The node fails although everything it depends on has a meaning: its own check, rule or call fails. */
  ghost predicate FailsItself(env: Env, id: string) {
    id in env.Nodes() &&
    (PreCheck(env, env.Nodes()[id].kind).Some?
     || exists values: map<string, Value> ::
          && values.Keys == Deps(env, id)
          && (forall d :: d in values ==> Means(env, d, values[d]))
          && Ready(env, values, id) && LocalValue(env, values, id).None?)
  }

  /** A node has a meaning if and only if its cone is acyclic and complete and no node in it fails by itself. */
  lemma HasMeaningIff(env: Env, id: string)
    ensures (exists v :: Means(env, id, v)) <==>
            && ConeComplete(env, id) && ConeAcyclic(env, id)
            && forall x :: InCone(env, id, x) ==> !FailsItself(env, x)
  {
    GroundedIff(env, id);
    if v :| Means(env, id, v) {
      var k: nat :| Meaning(env, id, k) == Some(v);
      MeaningIsGrounded(env, id, k);
      forall x | InCone(env, id, x)
        ensures !FailsItself(env, x)
      {
        ConeHasMeaning(env, id, x, k);
        MeaningDoesNotFail(env, x, k);
      }
    }
    if ConeComplete(env, id) && ConeAcyclic(env, id) && forall x :: InCone(env, id, x) ==> !FailsItself(env, x) {
      var k: nat :| Grounded(env, id, k);
      GroundedHasMeaning(env, id, k);
      assert Means(env, id, Meaning(env, id, k).value);
    }
  }

  lemma MeaningNeedsNode(env: Env, id: string, k: nat)
    requires Meaning(env, id, k).Some?
    ensures id in env.Nodes()
  {
    hide Meaning, LocalValue;
    MeaningHasValues(env, id, k);
  }

  lemma {:induction false} MeaningIsGrounded(env: Env, id: string, k: nat)
    requires Meaning(env, id, k).Some?
    ensures Grounded(env, id, k)
    decreases k
  {
    hide LocalValue, Meaning, Ready, DependencyGraph;
    MeaningHasValues(env, id, k);
    MeaningNeedsNode(env, id, k);
    forall d | d in Deps(env, id)
      ensures Grounded(env, d, k - 1)
    {
      assert d in Meanings(env, Deps(env, id), k - 1);
      MeaningIsGrounded(env, d, k - 1);
    }
  }

  lemma ConeHasMeaning(env: Env, id: string, x: string, k: nat)
    requires Meaning(env, id, k).Some? && InCone(env, id, x)
    ensures Meaning(env, x, k).Some?
  {
    var p :| PathFromTo(DependencyGraph(env), p, id, x);
    MeaningAlongPath(env, p, |p| - 1, k);
  }

  lemma {:induction false} MeaningAlongPath(env: Env, p: seq<string>, i: nat, k: nat)
    requires IsPath(DependencyGraph(env), p) && Meaning(env, p[0], k).Some? && i < |p|
    ensures Meaning(env, p[i], k).Some?
  {
    hide Meaning, LocalValue, DependencyGraph, Ready;
    if i > 0 {
      MeaningAlongPath(env, p, i - 1, k);
      MeaningHasValues(env, p[i - 1], k);
      assert p[i - 1 + 1] in Succ(DependencyGraph(env), p[i - 1]);
      assert p[i] in Meanings(env, Deps(env, p[i - 1]), k - 1);
      MeaningMonotone(env, p[i], k - 1, k);
    }
  }

  lemma MeaningDoesNotFail(env: Env, id: string, k: nat)
    requires Meaning(env, id, k).Some?
    ensures !FailsItself(env, id)
  {
    hide Meaning, LocalValue;
    MeaningHasValues(env, id, k);
    var mine := Meanings(env, Deps(env, id), k - 1);
    forall values: map<string, Value>
      | && values.Keys == Deps(env, id)
        && (forall d :: d in values ==> Means(env, d, values[d]))
      ensures values == mine
    {
      forall d | d in values
        ensures values[d] == mine[d]
      {
        assert Means(env, d, mine[d]);
        MeaningIsUnique(env, d, values[d], mine[d]);
      }
    }
  }

  lemma {:induction false} GroundedHasMeaning(env: Env, id: string, k: nat)
    requires Grounded(env, id, k) && forall x :: InCone(env, id, x) ==> !FailsItself(env, x)
    ensures Meaning(env, id, k).Some?
    decreases k
  {
    hide Meaning, LocalValue;
    ReachSelf(DependencyGraph(env), id);
    assert InCone(env, id, id);
    forall d | d in Deps(env, id)
      ensures Meaning(env, d, k - 1).Some?
    {
      forall x | InCone(env, d, x)
        ensures !FailsItself(env, x)
      {
        ReachPrepend(DependencyGraph(env), id, d, x);
        assert InCone(env, id, x);
      }
      GroundedHasMeaning(env, d, k - 1);
    }
    var values := Meanings(env, Deps(env, id), k - 1);
    assert values.Keys == Deps(env, id);
    forall d | d in values
      ensures Means(env, d, values[d])
    {
      assert Meaning(env, d, k - 1) == Some(values[d]);
    }
    MeaningFromValues(env, id, k, values);
  }
}
