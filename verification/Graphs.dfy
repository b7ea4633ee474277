/** Directed graphs as successor maps, with paths, reachability and cycles. */
module Graphs {

  type Graph = map<string, set<string>>

  function Succ(g: Graph, x: string): set<string> {
    if x in g then g[x] else {}
  }

  ghost predicate IsPath(g: Graph, p: seq<string>) {
    p != [] && forall i :: 0 <= i < |p| - 1 ==> p[i + 1] in Succ(g, p[i])
  }

  ghost predicate PathFromTo(g: Graph, p: seq<string>, a: string, b: string) {
    IsPath(g, p) && p[0] == a && p[|p| - 1] == b
  }

  /** b can be reached from a in zero or more steps. */
  ghost predicate Reach(g: Graph, a: string, b: string) {
    exists p :: PathFromTo(g, p, a, b)
  }

  /** x lies on a cycle: one step leads to a node that leads back to x. */
  ghost predicate OnCycle(g: Graph, x: string) {
    exists y :: y in Succ(g, x) && Reach(g, y, x)
  }

  lemma ReachSelf(g: Graph, a: string)
    ensures Reach(g, a, a)
  {
    assert PathFromTo(g, [a], a, a);
  }

  lemma ReachAppend(g: Graph, a: string, b: string, c: string)
    requires Reach(g, a, b) && c in Succ(g, b)
    ensures Reach(g, a, c)
  {
    var p :| PathFromTo(g, p, a, b);
    assert PathFromTo(g, p + [c], a, c);
  }

  lemma ReachPrepend(g: Graph, a: string, b: string, c: string)
    requires b in Succ(g, a) && Reach(g, b, c)
    ensures Reach(g, a, c)
  {
    var p :| PathFromTo(g, p, b, c);
    assert PathFromTo(g, [a] + p, a, c);
  }

  /** A set closed under successors holds everything reachable from its members. */
  lemma ClosedContainsReach(g: Graph, closed: set<string>, a: string, b: string)
    requires forall x :: x in closed ==> Succ(g, x) <= closed
    requires a in closed && Reach(g, a, b)
    ensures b in closed
  {
    var p :| PathFromTo(g, p, a, b);
    PathStaysInside(g, closed, p, |p| - 1);
  }

  lemma {:induction false} PathStaysInside(g: Graph, closed: set<string>, p: seq<string>, i: nat)
    requires forall x :: x in closed ==> Succ(g, x) <= closed
    requires IsPath(g, p) && p[0] in closed && i < |p|
    ensures p[i] in closed
  {
    if i > 0 {
      PathStaysInside(g, closed, p, i - 1);
      assert p[i - 1 + 1] in Succ(g, p[i - 1]);
    }
  }

  /** A path longer than the number of nodes it may visit repeats one, so it closes a cycle. */
  lemma LongPathHasCycle(g: Graph, p: seq<string>, nodes: set<string>)
    requires IsPath(g, p) && |p| > |nodes|
    requires forall i :: 0 <= i < |p| ==> p[i] in nodes
    ensures exists i :: 0 <= i < |p| && OnCycle(g, p[i])
  {
    var i, j := FindRepeat(p, nodes);
    assert PathFromTo(g, p[i + 1..j + 1], p[i + 1], p[i]) by {
      var q := p[i + 1..j + 1];
      forall k | 0 <= k < |q| - 1
        ensures q[k + 1] in Succ(g, q[k])
      {
        assert p[i + 1 + k + 1] in Succ(g, p[i + 1 + k]);
      }
    }
    assert p[i + 1] in Succ(g, p[i]);
    assert OnCycle(g, p[i]);
  }

  lemma {:induction false} FindRepeat(p: seq<string>, nodes: set<string>) returns (i: nat, j: nat)
    requires |p| > |nodes| && forall i :: 0 <= i < |p| ==> p[i] in nodes
    ensures i < j < |p| && p[i] == p[j]
    decreases |p|
  {
    var last := p[|p| - 1];
    if k :| 0 <= k < |p| - 1 && p[k] == last {
      return k, |p| - 1;
    }
    assert |nodes - {last}| == |nodes| - 1;
    i, j := FindRepeat(p[..|p| - 1], nodes - {last});
  }
}
