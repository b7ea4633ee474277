/** List helpers: the cut shared by the repository's packages, and what it means to select from a list in order. */
module Lists {

  /** truncateList: no limit when it is zero. */
  function Truncate<T>(list: seq<T>, limit: nat): (r: seq<T>)
    ensures r <= list && (limit > 0 ==> |r| <= limit)
    ensures |r| < |list| ==> |r| == limit
  {
    if limit == 0 || |list| <= limit then list else list[..limit]
  }

  /** Strictly increasing positions that hit exactly the elements with the property. */
  ghost predicate Positions<T(!new)>(at: seq<nat>, list: seq<T>, p: T -> bool) {
    && (forall k :: 0 <= k < |at| ==> at[k] < |list| && p(list[at[k]]))
    && (forall j, k :: 0 <= j < k < |at| ==> at[j] < at[k])
    && (forall i: nat :: i < |list| && p(list[i]) ==> i in at)
  }

  /** The images of the elements at these positions. */
  ghost predicate Images<T(!new), U>(selected: seq<U>, at: seq<nat>, list: seq<T>, f: T -> U) {
    |selected| == |at| && forall k :: 0 <= k < |at| ==> at[k] < |list| && selected[k] == f(list[at[k]])
  }

  /** The images of exactly the elements with the property, in the order of the list. */
  ghost predicate Selects<T(!new), U>(selected: seq<U>, list: seq<T>, p: T -> bool, f: T -> U) {
    exists at :: Positions(at, list, p) && Images(selected, at, list, f)
  }

  lemma SelectsNothing<T(!new), U>(p: T -> bool, f: T -> U)
    ensures Selects([], [], p, f)
  {
    var none: seq<nat> := [];
    assert Positions<T>(none, [], p) && Images<T, U>([], none, [], f);
  }

  lemma PositionsNext<T(!new)>(at: seq<nat>, list: seq<T>, x: T, p: T -> bool)
    requires Positions(at, list, p)
    ensures Positions(at + (if p(x) then [|list|] else []), list + [x], p)
  {
    var more, next := list + [x], at + (if p(x) then [|list|] else []);
    forall k | 0 <= k < |next|
      ensures next[k] < |more| && p(more[next[k]])
    {
      if k < |at| {
        assert more[at[k]] == list[at[k]];
      }
    }
    forall i: nat | i < |more| && p(more[i])
      ensures i in next
    {
      if i < |list| {
        assert more[i] == list[i];
        assert i in at;
      } else {
        assert next[|at|] == i;
      }
    }
  }

  lemma ImagesNext<T(!new), U>(selected: seq<U>, at: seq<nat>, list: seq<T>, x: T, f: T -> U)
    requires Images(selected, at, list, f)
    ensures Images(selected, at, list + [x], f) && Images(selected + [f(x)], at + [|list|], list + [x], f)
  {
  }

  lemma SelectedBy<T(!new), U>(selected: seq<U>, at: seq<nat>, list: seq<T>, p: T -> bool, f: T -> U)
    requires Positions(at, list, p) && Images(selected, at, list, f)
    ensures Selects(selected, list, p, f)
  {
  }

  lemma SelectsNext<T(!new), U>(selected: seq<U>, list: seq<T>, x: T, p: T -> bool, f: T -> U)
    requires Selects(selected, list, p, f)
    ensures Selects(selected + (if p(x) then [f(x)] else []), list + [x], p, f)
  {
    var at: seq<nat> :| Positions(at, list, p) && Images(selected, at, list, f);
    hide Positions, Images, Selects;
    PositionsNext(at, list, x, p);
    ImagesNext(selected, at, list, x, f);
    if p(x) {
      SelectedBy(selected + [f(x)], at + [|list|], list + [x], p, f);
    } else {
      assert selected + [] == selected && at + [] == at;
      SelectedBy(selected, at, list + [x], p, f);
    }
  }

  /** Nothing is selected exactly if no element has the property. */
  lemma NothingSelectedIff<T(!new), U>(selected: seq<U>, list: seq<T>, p: T -> bool, f: T -> U)
    requires Selects(selected, list, p, f)
    ensures selected == [] <==> !exists x :: x in list && p(x)
  {
    var at: seq<nat> :| Positions(at, list, p) && Images(selected, at, list, f);
    if selected != [] {
      assert p(list[at[0]]) && list[at[0]] in list;
    }
    if x :| x in list && p(x) {
      var i: nat :| i < |list| && list[i] == x;
      assert i in at;
    }
  }

  lemma SelectedMembers<T(!new)>(selected: seq<T>, list: seq<T>, p: T -> bool, at: seq<nat>, x: T)
    requires Positions(at, list, p) && Images(selected, at, list, (y: T) => y)
    ensures x in selected <==> x in list && p(x)
  {
    if x in selected {
      var k :| 0 <= k < |selected| && selected[k] == x;
      assert list[at[k]] == x;
    }
    if x in list && p(x) {
      var i: nat :| i < |list| && list[i] == x;
      assert i in at;
      var k :| 0 <= k < |at| && at[k] == i;
      assert selected[k] == x;
    }
  }
}
