/**
  Keyed runtime states kept as lists: upsert and prune as internal/core/workflow does them for timer states
  (workflow_timer_state.go) and RSS source states (workflow_rss_state.go), and what they mean as maps.
  */
module KeyedStates {
  import opened Lists

  /** How a state is normalised and how its key is formed; a blank key marks a state to be dropped. */
  datatype Shape<!V(!new)> = Shape(normalize: V -> V, key: V -> string)
  {
    ghost predicate Lawful() {
      forall v :: normalize(normalize(v)) == normalize(v)
    }
  }

  // ----- Lists of entries and their meaning -----

  function IndexOf<V(!new)>(shape: Shape<V>, entries: seq<V>, k: string): (i: nat)
    ensures i <= |entries|
    ensures i < |entries| ==> shape.key(entries[i]) == k
    ensures forall j :: 0 <= j < i ==> shape.key(entries[j]) != k
  {
    if entries == [] then 0
    else if shape.key(entries[0]) == k then 0
    else 1 + IndexOf(shape, entries[1..], k)
  }

  /** The map a list stands for; the first entry of a key counts. */
  ghost function Lookup<V(!new)>(shape: Shape<V>, entries: seq<V>): (m: map<string, V>)
    ensures forall k :: k in m <==> IndexOf(shape, entries, k) < |entries|
    ensures forall k :: k in m ==> m[k] == entries[IndexOf(shape, entries, k)]
  {
    map k | k in (set v | v in entries :: shape.key(v)) && IndexOf(shape, entries, k) < |entries|
      :: entries[IndexOf(shape, entries, k)]
  }

  lemma IndexIs<V(!new)>(shape: Shape<V>, entries: seq<V>, k: string, i: nat)
    requires i < |entries| && shape.key(entries[i]) == k && forall j :: 0 <= j < i ==> shape.key(entries[j]) != k
    ensures IndexOf(shape, entries, k) == i
  {
  }

  ghost predicate DistinctKeys<V(!new)>(shape: Shape<V>, entries: seq<V>) {
    forall i, j :: 0 <= i < j < |entries| ==> shape.key(entries[i]) != shape.key(entries[j])
  }

  /** Normalised entries with different, non-blank keys: what upsert and prune produce. */
  ghost predicate Tidy<V(!new)>(shape: Shape<V>, entries: seq<V>) {
    && DistinctKeys(shape, entries)
    && forall i :: 0 <= i < |entries| ==>
         shape.key(entries[i]) != "" && shape.normalize(entries[i]) == entries[i]
  }

  lemma IndexAppend<V(!new)>(shape: Shape<V>, entries: seq<V>, v: V, k: string)
    ensures IndexOf(shape, entries + [v], k)
         == if IndexOf(shape, entries, k) < |entries| then IndexOf(shape, entries, k)
            else if k == shape.key(v) then |entries| else |entries| + 1
  {
    var i := IndexOf(shape, entries, k);
    if i < |entries| {
      IndexIs(shape, entries + [v], k, i);
    } else if k == shape.key(v) {
      IndexIs(shape, entries + [v], k, |entries|);
    }
  }

  lemma LookupAppend<V(!new)>(shape: Shape<V>, entries: seq<V>, v: V)
    ensures Lookup(shape, entries + [v])
         == if shape.key(v) in Lookup(shape, entries) then Lookup(shape, entries)
            else Lookup(shape, entries)[shape.key(v) := v]
  {
    hide IndexOf, Lookup;
    forall k
      ensures IndexOf(shape, entries + [v], k)
           == if IndexOf(shape, entries, k) < |entries| then IndexOf(shape, entries, k)
              else if k == shape.key(v) then |entries| else |entries| + 1
    {
      IndexAppend(shape, entries, v, k);
    }
  }

  lemma LookupReplace<V(!new)>(shape: Shape<V>, entries: seq<V>, i: nat, v: V)
    requires DistinctKeys(shape, entries) && i < |entries| && shape.key(v) == shape.key(entries[i])
    ensures Lookup(shape, entries[i := v]) == Lookup(shape, entries)[shape.key(v) := v]
  {
    var all := entries[i := v];
    forall k
      ensures IndexOf(shape, all, k) == IndexOf(shape, entries, k)
    {
      var j := IndexOf(shape, entries, k);
      if j < |entries| {
        IndexIs(shape, all, k, j);
      }
    }
    IndexIs(shape, entries, shape.key(v), i);
  }

  // ----- Upsert -----

  /** Processing one more state: the last state of a key wins and keeps the position of the first. */
  function Put<V(!new)>(shape: Shape<V>, entries: seq<V>, v: V): seq<V> {
    var n := shape.normalize(v);
    var k := shape.key(n);
    var i := IndexOf(shape, entries, k);
    if k == "" then entries
    else if i < |entries| then entries[i := n]
    else entries + [n]
  }

  function PutAll<V(!new)>(shape: Shape<V>, entries: seq<V>, list: seq<V>): seq<V> {
    if list == [] then entries
    else Put(shape, PutAll(shape, entries, list[..|list| - 1]), list[|list| - 1])
  }

  /** The map updates of a list of states. */
  function Updated<V(!new)>(shape: Shape<V>, m: map<string, V>, list: seq<V>): map<string, V> {
    if list == [] then m
    else
      var n := shape.normalize(list[|list| - 1]);
      var before := Updated(shape, m, list[..|list| - 1]);
      if shape.key(n) == "" then before else before[shape.key(n) := n]
  }

  lemma PutUpdates<V(!new)>(shape: Shape<V>, entries: seq<V>, v: V)
    requires Tidy(shape, entries) && shape.Lawful()
    ensures Tidy(shape, Put(shape, entries, v))
    ensures var n := shape.normalize(v);
            Lookup(shape, Put(shape, entries, v))
            == if shape.key(n) == "" then Lookup(shape, entries) else Lookup(shape, entries)[shape.key(n) := n]
  {
    var n := shape.normalize(v);
    var i := IndexOf(shape, entries, shape.key(n));
    assert shape.normalize(n) == n;
    if shape.key(n) != "" {
      if i < |entries| {
        LookupReplace(shape, entries, i, n);
      } else {
        LookupAppend(shape, entries, n);
      }
    }
  }

  /** Upserting a list of states is updating the map, one state after the other. */
  lemma {:induction false} PutAllUpdates<V(!new)>(shape: Shape<V>, entries: seq<V>, list: seq<V>)
    requires Tidy(shape, entries) && shape.Lawful()
    ensures Tidy(shape, PutAll(shape, entries, list))
    ensures Lookup(shape, PutAll(shape, entries, list)) == Updated(shape, Lookup(shape, entries), list)
  {
    if list != [] {
      PutAllUpdates(shape, entries, list[..|list| - 1]);
      PutUpdates(shape, PutAll(shape, entries, list[..|list| - 1]), list[|list| - 1]);
    }
  }

  /** The working tables of the Go loops: keys in order of appearance, and values by key. */
  ghost predicate Mirrors<V(!new)>(shape: Shape<V>, order: seq<string>, byKey: map<string, V>, entries: seq<V>) {
    && |order| == |entries|
    && (forall i :: 0 <= i < |order| ==>
          order[i] in byKey && byKey[order[i]] == entries[i] && shape.key(entries[i]) == order[i])
    && (forall k :: k in byKey ==> k in order)
    && (forall i, j :: 0 <= i < j < |order| ==> order[i] != order[j])
  }

  method Record<V(!new)>(shape: Shape<V>, order: seq<string>, byKey: map<string, V>, v: V, ghost entries: seq<V>)
    returns (order': seq<string>, byKey': map<string, V>)
    requires Mirrors(shape, order, byKey, entries)
    ensures Mirrors(shape, order', byKey', Put(shape, entries, v))
  {
    var n := shape.normalize(v);
    var k := shape.key(n);
    order', byKey' := order, byKey;
    if k == "" {
      return;
    }
    ghost var i := IndexOf(shape, entries, k);
    if k !in byKey {
      order' := order + [k];
      assert i == |entries|;
    } else {
      var j :| 0 <= j < |order| && order[j] == k;
      IndexIs(shape, entries, k, j);
    }
    byKey' := byKey[k := n];
  }

  /** upsertWorkflowTimerState and applyWorkflowSourceStateUpdates: two passes over one pair of tables. */
  method Upsert<V(!new)>(shape: Shape<V>, existing: seq<V>, updates: seq<V>, limit: nat) returns (out: seq<V>)
    ensures out == Truncate(PutAll(shape, PutAll(shape, [], existing), updates), limit)
  {
    hide Put;
    var order: seq<string>, byKey: map<string, V> := [], map[];
    ghost var entries: seq<V> := [];
    for i := 0 to |existing|
      invariant entries == PutAll(shape, [], existing[..i]) && Mirrors(shape, order, byKey, entries)
    {
      assert existing[..i + 1][..i] == existing[..i];
      order, byKey := Record(shape, order, byKey, existing[i], entries);
      entries := Put(shape, entries, existing[i]);
    }
    assert existing[..|existing|] == existing;
    ghost var first := entries;
    for i := 0 to |updates|
      invariant entries == PutAll(shape, first, updates[..i]) && Mirrors(shape, order, byKey, entries)
    {
      assert updates[..i + 1][..i] == updates[..i];
      order, byKey := Record(shape, order, byKey, updates[i], entries);
      entries := Put(shape, entries, updates[i]);
    }
    assert updates[..|updates|] == updates;
    out := [];
    for i := 0 to |order|
      invariant out == entries[..i]
    {
      out := out + [byKey[order[i]]];
    }
    out := Truncate(out, limit);
  }

  // ----- Prune -----

  function Pruned<V(!new)>(shape: Shape<V>, list: seq<V>, allowed: set<string>): seq<V> {
    if list == [] then []
    else
      var kept := Pruned(shape, list[..|list| - 1], allowed);
      var n := shape.normalize(list[|list| - 1]);
      var k := shape.key(n);
      if k == "" || k !in allowed || IndexOf(shape, kept, k) < |kept| then kept else kept + [n]
  }

  /** The first normalised state of every non-blank key: what a stored list is worth to a later load. */
  ghost function Stored<V(!new)>(shape: Shape<V>, list: seq<V>): map<string, V> {
    if list == [] then map[]
    else
      var before := Stored(shape, list[..|list| - 1]);
      var n := shape.normalize(list[|list| - 1]);
      if shape.key(n) == "" || shape.key(n) in before then before else before[shape.key(n) := n]
  }

  ghost function Restrict<V>(m: map<string, V>, allowed: set<string>): map<string, V> {
    map k | k in m && k in allowed :: m[k]
  }

  lemma RestrictStep<V>(m: map<string, V>, k: string, v: V, allowed: set<string>)
    ensures Restrict(m[k := v], allowed) == if k in allowed then Restrict(m, allowed)[k := v] else Restrict(m, allowed)
  {
  }

  lemma TidyAppend<V(!new)>(shape: Shape<V>, entries: seq<V>, n: V)
    requires Tidy(shape, entries) && shape.normalize(n) == n && shape.key(n) != ""
    requires shape.key(n) !in Lookup(shape, entries)
    ensures Tidy(shape, entries + [n])
    ensures Lookup(shape, entries + [n]) == Lookup(shape, entries)[shape.key(n) := n]
  {
    LookupAppend(shape, entries, n);
  }

  lemma {:induction false} PruneRestricts<V(!new)>(shape: Shape<V>, list: seq<V>, allowed: set<string>)
    requires shape.Lawful()
    ensures Tidy(shape, Pruned(shape, list, allowed))
    ensures Lookup(shape, Pruned(shape, list, allowed)) == Restrict(Stored(shape, list), allowed)
  {
    if list != [] {
      var front, n := list[..|list| - 1], shape.normalize(list[|list| - 1]);
      PruneRestricts(shape, front, allowed);
      var kept := Pruned(shape, front, allowed);
      var before := Stored(shape, front);
      if shape.key(n) != "" && shape.key(n) in allowed && shape.key(n) !in Lookup(shape, kept) {
        TidyAppend(shape, kept, n);
        RestrictStep(before, shape.key(n), n, allowed);
      } else if shape.key(n) != "" && shape.key(n) !in before {
        RestrictStep(before, shape.key(n), n, allowed);
      }
    }
  }

  lemma {:induction false} StoredIsLookup<V(!new)>(shape: Shape<V>, entries: seq<V>)
    requires Tidy(shape, entries)
    ensures Stored(shape, entries) == Lookup(shape, entries)
  {
    if entries != [] {
      var front, last := entries[..|entries| - 1], entries[|entries| - 1];
      StoredIsLookup(shape, front);
      LookupAppend(shape, front, last);
      assert entries == front + [last];
      assert shape.key(last) !in Lookup(shape, front);
    }
  }

  /** pruneWorkflowTimerStates and pruneWorkflowSourceStates */
  method Prune<V(!new)>(shape: Shape<V>, list: seq<V>, allowed: set<string>, limit: nat) returns (out: seq<V>)
    ensures out == Truncate(Pruned(shape, list, allowed), limit)
  {
    var seen: set<string> := {};
    out := [];
    for i := 0 to |list|
      invariant out == Pruned(shape, list[..i], allowed)
      invariant forall k :: k in seen <==> IndexOf(shape, out, k) < |out|
    {
      assert list[..i + 1][..i] == list[..i];
      var n := shape.normalize(list[i]);
      var k := shape.key(n);
      if k != "" && k in allowed && k !in seen {
        seen := seen + {k};
        AppendFinds(shape, out, n);
        out := out + [n];
      }
    }
    assert list[..|list|] == list;
    out := Truncate(out, limit);
  }

  lemma AppendFinds<V(!new)>(shape: Shape<V>, entries: seq<V>, v: V)
    ensures forall k :: IndexOf(shape, entries + [v], k) < |entries| + 1 <==>
                        IndexOf(shape, entries, k) < |entries| || k == shape.key(v)
  {
    LookupAppend(shape, entries, v);
    forall k
      ensures k in Lookup(shape, entries + [v]) <==> k in Lookup(shape, entries) || k == shape.key(v)
    {
    }
  }

  /** A tidy list has one entry per key, so it is as long as its map. */
  lemma {:induction false} TidyLength<V(!new)>(shape: Shape<V>, entries: seq<V>)
    requires Tidy(shape, entries)
    ensures |Lookup(shape, entries)| == |entries|
  {
    if entries != [] {
      var front, last := entries[..|entries| - 1], entries[|entries| - 1];
      TidyLength(shape, front);
      LookupAppend(shape, front, last);
      assert entries == front + [last];
      assert shape.key(last) !in Lookup(shape, front);
      assert Lookup(shape, entries).Keys == Lookup(shape, front).Keys + {shape.key(last)};
      assert |Lookup(shape, entries)| == |Lookup(shape, entries).Keys|;
    }
  }

  lemma SubsetSize(small: set<string>, big: set<string>)
    requires small <= big
    ensures |small| <= |big|
  {
    assert big == small + (big - small);
  }

  /** Loading a stored list of at most `limit` allowed keys: the allowed part of its map, nothing cut off. */
  lemma LoadRestricts<V(!new)>(shape: Shape<V>, list: seq<V>, allowed: set<string>, limit: nat)
    requires shape.Lawful() && |allowed| <= limit
    ensures var loaded := Truncate(Pruned(shape, list, allowed), limit);
            && Tidy(shape, loaded) && Lookup(shape, loaded) == Restrict(Stored(shape, list), allowed)
            && Stored(shape, loaded) == Lookup(shape, loaded)
  {
    var pruned := Pruned(shape, list, allowed);
    PruneRestricts(shape, list, allowed);
    TidyLength(shape, pruned);
    SubsetSize(Lookup(shape, pruned).Keys, allowed);
    StoredIsLookup(shape, pruned);
  }

  /** Upserting allowed keys into a loaded list: the map updates, nothing cut off. */
  lemma UpsertUpdates<V(!new)>(shape: Shape<V>, entries: seq<V>, updates: seq<V>, allowed: set<string>, limit: nat)
    requires shape.Lawful() && |allowed| <= limit
    requires Tidy(shape, entries) && Lookup(shape, entries).Keys <= allowed
    requires forall i :: 0 <= i < |updates| ==> shape.key(shape.normalize(updates[i])) in allowed
    ensures var saved := Truncate(PutAll(shape, PutAll(shape, [], entries), updates), limit);
            && Tidy(shape, saved) && Lookup(shape, saved) == Updated(shape, Lookup(shape, entries), updates)
            && Stored(shape, saved) == Lookup(shape, saved) && Lookup(shape, saved).Keys <= allowed
  {
    ReputTidy(shape, entries);
    PutAllUpdates(shape, entries, updates);
    var saved := PutAll(shape, entries, updates);
    UpdatedStaysAllowed(shape, Lookup(shape, entries), updates, allowed);
    TidyLength(shape, saved);
    SubsetSize(Lookup(shape, saved).Keys, allowed);
    StoredIsLookup(shape, saved);
  }

  /** Passing a tidy list through the tables gives it back. */
  lemma {:induction false} ReputTidy<V(!new)>(shape: Shape<V>, entries: seq<V>)
    requires Tidy(shape, entries)
    ensures PutAll(shape, [], entries) == entries
  {
    if entries != [] {
      var front, last := entries[..|entries| - 1], entries[|entries| - 1];
      ReputTidy(shape, front);
      assert entries == front + [last];
      assert forall j :: 0 <= j < |front| ==> shape.key(front[j]) != shape.key(last);
    }
  }

  /** The table a Go loop fills from a tidy list is the map the list stands for. */
  lemma TableIsLookup<V(!new)>(shape: Shape<V>, entries: seq<V>)
    requires Tidy(shape, entries) && shape.Lawful()
    ensures Updated(shape, map[], entries) == Lookup(shape, entries)
  {
    var nothing: seq<V> := [];
    assert Lookup(shape, nothing) == map[];
    PutAllUpdates(shape, nothing, entries);
    ReputTidy(shape, entries);
  }

  lemma {:induction false} UpdatedStaysAllowed<V(!new)>(shape: Shape<V>, m: map<string, V>, updates: seq<V>,
                                                        allowed: set<string>)
    requires m.Keys <= allowed
    requires forall i :: 0 <= i < |updates| ==> shape.key(shape.normalize(updates[i])) in allowed
    ensures Updated(shape, m, updates).Keys <= allowed
  {
    if updates != [] {
      UpdatedStaysAllowed(shape, m, updates[..|updates| - 1], allowed);
    }
  }
}
