/**
  The scheduling half of the workflow service: the stored documents and the job queue, with the methods that load,
  claim, store and enqueue, each proved to be a step of the state machine in Scheduler.
  */
module TimerService {
  import opened Outcomes
  import opened WorkflowModel
  import opened TimeSchedule
  import opened TriggerScope
  import opened WindowGate
  import opened KeyedStates
  import opened Scheduler
  import Text

  /** The instants of the last firings. */
  ghost function Lasts(m: map<string, TimerState>): map<string, int> {
    map k | k in m :: m[k].lastTriggeredAt
  }

  lemma LastsRestrict(m: map<string, TimerState>, allowed: set<string>)
    ensures Lasts(Restrict(m, allowed)) == Restrict(Lasts(m), allowed)
  {
  }

  // ----- Due timers -----

  ghost function DueIds(workflow: Workflow, nodes: seq<Node>, lasts: map<string, int>, now: int): seq<string> {
    if nodes == [] then []
    else
      var last := nodes[|nodes| - 1];
      DueIds(workflow, nodes[..|nodes| - 1], lasts, now)
      + (if last.kind.Timer? && Due(TimerRef(workflow, last), lasts, now) then [last.id] else [])
  }

  /** The by-workflow table of dueWorkflowTimerNodes. */
  ghost predicate DueTable(workflows: seq<Workflow>, lasts: map<string, int>, now: int, due: map<string, seq<string>>) {
    && (forall w :: w in workflows ==>
          var ids := DueIds(w, w.nodes, lasts, now);
          if ids == [] then w.id !in due else w.id in due && due[w.id] == ids)
    && (forall id :: id in due ==> exists w :: w in workflows && w.id == id)
  }

  method IsDue(workflow: Workflow, node: Node, states: map<string, TimerState>, now: int) returns (due: bool)
    ensures due == (node.kind.Timer? && Due(TimerRef(workflow, node), Lasts(states), now))
  {
    if !node.kind.Timer? || OutgoingEdges(workflow.edges, node.id) == [] {
      return false;
    }
    var open := TriggerWindowsMatch(workflow, node.id, now);
    if !open || TimerSpec(node).None? {
      return false;
    }
    var key := TimerKey(workflow.id, node.id);
    var last := None;
    if key in states && states[key].lastTriggeredAt != ZERO_TIME {
      last := Some(states[key].lastTriggeredAt);
    }
    return Matches(now, TimerSpec(node).value, last);
  }

  method DueInWorkflow(workflow: Workflow, states: map<string, TimerState>, now: int) returns (ids: seq<string>)
    ensures ids == DueIds(workflow, workflow.nodes, Lasts(states), now)
  {
    hide Due;
    var nodes := workflow.nodes;
    ids := [];
    for i := 0 to |nodes|
      invariant ids == DueIds(workflow, nodes[..i], Lasts(states), now)
    {
      assert nodes[..i + 1][..i] == nodes[..i];
      var due := IsDue(workflow, nodes[i], states, now);
      if due {
        ids := ids + [nodes[i].id];
      }
    }
    assert nodes[..|nodes|] == nodes;
  }

  method DueTimerNodes(workflows: seq<Workflow>, states: map<string, TimerState>, now: int)
    returns (due: map<string, seq<string>>)
    requires forall i, j :: 0 <= i < j < |workflows| ==> workflows[i].id != workflows[j].id
    ensures DueTable(workflows, Lasts(states), now, due)
  {
    hide DueIds;
    due := map[];
    for i := 0 to |workflows|
      invariant DueTable(workflows[..i], Lasts(states), now, due)
    {
      assert workflows[..i + 1] == workflows[..i] + [workflows[i]];
      var ids := DueInWorkflow(workflows[i], states, now);
      assert forall w :: w in workflows[..i] ==> w.id != workflows[i].id;
      assert workflows[i].id !in due;
      if ids != [] {
        due := due[workflows[i].id := ids];
      }
      forall id | id in due
        ensures exists w :: w in workflows[..i + 1] && w.id == id
      {
        if id == workflows[i].id {
          assert workflows[i] in workflows[..i + 1];
        } else {
          var w :| w in workflows[..i] && w.id == id;
          assert w in workflows[..i + 1];
        }
      }
    }
    assert workflows[..|workflows|] == workflows;
  }

  // ----- Jobs -----

  function WorkflowJobs(workflow: Workflow, ids: seq<string>, now: int): seq<Job> {
    if ids == [] then []
    else WorkflowJobs(workflow, ids[..|ids| - 1], now)
         + [Job(workflow.id, workflow.updatedAt, ids[|ids| - 1], now)]
  }

  lemma {:induction false} ClaimsAppend(front: seq<TimerRef>, back: seq<TimerRef>, lasts: map<string, int>, now: int)
    ensures Claims(front + back, lasts, now) == Claims(front, lasts, now) + Claims(back, lasts, now)
  {
    hide Due, ClaimFor;
    if back == [] {
      assert front + back == front;
    } else {
      var last := back[|back| - 1];
      assert (front + back)[..|front + back| - 1] == front + back[..|back| - 1];
      ClaimsAppend(front, back[..|back| - 1], lasts, now);
    }
  }

  lemma {:induction false} JobsAppend(front: seq<Claim>, back: seq<Claim>)
    ensures JobsOf(front + back) == JobsOf(front) + JobsOf(back)
  {
    if back == [] {
      assert front + back == front;
    } else {
      assert (front + back)[..|front + back| - 1] == front + back[..|back| - 1];
      JobsAppend(front, back[..|back| - 1]);
    }
  }

  lemma {:induction false} WorkflowJobsAreClaims(workflow: Workflow, nodes: seq<Node>, lasts: map<string, int>,
                                                 now: int)
    ensures JobsOf(Claims(TimersIn(workflow, nodes), lasts, now))
         == WorkflowJobs(workflow, DueIds(workflow, nodes, lasts, now), now)
  {
    hide Due;
    if nodes != [] {
      var front, last := nodes[..|nodes| - 1], nodes[|nodes| - 1];
      WorkflowJobsAreClaims(workflow, front, lasts, now);
      var timers, ids := TimersIn(workflow, front), DueIds(workflow, front, lasts, now);
      var t := TimerRef(workflow, last);
      assert (timers + [t])[..|timers|] == timers;
      if last.kind.Timer? && Due(t, lasts, now) {
        var c := ClaimFor(t, now);
        JobsAppend(Claims(timers, lasts, now), [c]);
        assert [c][..0] == [] && JobsOf([c]) == [c.job];
        assert (ids + [last.id])[..|ids|] == ids;
      } else {
        assert DueIds(workflow, nodes, lasts, now) == ids;
        if last.kind.Timer? {
          assert TimersIn(workflow, nodes) == timers + [t];
          assert Claims(timers + [t], lasts, now) == Claims(timers, lasts, now) + [] == Claims(timers, lasts, now);
        } else {
          assert TimersIn(workflow, nodes) == timers;
        }
      }
    }
  }

  /** buildWorkflowScheduledRuns: the jobs of the claims, in the order of the definitions. */
  method BuildScheduledRuns(workflows: seq<Workflow>, due: map<string, seq<string>>, now: int,
                            ghost lasts: map<string, int>)
    returns (jobs: seq<Job>)
    requires DueTable(workflows, lasts, now, due)
    ensures jobs == JobsOf(Claims(TimersOf(workflows), lasts, now))
  {
    hide DueIds, Due, Claims, JobsOf, WorkflowJobs, TimersIn;
    jobs := [];
    NoClaims(lasts, now);
    for i := 0 to |workflows|
      invariant jobs == JobsOf(Claims(TimersOf(workflows[..i]), lasts, now))
    {
      var workflow := workflows[i];
      assert workflows[..i + 1][..i] == workflows[..i];
      var ids := if workflow.id in due then due[workflow.id] else [];
      assert workflow in workflows && ids == DueIds(workflow, workflow.nodes, lasts, now);
      jobs := jobs + WorkflowJobs(workflow, ids, now);
      ghost var before, own := TimersOf(workflows[..i]), TimersIn(workflow, workflow.nodes);
      ClaimsAppend(before, own, lasts, now);
      JobsAppend(Claims(before, lasts, now), Claims(own, lasts, now));
      WorkflowJobsAreClaims(workflow, workflow.nodes, lasts, now);
    }
    assert workflows[..|workflows|] == workflows;
  }

  lemma NoClaims(lasts: map<string, int>, now: int)
    ensures Claims([], lasts, now) == [] && JobsOf([]) == []
  {
  }

  // ----- Recording the claims -----

  function TimerUpdates(workflowID: string, ids: seq<string>, now: int): seq<TimerState> {
    if ids == [] then []
    else TimerUpdates(workflowID, ids[..|ids| - 1], now)
         + [TimerState(Text.TrimSpace(workflowID), Text.TrimSpace(ids[|ids| - 1]), now, now)]
  }

  ghost function IdKeys(workflowID: string, ids: seq<string>): set<string> {
    set n | n in ids :: TimerKey(workflowID, n)
  }

  ghost function SetAll(lasts: map<string, int>, keys: set<string>, now: int): map<string, int> {
    lasts + map k | k in keys :: now
  }

  lemma UpdateKey(workflowID: string, id: string, now: int)
    ensures var n := TIMER_SHAPE.normalize(TimerState(Text.TrimSpace(workflowID), Text.TrimSpace(id), now, now));
            TIMER_SHAPE.key(n) == TimerKey(workflowID, id) && n.lastTriggeredAt == now
  {
    Text.TrimSpaceTrims(workflowID);
    Text.TrimSpaceTrims(Text.TrimSpace(workflowID));
    Text.TrimSpaceTrims(id);
    Text.TrimSpaceTrims(Text.TrimSpace(id));
  }

  lemma SetAllAt(lasts: map<string, int>, keys: set<string>, now: int)
    ensures SetAll(lasts, keys, now).Keys == lasts.Keys + keys
    ensures forall x :: x in SetAll(lasts, keys, now) ==>
              SetAll(lasts, keys, now)[x] == if x in keys then now else lasts[x]
  {
  }

  lemma SetOneMore(m: map<string, TimerState>, lasts: map<string, int>, keys: set<string>, k: string, n: TimerState,
                   now: int)
    requires Lasts(m) == SetAll(lasts, keys, now) && n.lastTriggeredAt == now
    ensures Lasts(m[k := n]) == SetAll(lasts, keys + {k}, now)
  {
    SetAllAt(lasts, keys, now);
    SetAllAt(lasts, keys + {k}, now);
    hide SetAll;
    var left, right := Lasts(m[k := n]), SetAll(lasts, keys + {k}, now);
    assert m.Keys == Lasts(m).Keys == SetAll(lasts, keys, now).Keys == lasts.Keys + keys;
    assert left.Keys == m.Keys + {k} == right.Keys;
    forall x | x in left
      ensures left[x] == right[x]
    {
      if x != k {
        assert left[x] == Lasts(m)[x] == SetAll(lasts, keys, now)[x] == right[x];
      }
    }
  }

  lemma SetAllTwice(lasts: map<string, int>, keys: set<string>, more: set<string>, now: int)
    ensures SetAll(SetAll(lasts, keys, now), more, now) == SetAll(lasts, keys + more, now)
  {
  }

  /** Upserting the timers of one workflow sets their last firings and no others. */
  lemma {:induction false} UpdatesSetLasts(m: map<string, TimerState>, workflowID: string, ids: seq<string>, now: int)
    requires forall n :: n in ids ==> TimerKey(workflowID, n) != ""
    ensures Lasts(Updated(TIMER_SHAPE, m, TimerUpdates(workflowID, ids, now)))
         == SetAll(Lasts(m), IdKeys(workflowID, ids), now)
  {
    hide TimerKey, NormalizeTimerState, SetAll, Lasts;
    if ids == [] {
      assert IdKeys(workflowID, ids) == {};
      NothingSet(m, now);
    } else {
      var front, last := ids[..|ids| - 1], ids[|ids| - 1];
      assert ids == front + [last];
      UpdatesSetLasts(m, workflowID, front, now);
      UpdateKey(workflowID, last, now);
      var before := TimerUpdates(workflowID, front, now);
      var update := TimerState(Text.TrimSpace(workflowID), Text.TrimSpace(last), now, now);
      assert (before + [update])[..|before|] == before;
      assert IdKeys(workflowID, ids) == IdKeys(workflowID, front) + {TimerKey(workflowID, last)};
      SetOneMore(Updated(TIMER_SHAPE, m, before), Lasts(m), IdKeys(workflowID, front), TimerKey(workflowID, last),
                 TIMER_SHAPE.normalize(update), now);
    }
  }

  lemma NothingSet(m: map<string, TimerState>, now: int)
    ensures Lasts(m) == SetAll(Lasts(m), {}, now)
  {
  }

  function StateKey(s: TimerState): string {
    TIMER_SHAPE.key(TIMER_SHAPE.normalize(s))
  }

  lemma {:induction false} UpdatesHaveIdKeys(workflowID: string, ids: seq<string>, now: int)
    ensures forall u :: u in TimerUpdates(workflowID, ids, now) ==> StateKey(u) in IdKeys(workflowID, ids)
  {
    if ids != [] {
      var front, last := ids[..|ids| - 1], ids[|ids| - 1];
      assert ids == front + [last];
      UpdatesHaveIdKeys(workflowID, front, now);
      UpdateKey(workflowID, last, now);
      assert IdKeys(workflowID, ids) == IdKeys(workflowID, front) + {TimerKey(workflowID, last)};
    }
  }

  ghost function TableKeys(due: map<string, seq<string>>, done: set<string>): set<string> {
    set w, n | w in done && w in due && n in due[w] :: TimerKey(w, n)
  }

  ghost predicate Recordable(states: seq<TimerState>, allowed: set<string>) {
    Tidy(TIMER_SHAPE, states) && Lookup(TIMER_SHAPE, states).Keys <= allowed
    && Stored(TIMER_SHAPE, states) == Lookup(TIMER_SHAPE, states)
  }

  method RecordWorkflow(loaded: seq<TimerState>, workflowID: string, ids: seq<string>, now: int,
                        ghost allowed: set<string>)
    returns (states: seq<TimerState>)
    requires |allowed| <= TIMER_STATE_LIMIT && Recordable(loaded, allowed)
    requires IdKeys(workflowID, ids) <= allowed && "" !in allowed
    ensures Recordable(states, allowed)
    ensures Lasts(Lookup(TIMER_SHAPE, states))
            == SetAll(Lasts(Lookup(TIMER_SHAPE, loaded)), IdKeys(workflowID, ids), now)
  {
    hide Lookup, Stored, Tidy, TimerKey, Pruned, PutAll, Lasts, SetAll, TimerUpdates, Updated;
    TimerShapeIsLawful();
    var updates := TimerUpdates(workflowID, ids, now);
    forall n | n in ids
      ensures TimerKey(workflowID, n) != ""
    {
      assert TimerKey(workflowID, n) in IdKeys(workflowID, ids);
    }
    UpdatesSetLasts(Lookup(TIMER_SHAPE, loaded), workflowID, ids, now);
    UpdatesHaveIdKeys(workflowID, ids, now);
    forall i | 0 <= i < |updates|
      ensures TIMER_SHAPE.key(TIMER_SHAPE.normalize(updates[i])) in allowed
    {
      assert updates[i] in updates;
      assert StateKey(updates[i]) in allowed;
    }
    UpsertUpdates(TIMER_SHAPE, loaded, updates, allowed, TIMER_STATE_LIMIT);
    states := Upsert(TIMER_SHAPE, loaded, updates, TIMER_STATE_LIMIT);
  }

  lemma TableKeysStep(due: map<string, seq<string>>, done: set<string>, w: string)
    requires w in due
    ensures TableKeys(due, done + {w}) == TableKeys(due, done) + IdKeys(w, due[w])
  {
    hide TimerKey;
  }

  /** The loop over the due table, in any order of its keys. */
  method RecordClaims(loaded: seq<TimerState>, due: map<string, seq<string>>, now: int, ghost allowed: set<string>)
    returns (states: seq<TimerState>)
    requires |allowed| <= TIMER_STATE_LIMIT && Recordable(loaded, allowed)
    requires TableKeys(due, due.Keys) <= allowed && "" !in allowed
    ensures Recordable(states, allowed)
    ensures Lasts(Lookup(TIMER_SHAPE, states))
         == SetAll(Lasts(Lookup(TIMER_SHAPE, loaded)), TableKeys(due, due.Keys), now)
  {
    hide Recordable, Lookup, TableKeys, IdKeys, SetAll, Lasts;
    ghost var before := Lasts(Lookup(TIMER_SHAPE, loaded));
    states := loaded;
    var remaining := due.Keys;
    assert due.Keys - remaining == {};
    NothingRecorded(Lookup(TIMER_SHAPE, loaded), due, now);
    while remaining != {}
      invariant remaining <= due.Keys && Recordable(states, allowed)
      invariant Lasts(Lookup(TIMER_SHAPE, states)) == SetAll(before, TableKeys(due, due.Keys - remaining), now)
      decreases remaining
    {
      var w :| w in remaining;
      ghost var done := due.Keys - remaining;
      assert due.Keys - (remaining - {w}) == done + {w};
      remaining := remaining - {w};
      TableKeysStep(due, done, w);
      TableKeysStep(due, due.Keys, w);
      assert due.Keys + {w} == due.Keys;
      SetAllTwice(before, TableKeys(due, done), IdKeys(w, due[w]), now);
      states := RecordWorkflow(states, w, due[w], now, allowed);
    }
    assert due.Keys - remaining == due.Keys;
  }

  lemma NothingRecorded(m: map<string, TimerState>, due: map<string, seq<string>>, now: int)
    ensures Lasts(m) == SetAll(Lasts(m), TableKeys(due, {}), now)
  {
    NothingSet(m, now);
    assert TableKeys(due, {}) == {};
  }

  // ----- The recorded keys are the claimed ones -----

  ghost predicate DueIn(workflow: Workflow, nodes: seq<Node>, lasts: map<string, int>, now: int, id: string) {
    exists n :: n in nodes && n.id == id && n.kind.Timer? && Due(TimerRef(workflow, n), lasts, now)
  }

  lemma {:induction false} DueIdsAre(workflow: Workflow, nodes: seq<Node>, lasts: map<string, int>, now: int)
    ensures forall id :: id in DueIds(workflow, nodes, lasts, now) <==> DueIn(workflow, nodes, lasts, now, id)
  {
    hide Due;
    if nodes != [] {
      var front, last := nodes[..|nodes| - 1], nodes[|nodes| - 1];
      assert nodes == front + [last];
      DueIdsAre(workflow, front, lasts, now);
      forall id
        ensures DueIn(workflow, nodes, lasts, now, id) <==>
                DueIn(workflow, front, lasts, now, id)
                || (last.id == id && last.kind.Timer? && Due(TimerRef(workflow, last), lasts, now))
      {
        assert last in nodes;
        assert forall n :: n in front ==> n in nodes;
      }
    }
  }

  lemma {:induction false} TimersInAre(workflow: Workflow, nodes: seq<Node>)
    ensures forall t :: t in TimersIn(workflow, nodes) <==>
                        t.workflow == workflow && t.node in nodes && t.node.kind.Timer?
  {
    if nodes != [] {
      assert nodes == nodes[..|nodes| - 1] + [nodes[|nodes| - 1]];
      TimersInAre(workflow, nodes[..|nodes| - 1]);
    }
  }

  lemma {:induction false} TimersOfAre(workflows: seq<Workflow>)
    ensures forall t :: t in TimersOf(workflows) <==>
                        t.workflow in workflows && t.node in t.workflow.nodes && t.node.kind.Timer?
  {
    if workflows != [] {
      var last := workflows[|workflows| - 1];
      assert workflows == workflows[..|workflows| - 1] + [last];
      TimersOfAre(workflows[..|workflows| - 1]);
      TimersInAre(last, last.nodes);
    }
  }

  lemma DueTimerIsInTable(workflows: seq<Workflow>, lasts: map<string, int>, now: int, due: map<string, seq<string>>,
                          t: TimerRef)
    requires DueTable(workflows, lasts, now, due)
    requires t.workflow in workflows && t.node in t.workflow.nodes && t.node.kind.Timer? && Due(t, lasts, now)
    ensures t.workflow.id in due && t.node.id in due[t.workflow.id]
  {
    hide Due, DueIds;
    DueIdsAre(t.workflow, t.workflow.nodes, lasts, now);
    assert t == TimerRef(t.workflow, t.node);
    assert DueIn(t.workflow, t.workflow.nodes, lasts, now, t.node.id);
  }

  lemma TableEntryIsDue(workflows: seq<Workflow>, lasts: map<string, int>, now: int, due: map<string, seq<string>>,
                        w: string, n: string)
    returns (t: TimerRef)
    requires DueTable(workflows, lasts, now, due) && w in due && n in due[w]
    ensures t.workflow in workflows && t.node in t.workflow.nodes && t.node.kind.Timer? && Due(t, lasts, now)
    ensures t.workflow.id == w && t.node.id == n
  {
    hide Due, DueIds;
    var workflow :| workflow in workflows && workflow.id == w;
    DueIdsAre(workflow, workflow.nodes, lasts, now);
    var node :| node in workflow.nodes && node.id == n && node.kind.Timer? && Due(TimerRef(workflow, node), lasts, now);
    t := TimerRef(workflow, node);
  }

  lemma DueTableHasClaimKeys(workflows: seq<Workflow>, lasts: map<string, int>, now: int, due: map<string, seq<string>>)
    requires DueTable(workflows, lasts, now, due)
    ensures TableKeys(due, due.Keys) == ClaimKeys(Claims(TimersOf(workflows), lasts, now))
  {
    hide Due, TimerKey, Claims, DueTable, TimersOf, ClaimFor;
    var claims := Claims(TimersOf(workflows), lasts, now);
    ClaimsAreDue(TimersOf(workflows), lasts, now);
    TimersOfAre(workflows);
    forall k | k in TableKeys(due, due.Keys)
      ensures k in ClaimKeys(claims)
    {
      var w, n :| w in due && n in due[w] && TimerKey(w, n) == k;
      var t := TableEntryIsDue(workflows, lasts, now, due, w, n);
      ClaimHasKey(t, lasts, now);
      assert ClaimOf(t, lasts, now, ClaimFor(t, now));
    }
    forall k | k in ClaimKeys(claims)
      ensures k in TableKeys(due, due.Keys)
    {
      var c :| c in claims && c.key == k;
      var t :| t in TimersOf(workflows) && ClaimOf(t, lasts, now, c);
      ClaimHasKey(t, lasts, now);
      DueTimerIsInTable(workflows, lasts, now, due, t);
    }
  }

  lemma ClaimHasKey(t: TimerRef, lasts: map<string, int>, now: int)
    requires Due(t, lasts, now)
    ensures ClaimFor(t, now).key == TimerKey(t.workflow.id, t.node.id)
  {
  }

  lemma ClaimKeysAreAllowed(workflows: seq<Workflow>, lasts: map<string, int>, now: int)
    requires WellFormed(workflows)
    ensures ClaimKeys(Claims(TimersOf(workflows), lasts, now)) <= AllowedKeys(workflows)
  {
    hide Due, TimerKey, Claims, TimersOf, ClaimFor;
    var claims, timers := Claims(TimersOf(workflows), lasts, now), TimersOf(workflows);
    ClaimsAreDue(timers, lasts, now);
    forall k | k in ClaimKeys(claims)
      ensures k in AllowedKeys(workflows)
    {
      var c :| c in claims && c.key == k;
      var t :| t in timers && ClaimOf(t, lasts, now, c);
      ClaimHasKey(t, lasts, now);
      var i :| 0 <= i < |timers| && timers[i] == t;
      assert KeyOf(timers[i]) != "";
    }
  }

  // ----- The service -----

  class WorkflowTimers {
    var workflows: seq<Workflow>
    var timerStates: seq<TimerState>
    var queue: seq<Job>
    ghost var enqueued: seq<Claim>

    /** The abstract state: the timer list as the map a load would find in it. */
    ghost function Model(): Sched
      reads this
    {
      Sched(workflows, Lasts(Stored(TIMER_SHAPE, timerStates)), queue, enqueued)
    }

    constructor (workflows: seq<Workflow>, timerStates: seq<TimerState>)
      ensures Model() == Sched(workflows, Lasts(Stored(TIMER_SHAPE, timerStates)), [], [])
    {
      this.workflows, this.timerStates, this.queue, this.enqueued := workflows, timerStates, [], [];
    }

    /** load: the stored timer states without those of timers that no longer exist. */
    method Load() returns (loaded: seq<TimerState>)
      requires WellFormed(workflows)
      ensures Recordable(loaded, AllowedKeys(workflows)) && Tidy(TIMER_SHAPE, loaded)
      ensures Lasts(Lookup(TIMER_SHAPE, loaded)) == Loaded(Model())
    {
      TimerShapeIsLawful();
      loaded := Prune(TIMER_SHAPE, timerStates, AllowedKeys(workflows), TIMER_STATE_LIMIT);
      LoadRestricts(TIMER_SHAPE, timerStates, AllowedKeys(workflows), TIMER_STATE_LIMIT);
      LastsRestrict(Stored(TIMER_SHAPE, timerStates), AllowedKeys(workflows));
    }

    /** The claim inside update: load, find the due timers, build their jobs, record the instant. */
    method ClaimDue(now: int) returns (jobs: seq<Job>, states: seq<TimerState>)
      requires WellFormed(workflows)
      ensures jobs == JobsOf(ClaimsAt(Model(), now))
      ensures Recordable(states, AllowedKeys(workflows))
      ensures Lasts(Lookup(TIMER_SHAPE, states)) == Recorded(Loaded(Model()), ClaimsAt(Model(), now), now)
    {
      hide Recordable, Lookup, Tidy, Claims, AllowedKeys, DueIds, JobsOf;
      var loaded := Load();
      TimerShapeIsLawful();
      TableIsLookup(TIMER_SHAPE, loaded);
      ghost var lasts := Loaded(Model());
      var due := DueTimerNodes(workflows, Updated(TIMER_SHAPE, map[], loaded), now);
      jobs := BuildScheduledRuns(workflows, due, now, lasts);
      DueTableHasClaimKeys(workflows, lasts, now, due);
      ClaimKeysAreAllowed(workflows, lasts, now);
      NoBlankKeyAllowed(workflows);
      states := RecordClaims(loaded, due, now, AllowedKeys(workflows));
    }

    /** handleWorkflowTimeTick: claim and store under the lock, enqueue only what was stored without error. */
    method HandleTick(now: int, save: Save, delivered: nat)
      requires WellFormed(workflows)
      modifies this
      ensures Model() == Step(old(Model()), Tick(now, save, delivered))
    {
      hide Claims, AllowedKeys, JobsOf, Lookup, KeyedStates.Stored, Tidy, Recorded, Lasts, WellFormed, Loaded;
      var jobs, states := ClaimDue(now);
      ghost var claims := ClaimsAt(Model(), now);
      JobsHaveClaims(claims);
      if !save.SaveFailed? {
        timerStates := states;
      }
      if !save.SaveOk? {
        NoClaims(Loaded(Model()), now);
        return;
      }
      var sent := if delivered < |jobs| then delivered else |jobs|;
      JobsPrefix(claims, sent);
      queue := queue + jobs[..sent];
      enqueued := enqueued + claims[..sent];
    }

    method Restart()
      modifies this
      ensures Model() == Step(old(Model()), Event.Restart)
    {
      queue := [];
    }

    method TakeJob() returns (job: Option<Job>)
      modifies this
      ensures Model() == Step(old(Model()), Event.TakeJob)
      ensures job == if old(queue) == [] then None else Some(old(queue)[0])
    {
      if queue == [] {
        return None;
      }
      job := Some(queue[0]);
      queue := queue[1..];
    }

    /** A run is appended: other fields change, the timer states are loaded and stored again. */
    method AppendRun(save: Save)
      requires WellFormed(workflows)
      modifies this
      ensures Model() == Step(old(Model()), Event.AppendRun(save))
    {
      var loaded := Load();
      if !save.SaveFailed? {
        timerStates := loaded;
      }
    }

    /** SaveWorkflow: the definitions document is written first, the runs document with the timer states second. */
    method SaveDefinitions(next: seq<Workflow>, definitionsWritten: bool, runsWritten: bool)
      requires WellFormed(workflows) && WellFormed(next)
      modifies this
      ensures Model() == Step(old(Model()), Event.SaveDefinitions(next, definitionsWritten, runsWritten))
    {
      var loaded := Load();
      TimerShapeIsLawful();
      var states := Prune(TIMER_SHAPE, loaded, AllowedKeys(next), TIMER_STATE_LIMIT);
      LoadRestricts(TIMER_SHAPE, loaded, AllowedKeys(next), TIMER_STATE_LIMIT);
      LastsRestrict(Stored(TIMER_SHAPE, loaded), AllowedKeys(next));
      if definitionsWritten {
        workflows := next;
        if runsWritten {
          timerStates := states;
        }
      }
    }
  }

  lemma NoBlankKeyAllowed(workflows: seq<Workflow>)
    ensures "" !in AllowedKeys(workflows)
  {
  }

  lemma {:induction false} JobsHaveClaims(claims: seq<Claim>)
    ensures |JobsOf(claims)| == |claims|
  {
    if claims != [] {
      JobsHaveClaims(claims[..|claims| - 1]);
    }
  }

  lemma {:induction false} JobsPrefix(claims: seq<Claim>, n: nat)
    requires n <= |claims|
    ensures |JobsOf(claims)| == |claims| && JobsOf(claims)[..n] == JobsOf(claims[..n])
  {
    JobsHaveClaims(claims);
    if n < |claims| {
      var front := claims[..|claims| - 1];
      JobsPrefix(front, n);
      assert front[..n] == claims[..n];
    } else {
      assert claims[..n] == claims;
    }
  }
}
