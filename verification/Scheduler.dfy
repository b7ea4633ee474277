/**
  The timer scheduler as a state machine (workflow_scheduler.go, workflow_scheduler_claim.go, service.go,
  persistence.go): ticks that load, claim, store and enqueue, failing saves, restarts, run appends and definition saves.
  */
module Scheduler {
  import opened Outcomes
  import opened WorkflowModel
  import opened TimeSchedule
  import opened NodeRules
  import opened TriggerScope
  import opened WindowGate
  import opened KeyedStates
  import opened Text
  import ExecutorSpec
  import ExecutorInvariant

  // ----- Timer states and their keys -----

  datatype TimerState = TimerState(workflowID: string, nodeID: string, lastTriggeredAt: int, updatedAt: int)

  function TimerKey(workflowID: string, nodeID: string): string {
    var w, n := TrimSpace(workflowID), TrimSpace(nodeID);
    if w == "" || n == "" then "" else w + SEPARATOR + n
  }

  function NormalizeTimerState(s: TimerState): TimerState {
    TimerState(TrimSpace(s.workflowID), TrimSpace(s.nodeID), s.lastTriggeredAt,
               if s.updatedAt == ZERO_TIME then s.lastTriggeredAt else s.updatedAt)
  }

  const TIMER_SHAPE: Shape<TimerState> :=
    Shape((s: TimerState) => NormalizeTimerState(s), (s: TimerState) => TimerKey(s.workflowID, s.nodeID))

  const TIMER_STATE_LIMIT := 1000

  lemma TimerShapeIsLawful()
    ensures TIMER_SHAPE.Lawful()
  {
    forall s: TimerState
      ensures NormalizeTimerState(NormalizeTimerState(s)) == NormalizeTimerState(s)
    {
      TrimSpaceTrims(s.workflowID);
      TrimSpaceTrims(TrimSpace(s.workflowID));
      TrimSpaceTrims(s.nodeID);
      TrimSpaceTrims(TrimSpace(s.nodeID));
    }
  }

  /** Ids without the separator give different keys to different timers. */
  lemma TimerKeysIdentify(w1: string, n1: string, w2: string, n2: string)
    requires SEPARATOR[0] !in w1 && SEPARATOR[0] !in w2
    requires Trimmed(w1) && Trimmed(n1) && Trimmed(w2) && Trimmed(n2)
    requires TimerKey(w1, n1) != "" && TimerKey(w1, n1) == TimerKey(w2, n2)
    ensures w1 == w2 && n1 == n2
  {
    TrimSpaceTrims(w1);
    TrimSpaceTrims(n1);
    TrimSpaceTrims(w2);
    TrimSpaceTrims(n2);
    var k := TimerKey(w1, n1);
    assert k[|w1|] == SEPARATOR[0] && k[|w2|] == SEPARATOR[0];
    assert forall i :: 0 <= i < |w1| ==> k[i] == w1[i];
    assert forall i :: 0 <= i < |w2| ==> k[i] == w2[i];
    assert k[..|w1|] == w1 && k[..|w2|] == w2;
    assert k[|w1| + 1..] == n1 && k[|w2| + 1..] == n2;
  }

  function TimerSpec(node: Node): Option<Spec> {
    if node.kind.Timer? && node.kind.timer.Some? then NormalizeTimer(node.kind.timer.value) else None
  }

  /** The instant suits the node, last firing aside: a daily timer in the minute it is set to, an interval timer, which
      is open all day, at every instant. */
  predicate SuitsTimer(node: Node, now: int) {
    && node.kind.Timer? && node.kind.timer.Some?
    && var config := node.kind.timer.value;
       && config.zone.Offset?
       && match config.schedule
          case Unset | Daily => config.at.At? && LocalMinute(now + config.zone.ns) == config.at.minutes
          case Interval => config.intervalSeconds > 0
          case Unsupported => false
  }

  /** A timer node has a schedule that fits exactly at the instants that suit it. */
  lemma TimerFitsIff(node: Node, now: int)
    ensures TimerSpec(node).Some? && Matches(now, TimerSpec(node).value, None) <==> SuitsTimer(node, now)
  {
    if TimerSpec(node).Some? {
      var spec := TimerSpec(node).value;
      if spec.schedule == Daily {
        DailyFitsIff(now, spec);
      } else {
        IntervalFitsIff(now, spec);
      }
    }
  }

  /** A timer node with the workflow it belongs to. */
  datatype TimerRef = TimerRef(workflow: Workflow, node: Node)

  function KeyOf(t: TimerRef): string {
    TimerKey(t.workflow.id, t.node.id)
  }

  function TimersIn(workflow: Workflow, nodes: seq<Node>): seq<TimerRef> {
    if nodes == [] then []
    else
      var last := nodes[|nodes| - 1];
      TimersIn(workflow, nodes[..|nodes| - 1]) + (if last.kind.Timer? then [TimerRef(workflow, last)] else [])
  }

  /** All timers in the order of the definitions. */
  function TimersOf(workflows: seq<Workflow>): seq<TimerRef> {
    if workflows == [] then []
    else
      var last := workflows[|workflows| - 1];
      TimersOf(workflows[..|workflows| - 1]) + TimersIn(last, last.nodes)
  }

  /** workflowTimerStateAllowSet */
  function AllowedKeys(workflows: seq<Workflow>): set<string> {
    set t | t in TimersOf(workflows) && KeyOf(t) != "" :: KeyOf(t)
  }

  ghost predicate DistinctTimers(timers: seq<TimerRef>) {
    && (forall i :: 0 <= i < |timers| ==> KeyOf(timers[i]) != "")
    && (forall i, j :: 0 <= i < j < |timers| ==> KeyOf(timers[i]) != KeyOf(timers[j]))
  }

  /** What the scheduler asks of saved definitions: distinct workflow ids, distinct non-blank timer keys, and no
      more timers than timer states are kept. */
  ghost predicate WellFormed(workflows: seq<Workflow>) {
    && (forall i, j :: 0 <= i < j < |workflows| ==> workflows[i].id != workflows[j].id)
    && DistinctTimers(TimersOf(workflows))
    && |AllowedKeys(workflows)| <= TIMER_STATE_LIMIT
  }

  // ----- Due timers -----

  function LastOf(timers: map<string, int>, key: string): Option<int> {
    if key in timers && timers[key] != ZERO_TIME then Some(timers[key]) else None
  }

  /** The timer is wired, its windows are open and its spec is readable: all but the time of the last firing. */
  ghost predicate Passes(t: TimerRef, now: int) {
    && TimerSpec(t.node).Some? && OutgoingEdges(t.workflow.edges, t.node.id) != []
    && GateOpen(t.workflow, t.node.id, now) && Active(now, TimerSpec(t.node).value)
  }

  ghost predicate Due(t: TimerRef, lasts: map<string, int>, now: int)
    ensures Due(t, lasts, now) ==> Passes(t, now)
  {
    && TimerSpec(t.node).Some? && OutgoingEdges(t.workflow.edges, t.node.id) != []
    && GateOpen(t.workflow, t.node.id, now)
    && Matches(now, TimerSpec(t.node).value, LastOf(lasts, KeyOf(t)))
  }

  /** A timer passes exactly when some edge leaves it, the instant lies in the windows next to it and suits the node. */
  lemma PassesIff(t: TimerRef, now: int)
    ensures Passes(t, now) <==>
            && (exists e :: e in t.workflow.edges && e.source == t.node.id)
            && GateOpen(t.workflow, t.node.id, now) && SuitsTimer(t.node, now)
  {
    hide GateOpen, SuitsTimer, TimerSpec, Matches;
    TimerFitsIff(t.node, now);
    if e :| e in t.workflow.edges && e.source == t.node.id {
      assert e in OutgoingEdges(t.workflow.edges, t.node.id);
    }
    if OutgoingEdges(t.workflow.edges, t.node.id) != [] {
      assert OutgoingEdges(t.workflow.edges, t.node.id)[0] in OutgoingEdges(t.workflow.edges, t.node.id);
    }
  }

  /** And it is due when it passes and its last firing, if any, was in another minute, or before the present slot. */
  lemma DueIff(t: TimerRef, lasts: map<string, int>, now: int)
    ensures Due(t, lasts, now) <==>
            && Passes(t, now)
            && match LastOf(lasts, KeyOf(t))
               case None => true
               case Some(last) =>
                 var spec := TimerSpec(t.node).value;
                 if spec.schedule == Daily
                 then MinuteNumber(last, spec.zone.ns % MINUTE) != MinuteNumber(now, spec.zone.ns % MINUTE)
                 else last < Stamp(now, spec)
  {
    hide GateOpen, LastOf, KeyOf, MinuteNumber, Stamp, MatchesDaily, MatchesInterval;
    if Passes(t, now) && LastOf(lasts, KeyOf(t)).Some? {
      var spec, last := TimerSpec(t.node).value, LastOf(lasts, KeyOf(t)).value;
      if spec.schedule == Daily {
        DailyMatchesIffOtherMinute(now, spec, last);
      } else {
        IntervalMatchesIffBeforeSlot(now, spec, last);
      }
    }
  }

  datatype Job = Job(workflowID: string, workflowUpdatedAt: int, nodeID: string, triggeredAt: int)

  /** A claimed job, with the timer it is for and the slot or day it claims. */
  datatype Claim = Claim(job: Job, key: string, stamp: int)

  ghost function ClaimFor(t: TimerRef, now: int): Claim
    requires Passes(t, now)
  {
    Claim(Job(t.workflow.id, t.workflow.updatedAt, t.node.id, now), KeyOf(t), Stamp(now, TimerSpec(t.node).value))
  }

  /** The claims of one tick, in the order of the definitions. */
  ghost function Claims(timers: seq<TimerRef>, lasts: map<string, int>, now: int): seq<Claim> {
    if timers == [] then []
    else
      var last := timers[|timers| - 1];
      Claims(timers[..|timers| - 1], lasts, now) + (if Due(last, lasts, now) then [ClaimFor(last, now)] else [])
  }

  ghost function JobsOf(claims: seq<Claim>): seq<Job> {
    if claims == [] then [] else JobsOf(claims[..|claims| - 1]) + [claims[|claims| - 1].job]
  }

  // ----- The state machine -----

  /** The two stored documents, the job queue in memory, and the history of what was put into it. */
  datatype Sched = Sched(workflows: seq<Workflow>, timers: map<string, int>, queue: seq<Job>, enqueued: seq<Claim>)

  /** How a save ends: stored; failed with nothing stored; reported as failed although the states were stored. */
  datatype Save = SaveOk | SaveFailed | SaveDoubtful

  datatype Event =
    | Tick(now: int, save: Save, delivered: nat)  // delivered: jobs that reach the queue before a stop
    | Restart
    | TakeJob
    | AppendRun(save: Save)
    | SaveDefinitions(next: seq<Workflow>, definitionsWritten: bool, runsWritten: bool)

  ghost function Loaded(s: Sched): map<string, int> {
    Restrict(s.timers, AllowedKeys(s.workflows))
  }

  ghost function ClaimsAt(s: Sched, now: int): seq<Claim> {
    Claims(TimersOf(s.workflows), Loaded(s), now)
  }

  function ClaimKeys(claims: seq<Claim>): set<string> {
    set c | c in claims :: c.key
  }

  /** The timer states with every claimed timer set to the instant of the claim. */
  ghost function Recorded(timers: map<string, int>, claims: seq<Claim>, now: int): map<string, int> {
    timers + map k | k in ClaimKeys(claims) :: now
  }

  ghost function Step(s: Sched, e: Event): Sched {
    match e
    case Tick(now, save, delivered) =>
      var claims := ClaimsAt(s, now);
      var timers := if save.SaveFailed? then s.timers else Recorded(Loaded(s), claims, now);
      var sent := if !save.SaveOk? then [] else if delivered < |claims| then claims[..delivered] else claims;
      s.(timers := timers, queue := s.queue + JobsOf(sent), enqueued := s.enqueued + sent)
    case Restart => s.(queue := [])
    case TakeJob => if s.queue == [] then s else s.(queue := s.queue[1..])
    case AppendRun(save) => if save.SaveFailed? then s else s.(timers := Loaded(s))
    case SaveDefinitions(next, definitionsWritten, runsWritten) =>
      if !definitionsWritten then s
      else if !runsWritten then s.(workflows := next)
      else s.(workflows := next, timers := Restrict(Loaded(s), AllowedKeys(next)))
  }

  ghost function After(s: Sched, events: seq<Event>): Sched {
    if events == [] then s else Step(After(s, events[..|events| - 1]), events[|events| - 1])
  }

  // ----- Claims of one tick -----

  ghost predicate ClaimOf(t: TimerRef, lasts: map<string, int>, now: int, c: Claim) {
    Due(t, lasts, now) && c == ClaimFor(t, now)
  }

  lemma {:induction false} ClaimsAreDue(timers: seq<TimerRef>, lasts: map<string, int>, now: int)
    ensures forall c :: c in Claims(timers, lasts, now) <==> exists t :: t in timers && ClaimOf(t, lasts, now, c)
  {
    hide Due, KeyOf, ClaimFor;
    if timers != [] {
      var front, last := timers[..|timers| - 1], timers[|timers| - 1];
      assert timers == front + [last];
      ClaimsAreDue(front, lasts, now);
      forall c
        ensures c in Claims(timers, lasts, now) <==> c in Claims(front, lasts, now) || ClaimOf(last, lasts, now, c)
        ensures (exists t :: t in timers && ClaimOf(t, lasts, now, c)) <==>
                (exists t :: t in front && ClaimOf(t, lasts, now, c)) || ClaimOf(last, lasts, now, c)
      {
        assert last in timers;
        if t :| t in front && ClaimOf(t, lasts, now, c) {
          assert t in timers;
        }
      }
    }
  }

  ghost predicate DistinctClaims(claims: seq<Claim>) {
    forall i, j :: 0 <= i < j < |claims| ==> claims[i].key != claims[j].key
  }

  lemma {:induction false} ClaimsAreDistinct(timers: seq<TimerRef>, lasts: map<string, int>, now: int)
    requires DistinctTimers(timers)
    ensures DistinctClaims(Claims(timers, lasts, now))
  {
    hide Due, KeyOf;
    if timers != [] {
      var front, last := timers[..|timers| - 1], timers[|timers| - 1];
      ClaimsAreDistinct(front, lasts, now);
      ClaimsAreDue(front, lasts, now);
      var claims := Claims(front, lasts, now);
      forall i | 0 <= i < |claims|
        ensures claims[i].key != KeyOf(last)
      {
        assert claims[i] in claims;
        var t :| t in front && ClaimOf(t, lasts, now, claims[i]);
        var k :| 0 <= k < |front| && front[k] == t;
        assert KeyOf(timers[k]) != KeyOf(timers[|timers| - 1]);
      }
    }
  }

  // ----- At most one job per slot -----

  /** The timer with this key exists, with this spec. */
  ghost predicate InPlace(workflows: seq<Workflow>, key: string, spec: Spec) {
    exists t :: t in TimersOf(workflows) && KeyOf(t) == key && TimerSpec(t.node) == Some(spec)
  }

  ghost predicate IntervalInPlace(workflows: seq<Workflow>, key: string) {
    exists spec: Spec :: spec.schedule == Interval && InPlace(workflows, key, spec)
  }

  lemma InPlaceIsAllowed(workflows: seq<Workflow>, key: string, spec: Spec)
    requires WellFormed(workflows) && InPlace(workflows, key, spec)
    ensures key in AllowedKeys(workflows)
  {
    var t :| t in TimersOf(workflows) && KeyOf(t) == key && TimerSpec(t.node) == Some(spec);
    var i :| 0 <= i < |TimersOf(workflows)| && TimersOf(workflows)[i] == t;
  }

  /** A claim for the timer in place: it was due after its last firing, and the claim is stamped by its spec. */
  ghost predicate GoodClaim(s: Sched, key: string, spec: Spec, now: int, c: Claim) {
    && c.job.triggeredAt == now && Active(now, spec) && c.stamp == Stamp(now, spec)
    && Matches(now, spec, LastOf(s.timers, key))
  }

  lemma TickClaimsAreGood(s: Sched, key: string, spec: Spec, now: int)
    requires WellFormed(s.workflows) && InPlace(s.workflows, key, spec)
    ensures var claims := ClaimsAt(s, now);
            && (forall i :: 0 <= i < |claims| && claims[i].key == key ==> GoodClaim(s, key, spec, now, claims[i]))
            && DistinctClaims(claims)
  {
    hide Due, GoodClaim, KeyOf, Claims, DistinctClaims;
    InPlaceIsAllowed(s.workflows, key, spec);
    var timers := TimersOf(s.workflows);
    ClaimsAreDue(timers, Loaded(s), now);
    ClaimsAreDistinct(timers, Loaded(s), now);
    var claims := ClaimsAt(s, now);
    forall i | 0 <= i < |claims| && claims[i].key == key
      ensures GoodClaim(s, key, spec, now, claims[i])
    {
      assert claims[i] in claims;
      var t :| t in timers && ClaimOf(t, Loaded(s), now, claims[i]);
      var u :| u in timers && KeyOf(u) == key && TimerSpec(u.node) == Some(spec);
      SameKeySameTimer(timers, t, u);
      DueClaimIsGood(s, t, key, spec, now);
    }
  }

  lemma SameKeySameTimer(timers: seq<TimerRef>, t: TimerRef, u: TimerRef)
    requires DistinctTimers(timers) && t in timers && u in timers && KeyOf(t) == KeyOf(u)
    ensures t == u
  {
    hide KeyOf;
    var i :| 0 <= i < |timers| && timers[i] == t;
    var j :| 0 <= j < |timers| && timers[j] == u;
  }

  lemma DueClaimIsGood(s: Sched, t: TimerRef, key: string, spec: Spec, now: int)
    requires Due(t, Loaded(s), now) && KeyOf(t) == key && TimerSpec(t.node) == Some(spec)
    requires key in AllowedKeys(s.workflows)
    ensures GoodClaim(s, key, spec, now, ClaimFor(t, now))
  {
    hide GateOpen, Matches, Stamp, AllowedKeys;
  }

  ghost predicate Ascending(claims: seq<Claim>, key: string) {
    forall i, j :: 0 <= i < j < |claims| && claims[i].key == key && claims[j].key == key ==>
                     claims[i].stamp < claims[j].stamp
  }

  ghost predicate BoundedBy(claims: seq<Claim>, key: string, bound: int) {
    forall i :: 0 <= i < |claims| && claims[i].key == key ==> claims[i].stamp <= bound
  }

  /** The claims of a timer so far: strictly increasing stamps, none after the recorded last firing. */
  ghost predicate SlotsAscend(s: Sched, key: string) {
    && Ascending(s.enqueued, key)
    && (key in ClaimKeys(s.enqueued) ==>
          key in s.timers && s.timers[key] != ZERO_TIME && BoundedBy(s.enqueued, key, s.timers[key]))
  }

  lemma AppendAscending(claims: seq<Claim>, sent: seq<Claim>, key: string)
    requires Ascending(claims, key) && DistinctClaims(sent)
    requires forall i :: 0 <= i < |sent| && sent[i].key == key ==> BoundedBy(claims, key, sent[i].stamp - 1)
    ensures Ascending(claims + sent, key)
  {
  }

  lemma AppendBounded(claims: seq<Claim>, sent: seq<Claim>, key: string, bound: int)
    requires BoundedBy(claims, key, bound) && BoundedBy(sent, key, bound)
    ensures BoundedBy(claims + sent, key, bound)
  {
  }

  /** What one tick does to the claims: it appends a part of its claims, or nothing. */
  ghost function SentAt(s: Sched, e: Event): seq<Claim>
    requires e.Tick?
  {
    var claims := ClaimsAt(s, e.now);
    if !e.save.SaveOk? then [] else if e.delivered < |claims| then claims[..e.delivered] else claims
  }

  lemma SentIsPartOfClaims(s: Sched, e: Event, key: string)
    requires e.Tick? && DistinctClaims(ClaimsAt(s, e.now))
    ensures DistinctClaims(SentAt(s, e)) && SentAt(s, e) <= ClaimsAt(s, e.now)
    ensures key in ClaimKeys(SentAt(s, e)) ==> key in ClaimKeys(ClaimsAt(s, e.now)) && e.save.SaveOk?
    ensures Step(s, e).enqueued == s.enqueued + SentAt(s, e)
    ensures ClaimKeys(Step(s, e).enqueued) == ClaimKeys(s.enqueued) + ClaimKeys(SentAt(s, e))
  {
    hide ClaimsAt;
  }

  /** What one tick does to the timer: a claim sets its last firing, unless nothing was stored. */
  lemma TickSetsLast(s: Sched, e: Event, key: string)
    requires e.Tick? && key in AllowedKeys(s.workflows)
    ensures var t := Step(s, e);
            if key in ClaimKeys(ClaimsAt(s, e.now)) && !e.save.SaveFailed?
            then key in t.timers && t.timers[key] == e.now
            else (key in t.timers <==> key in s.timers) && (key in s.timers ==> t.timers[key] == s.timers[key])
  {
    hide ClaimsAt, AllowedKeys;
  }

  ghost predicate RealTime(e: Event) {
    e.Tick? ==> e.now != ZERO_TIME
  }

  lemma StepKeepsSlotsAscending(s: Sched, e: Event, key: string)
    requires WellFormed(s.workflows) && IntervalInPlace(s.workflows, key) && RealTime(e)
    requires WellFormed(Step(s, e).workflows) && IntervalInPlace(Step(s, e).workflows, key)
    requires SlotsAscend(s, key)
    ensures SlotsAscend(Step(s, e), key)
  {
    hide WellFormed, InPlace, AllowedKeys, GoodClaim, Claims;
    var spec: Spec :| spec.schedule == Interval && InPlace(s.workflows, key, spec);
    var spec': Spec :| spec'.schedule == Interval && InPlace(Step(s, e).workflows, key, spec');
    InPlaceIsAllowed(s.workflows, key, spec);
    InPlaceIsAllowed(Step(s, e).workflows, key, spec');
    if e.Tick? {
      TickClaimsAreGood(s, key, spec, e.now);
      var claims := ClaimsAt(s, e.now);
      forall i | 0 <= i < |claims| && claims[i].key == key
        ensures GoodIntervalClaim(s, key, e.now, claims[i])
      {
        IntervalClaimIsGood(s, key, spec, e.now, claims[i]);
      }
      TickKeepsSlotsAscending(s, e, key);
    }
  }

  ghost predicate GoodIntervalClaim(s: Sched, key: string, now: int, c: Claim) {
    c.stamp <= now && (key in s.timers && s.timers[key] != ZERO_TIME ==> s.timers[key] < c.stamp)
  }

  lemma IntervalClaimIsGood(s: Sched, key: string, spec: Spec, now: int, c: Claim)
    requires spec.schedule == Interval && GoodClaim(s, key, spec, now, c)
    ensures GoodIntervalClaim(s, key, now, c)
  {
    hide Matches, Stamp;
    StampNotAfter(now, spec);
    if key in s.timers && s.timers[key] != ZERO_TIME {
      IntervalMatchesIffBeforeSlot(now, spec, s.timers[key]);
    }
  }

  lemma TickKeepsSlotsAscending(s: Sched, e: Event, key: string)
    requires e.Tick? && RealTime(e) && key in AllowedKeys(s.workflows) && SlotsAscend(s, key)
    requires DistinctClaims(ClaimsAt(s, e.now))
    requires var claims := ClaimsAt(s, e.now);
             forall i :: 0 <= i < |claims| && claims[i].key == key ==> GoodIntervalClaim(s, key, e.now, claims[i])
    ensures SlotsAscend(Step(s, e), key)
  {
    hide ClaimsAt, AllowedKeys, Step, SentAt;
    var claims, sent, t := ClaimsAt(s, e.now), SentAt(s, e), Step(s, e);
    SentIsPartOfClaims(s, e, key);
    TickSetsLast(s, e, key);
    forall i | 0 <= i < |sent| && sent[i].key == key
      ensures BoundedBy(s.enqueued, key, sent[i].stamp - 1)
    {
      assert sent[i] == claims[i];
      NoClaimsBounded(s.enqueued, key, sent[i].stamp - 1);
    }
    AppendAscending(s.enqueued, sent, key);
    if key in ClaimKeys(t.enqueued) {
      NoClaimsBounded(sent, key, t.timers[key]);
      NoClaimsBounded(s.enqueued, key, t.timers[key]);
      if key in ClaimKeys(claims) {
        var c :| c in claims && c.key == key;
      }
      AppendBounded(s.enqueued, sent, key, t.timers[key]);
    }
  }

  lemma NoClaimsBounded(claims: seq<Claim>, key: string, bound: int)
    ensures key !in ClaimKeys(claims) ==> BoundedBy(claims, key, bound)
  {
    forall i | 0 <= i < |claims| && claims[i].key == key
      ensures key in ClaimKeys(claims)
    {
      assert claims[i] in claims;
    }
  }

  /** Over every run of ticks with any outcome of the saves, restarts, run appends and definition saves that leave
      the interval timer in place, even when the clock goes back: the slots it is enqueued for strictly increase,
      so no slot is enqueued twice. */
  lemma {:induction false} AtMostOneJobPerSlot(s: Sched, events: seq<Event>, key: string)
    requires s.enqueued == [] || SlotsAscend(s, key)
    requires forall n :: 0 <= n <= |events| ==>
               WellFormed(After(s, events[..n]).workflows) && IntervalInPlace(After(s, events[..n]).workflows, key)
    requires forall n :: 0 <= n < |events| ==> RealTime(events[n])
    ensures SlotsAscend(After(s, events), key)
  {
    hide WellFormed, IntervalInPlace, Step;
    if events != [] {
      var front, last := events[..|events| - 1], events[|events| - 1];
      forall n | 0 <= n <= |front|
        ensures front[..n] == events[..n]
      {
      }
      AtMostOneJobPerSlot(s, front, key);
      assert events[..|events|] == events && front[..|front|] == front;
      StepKeepsSlotsAscending(After(s, front), last, key);
    }
  }

  // ----- With a clock that does not go back: daily timers too, and exactly one job -----

  /** The claims of a timer with a fixed spec, while the clock has not passed `clock`. */
  ghost predicate StampsAscend(s: Sched, key: string, spec: Spec, clock: int) {
    && Ascending(s.enqueued, key)
    && (key in ClaimKeys(s.enqueued) ==>
          && key in s.timers && s.timers[key] != ZERO_TIME && s.timers[key] <= clock && Active(s.timers[key], spec)
          && BoundedBy(s.enqueued, key, Stamp(s.timers[key], spec)))
  }

  ghost predicate Forward(e: Event, clock: int) {
    e.Tick? ==> e.now != ZERO_TIME && clock <= e.now
  }

  ghost function ClockAfter(e: Event, clock: int): int {
    if e.Tick? then e.now else clock
  }

  ghost predicate NewStampClaim(s: Sched, key: string, spec: Spec, now: int, c: Claim) {
    && Active(now, spec) && c.stamp == Stamp(now, spec)
    && (key in ClaimKeys(s.enqueued) ==> BoundedBy(s.enqueued, key, c.stamp - 1))
  }

  lemma GoodClaimIsNewStamp(s: Sched, key: string, spec: Spec, now: int, c: Claim, clock: int)
    requires StampsAscend(s, key, spec, clock) && clock <= now && GoodClaim(s, key, spec, now, c)
    ensures NewStampClaim(s, key, spec, now, c)
  {
    hide Matches, Stamp;
    if key in ClaimKeys(s.enqueued) {
      var last := s.timers[key];
      MatchesIffNewStamp(now, spec, last);
      StampMonotone(last, now, spec);
    }
  }

  lemma TickKeepsStampsAscending(s: Sched, e: Event, key: string, spec: Spec, clock: int)
    requires e.Tick? && Forward(e, clock) && key in AllowedKeys(s.workflows) && StampsAscend(s, key, spec, clock)
    requires DistinctClaims(ClaimsAt(s, e.now))
    requires var claims := ClaimsAt(s, e.now);
             forall i :: 0 <= i < |claims| && claims[i].key == key ==> NewStampClaim(s, key, spec, e.now, claims[i])
    ensures StampsAscend(Step(s, e), key, spec, e.now)
  {
    hide ClaimsAt, AllowedKeys, Step, SentAt, Active, Stamp;
    var claims, sent, t := ClaimsAt(s, e.now), SentAt(s, e), Step(s, e);
    SentIsPartOfClaims(s, e, key);
    TickSetsLast(s, e, key);
    forall i | 0 <= i < |sent| && sent[i].key == key
      ensures BoundedBy(s.enqueued, key, sent[i].stamp - 1)
    {
      assert sent[i] == claims[i];
      NoClaimsBounded(s.enqueued, key, sent[i].stamp - 1);
    }
    AppendAscending(s.enqueued, sent, key);
    if key in ClaimKeys(t.enqueued) {
      if key in ClaimKeys(claims) {
        var c :| c in claims && c.key == key;
        NoClaimsBounded(s.enqueued, key, c.stamp);
        if key in ClaimKeys(s.enqueued) && e.save.SaveFailed? {
          NoClaimsBounded(sent, key, Stamp(s.timers[key], spec));
        }
      }
      var bound := Stamp(t.timers[key], spec);
      NoClaimsBounded(sent, key, bound);
      NoClaimsBounded(s.enqueued, key, bound);
      AppendBounded(s.enqueued, sent, key, bound);
    }
  }

  lemma StepKeepsStampsAscending(s: Sched, e: Event, key: string, spec: Spec, clock: int)
    requires WellFormed(s.workflows) && InPlace(s.workflows, key, spec) && Forward(e, clock)
    requires WellFormed(Step(s, e).workflows) && InPlace(Step(s, e).workflows, key, spec)
    requires StampsAscend(s, key, spec, clock)
    ensures StampsAscend(Step(s, e), key, spec, ClockAfter(e, clock))
  {
    hide WellFormed, InPlace, AllowedKeys, GoodClaim, Claims, NewStampClaim;
    InPlaceIsAllowed(s.workflows, key, spec);
    InPlaceIsAllowed(Step(s, e).workflows, key, spec);
    if e.Tick? {
      TickClaimsAreGood(s, key, spec, e.now);
      var claims := ClaimsAt(s, e.now);
      forall i | 0 <= i < |claims| && claims[i].key == key
        ensures NewStampClaim(s, key, spec, e.now, claims[i])
      {
        GoodClaimIsNewStamp(s, key, spec, e.now, claims[i], clock);
      }
      TickKeepsStampsAscending(s, e, key, spec, clock);
    }
  }

  ghost function Clock(events: seq<Event>, start: int): int {
    if events == [] then start else ClockAfter(events[|events| - 1], Clock(events[..|events| - 1], start))
  }

  /** The timer stays in place with its spec at every point of the run, and the ticks never go back. */
  ghost predicate SteadyRun(s: Sched, events: seq<Event>, key: string, spec: Spec, start: int) {
    && (forall n :: 0 <= n <= |events| ==>
          WellFormed(After(s, events[..n]).workflows) && InPlace(After(s, events[..n]).workflows, key, spec))
    && (forall n :: 0 <= n < |events| ==> Forward(events[n], Clock(events[..n], start)))
  }

  lemma SteadyPrefix(s: Sched, events: seq<Event>, key: string, spec: Spec, start: int)
    requires SteadyRun(s, events, key, spec, start) && events != []
    ensures var front, last := events[..|events| - 1], events[|events| - 1];
            && SteadyRun(s, front, key, spec, start) && Forward(last, Clock(front, start))
            && WellFormed(After(s, front).workflows) && InPlace(After(s, front).workflows, key, spec)
            && After(s, events) == Step(After(s, front), last)
            && WellFormed(After(s, events).workflows) && InPlace(After(s, events).workflows, key, spec)
  {
    hide WellFormed, InPlace, Step, Forward, Clock;
    var front := events[..|events| - 1];
    forall n | 0 <= n <= |front|
      ensures front[..n] == events[..n]
    {
    }
    assert events[..|events|] == events && front[..|front|] == front;
  }

  /** With ticks that do not go back, a timer of either kind is enqueued for strictly increasing stamps: at most
      once per slot, and at most once per day. */
  lemma {:induction false} AtMostOneJobPerStamp(s: Sched, events: seq<Event>, key: string, spec: Spec, start: int)
    requires s.enqueued == [] || StampsAscend(s, key, spec, start)
    requires SteadyRun(s, events, key, spec, start)
    ensures StampsAscend(After(s, events), key, spec, Clock(events, start))
  {
    hide SteadyRun, WellFormed, InPlace, Step, Forward;
    if events != [] {
      var front, last := events[..|events| - 1], events[|events| - 1];
      SteadyPrefix(s, events, key, spec, start);
      AtMostOneJobPerStamp(s, front, key, spec, start);
      StepKeepsStampsAscending(After(s, front), last, key, spec, Clock(front, start));
    }
  }

  /** No stop while enqueueing and no doubtful save. */
  ghost predicate Undisturbed(s: Sched, e: Event) {
    e.Tick? ==> !e.save.SaveDoubtful? && |ClaimsAt(s, e.now)| <= e.delivered
  }

  ghost predicate HasClaim(claims: seq<Claim>, key: string, stamp: int) {
    exists i :: 0 <= i < |claims| && claims[i].key == key && claims[i].stamp == stamp
  }

  /** Every recorded firing of the timer was enqueued. */
  ghost predicate LastIsEnqueued(s: Sched, key: string, spec: Spec, clock: int) {
    LastOf(s.timers, key).Some? ==>
      s.timers[key] <= clock && Active(s.timers[key], spec) && HasClaim(s.enqueued, key, Stamp(s.timers[key], spec))
  }

  lemma AppendHasClaim(claims: seq<Claim>, sent: seq<Claim>, key: string, stamp: int)
    requires HasClaim(claims, key, stamp) || HasClaim(sent, key, stamp)
    ensures HasClaim(claims + sent, key, stamp)
  {
    var all := claims + sent;
    if i :| 0 <= i < |claims| && claims[i].key == key && claims[i].stamp == stamp {
      assert all[i] == claims[i];
    } else {
      var j :| 0 <= j < |sent| && sent[j].key == key && sent[j].stamp == stamp;
      assert all[|claims| + j] == sent[j];
    }
  }

  lemma StepKeepsLastEnqueued(s: Sched, e: Event, key: string, spec: Spec, clock: int)
    requires WellFormed(s.workflows) && InPlace(s.workflows, key, spec) && Forward(e, clock) && Undisturbed(s, e)
    requires WellFormed(Step(s, e).workflows) && InPlace(Step(s, e).workflows, key, spec)
    requires LastIsEnqueued(s, key, spec, clock)
    ensures LastIsEnqueued(Step(s, e), key, spec, ClockAfter(e, clock))
  {
    hide WellFormed, InPlace, AllowedKeys, Claims, HasClaim, Active, Stamp;
    InPlaceIsAllowed(s.workflows, key, spec);
    InPlaceIsAllowed(Step(s, e).workflows, key, spec);
    if e.Tick? {
      var claims := ClaimsAt(s, e.now);
      TickClaimsAreGood(s, key, spec, e.now);
      SentIsPartOfClaims(s, e, key);
      TickSetsLast(s, e, key);
      if key in ClaimKeys(claims) && e.save.SaveOk? {
        var i :| 0 <= i < |claims| && claims[i].key == key;
        ClaimIsThere(claims, i);
        assert SentAt(s, e) == claims;
        AppendHasClaim(s.enqueued, claims, key, Stamp(e.now, spec));
      } else if LastOf(s.timers, key).Some? {
        AppendHasClaim(s.enqueued, SentAt(s, e), key, Stamp(s.timers[key], spec));
      }
    }
  }

  lemma ClaimIsThere(claims: seq<Claim>, i: nat)
    requires i < |claims|
    ensures HasClaim(claims, claims[i].key, claims[i].stamp)
  {
  }

  /** The recorded firing is still that of the start of the run, or was enqueued in the run. */
  ghost predicate LastIsOldOrEnqueued(s: Sched, t: Sched, key: string, spec: Spec, clock: int) {
    LastOf(t.timers, key) == LastOf(s.timers, key) || LastIsEnqueued(t, key, spec, clock)
  }

  /** A step claims the timer and so enqueues its firing, or leaves the recorded firing alone. */
  lemma StepKeepsLastOrEnqueues(s: Sched, e: Event, key: string, spec: Spec)
    requires WellFormed(s.workflows) && InPlace(s.workflows, key, spec) && RealTime(e) && Undisturbed(s, e)
    requires WellFormed(Step(s, e).workflows) && InPlace(Step(s, e).workflows, key, spec)
    ensures LastOf(Step(s, e).timers, key) == LastOf(s.timers, key)
            || (e.Tick? && LastIsEnqueued(Step(s, e), key, spec, e.now))
  {
    hide WellFormed, InPlace, AllowedKeys, Claims, HasClaim, Active, Stamp;
    InPlaceIsAllowed(s.workflows, key, spec);
    InPlaceIsAllowed(Step(s, e).workflows, key, spec);
    if e.Tick? {
      var claims := ClaimsAt(s, e.now);
      TickClaimsAreGood(s, key, spec, e.now);
      SentIsPartOfClaims(s, e, key);
      TickSetsLast(s, e, key);
      if key in ClaimKeys(claims) && e.save.SaveOk? {
        var i :| 0 <= i < |claims| && claims[i].key == key;
        ClaimIsThere(claims, i);
        assert SentAt(s, e) == claims;
        AppendHasClaim(s.enqueued, claims, key, Stamp(e.now, spec));
      }
    }
  }

  lemma {:induction false} LastStaysOldOrEnqueued(s: Sched, events: seq<Event>, key: string, spec: Spec, start: int)
    requires s.enqueued == [] && SteadyRun(s, events, key, spec, start)
    requires forall n :: 0 <= n < |events| ==> Undisturbed(After(s, events[..n]), events[n])
    ensures LastIsOldOrEnqueued(s, After(s, events), key, spec, Clock(events, start))
  {
    hide SteadyRun, WellFormed, InPlace, Step, Undisturbed, LastIsEnqueued;
    if events != [] {
      var front, last := events[..|events| - 1], events[|events| - 1];
      SteadyPrefix(s, events, key, spec, start);
      forall n | 0 <= n <= |front|
        ensures front[..n] == events[..n]
      {
      }
      assert Undisturbed(After(s, events[..|front|]), events[|front|]);
      LastStaysOldOrEnqueued(s, front, key, spec, start);
      StepKeepsLastOrEnqueues(After(s, front), last, key, spec);
      if LastIsEnqueued(After(s, front), key, spec, Clock(front, start)) {
        StepKeepsLastEnqueued(After(s, front), last, key, spec, Clock(front, start));
      }
    }
  }

  /** The timer could fire at this instant if it had never fired. */
  ghost predicate PassesAt(workflows: seq<Workflow>, key: string, spec: Spec, now: int) {
    exists t :: t in TimersOf(workflows) && KeyOf(t) == key && TimerSpec(t.node) == Some(spec) && Passes(t, now)
  }

  lemma DueTimerClaims(s: Sched, t: TimerRef, key: string, spec: Spec, now: int)
    requires t in TimersOf(s.workflows) && KeyOf(t) == key && TimerSpec(t.node) == Some(spec)
    requires Due(t, Loaded(s), now)
    ensures Active(now, spec) && HasClaim(ClaimsAt(s, now), key, Stamp(now, spec))
  {
    hide Stamp, KeyOf, GateOpen, Matches, Claims, Loaded;
    var claims := ClaimsAt(s, now);
    ClaimsAreDue(TimersOf(s.workflows), Loaded(s), now);
    assert ClaimOf(t, Loaded(s), now, ClaimFor(t, now));
    assert ClaimFor(t, now) in claims;
    var i :| 0 <= i < |claims| && claims[i] == ClaimFor(t, now);
    ClaimIsThere(claims, i);
  }

  lemma IdleTimerHasClaimed(s: Sched, t: TimerRef, key: string, spec: Spec, now: int, clock: int)
    requires KeyOf(t) == key && TimerSpec(t.node) == Some(spec) && key in AllowedKeys(s.workflows)
    requires Passes(t, now) && !Due(t, Loaded(s), now) && clock <= now && LastIsEnqueued(s, key, spec, clock)
    ensures HasClaim(s.enqueued, key, Stamp(now, spec))
  {
    hide Stamp, GateOpen, AllowedKeys, HasClaim, Matches;
    if LastOf(s.timers, key).Some? {
      MatchesIffNewStamp(now, spec, s.timers[key]);
    }
  }

  lemma PassingTickHasClaim(s: Sched, e: Event, key: string, spec: Spec, clock: int)
    requires WellFormed(s.workflows) && InPlace(s.workflows, key, spec)
    requires e.Tick? && Forward(e, clock) && e.save.SaveOk? && Undisturbed(s, e)
    requires PassesAt(s.workflows, key, spec, e.now)
    requires Matches(e.now, spec, LastOf(s.timers, key)) || LastIsEnqueued(s, key, spec, clock)
    ensures Active(e.now, spec) && HasClaim(Step(s, e).enqueued, key, Stamp(e.now, spec))
  {
    hide WellFormed, AllowedKeys, Claims, HasClaim, Stamp, KeyOf, GateOpen, InPlace, Due, LastIsEnqueued, Active;
    hide Loaded;
    var t :| t in TimersOf(s.workflows) && KeyOf(t) == key && TimerSpec(t.node) == Some(spec) && Passes(t, e.now);
    InPlaceIsAllowed(s.workflows, key, spec);
    TickClaimsAreGood(s, key, spec, e.now);
    SentIsPartOfClaims(s, e, key);
    assert SentAt(s, e) == ClaimsAt(s, e.now);
    PassingIsDueIff(s, t, key, spec, e.now);
    if Due(t, Loaded(s), e.now) {
      DueTimerClaims(s, t, key, spec, e.now);
    } else {
      IdleTimerHasClaimed(s, t, key, spec, e.now, clock);
    }
    AppendHasClaim(s.enqueued, ClaimsAt(s, e.now), key, Stamp(e.now, spec));
  }

  /** A passing timer is due exactly if its schedule matches after the recorded firing. */
  lemma PassingIsDueIff(s: Sched, t: TimerRef, key: string, spec: Spec, now: int)
    requires KeyOf(t) == key && TimerSpec(t.node) == Some(spec) && key in AllowedKeys(s.workflows) && Passes(t, now)
    ensures Due(t, Loaded(s), now) <==> Matches(now, spec, LastOf(s.timers, key))
  {
    hide GateOpen, Matches, AllowedKeys;
  }

  /** Without stops and doubtful saves, and with ticks that do not go back, every slot or day that did not have its
      firing before, in which some tick finds the timer wired, its windows open and its time due, and whose save
      succeeds, gets exactly one job. The timer may have fired any number of times before the run. */
  lemma ExactlyOneJob(s: Sched, events: seq<Event>, e: Event, key: string, spec: Spec, start: int)
    requires s.enqueued == []
    requires SteadyRun(s, events + [e], key, spec, start)
    requires forall n :: 0 <= n < |events| ==> Undisturbed(After(s, events[..n]), events[n])
    requires var t := After(s, events);
             e.Tick? && e.save.SaveOk? && Undisturbed(t, e) && PassesAt(t.workflows, key, spec, e.now)
    requires Matches(e.now, spec, LastOf(s.timers, key))
    ensures Active(e.now, spec)
    ensures exists i :: OnlyAt(After(s, events + [e]).enqueued, i, key, Stamp(e.now, spec))
  {
    hide SteadyRun, WellFormed, InPlace, Step, Forward, Undisturbed, PassesAt, Active, Stamp, Matches, LastIsEnqueued;
    var all := events + [e];
    assert all[..|all| - 1] == events && all[|all| - 1] == e;
    SteadyPrefix(s, all, key, spec, start);
    LastStaysOldOrEnqueued(s, events, key, spec, start);
    PassingTickHasClaim(After(s, events), e, key, spec, Clock(events, start));
    AtMostOneJobPerStamp(s, all, key, spec, start);
    hide After, PassesAt;
    assert Ascending(After(s, all).enqueued, key);
    hide Ascending, HasClaim, OnlyAt;
    OneOfAscending(After(s, all).enqueued, key, Stamp(e.now, spec));
  }

  /** The claim at i is for the timer and the stamp, and no other is. */
  ghost predicate OnlyAt(claims: seq<Claim>, i: nat, key: string, stamp: int) {
    && i < |claims| && claims[i].key == key && claims[i].stamp == stamp
    && forall j :: 0 <= j < |claims| && claims[j].key == key && claims[j].stamp == stamp ==> j == i
  }

  lemma OneOfAscending(claims: seq<Claim>, key: string, stamp: int)
    requires Ascending(claims, key) && HasClaim(claims, key, stamp)
    ensures exists i :: OnlyAt(claims, i, key, stamp)
  {
    var i: nat :| i < |claims| && claims[i].key == key && claims[i].stamp == stamp;
    forall j | 0 <= j < |claims| && claims[j].key == key && claims[j].stamp == stamp
      ensures j == i
    {
    }
    assert OnlyAt(claims, i, key, stamp);
  }

  /** The same state with one more claim at the start of its history. */
  ghost function WithFirst(c: Claim, s: Sched): Sched {
    s.(enqueued := [c] + s.enqueued)
  }

  /** The history of claims is only added to, never read. */
  lemma {:induction false} HistoryIsNotRead(s: Sched, events: seq<Event>, c: Claim)
    ensures After(WithFirst(c, s), events) == WithFirst(c, After(s, events))
  {
    hide ClaimsAt, Loaded, Recorded;
    if events != [] {
      var front, last := events[..|events| - 1], events[|events| - 1];
      HistoryIsNotRead(s, front, c);
      StepDoesNotReadHistory(After(s, front), last, c);
    }
  }

  lemma StepDoesNotReadHistory(s: Sched, e: Event, c: Claim)
    ensures Step(WithFirst(c, s), e) == WithFirst(c, Step(s, e))
  {
    hide Claims, Recorded;
    assert forall now :: ClaimsAt(WithFirst(c, s), now) == ClaimsAt(s, now);
  }

  lemma SteadyWithHistory(s: Sched, events: seq<Event>, key: string, spec: Spec, start: int, c: Claim)
    requires SteadyRun(s, events, key, spec, start)
    ensures SteadyRun(WithFirst(c, s), events, key, spec, start)
  {
    hide WellFormed, InPlace, After, Forward;
    forall n | 0 <= n <= |events|
      ensures After(WithFirst(c, s), events[..n]).workflows == After(s, events[..n]).workflows
    {
      HistoryIsNotRead(s, events[..n], c);
    }
  }

  /** And a slot or day that had its firing before the run, or any earlier one, gets no job in it. */
  lemma FiredBeforeMeansNoJob(s: Sched, events: seq<Event>, key: string, spec: Spec, start: int)
    requires s.enqueued == [] && SteadyRun(s, events, key, spec, start)
    requires LastOf(s.timers, key).Some? && s.timers[key] <= start && Active(s.timers[key], spec)
    ensures var claims := After(s, events).enqueued;
            forall i :: 0 <= i < |claims| && claims[i].key == key ==> claims[i].stamp > Stamp(s.timers[key], spec)
  {
    hide SteadyRun, After, Stamp, Active;
    var c := Claim(Job("", 0, "", s.timers[key]), key, Stamp(s.timers[key], spec));
    var t := WithFirst(c, s);
    SteadyWithHistory(s, events, key, spec, start, c);
    HistoryIsNotRead(s, events, c);
    assert t.enqueued == [c];
    AtMostOneJobPerStamp(t, events, key, spec, start);
    var claims, all := After(s, events).enqueued, After(t, events).enqueued;
    forall i | 0 <= i < |claims| && claims[i].key == key
      ensures claims[i].stamp > Stamp(s.timers[key], spec)
    {
      assert all[0] == c && all[i + 1] == claims[i];
    }
  }

  // ----- Claimed jobs and time windows -----

  /** A claimed job is never stopped by a window next to its trigger, however long it waits in the queue: its run on
      the definition it was claimed from takes the claim time as now, so such a window evaluates as open. */
  lemma QueuedJobPassesItsWindows(s: Sched, now: int, c: Claim, env: Env, run: ExecutorSpec.State, roots: set<string>,
                                  w: string)
    requires WellFormed(s.workflows) && now != ZERO_TIME && c in ClaimsAt(s, now)
    requires env.workflow in s.workflows && env.workflow.id == c.job.workflowID
    requires env.options.triggeredAt == Some(c.job.triggeredAt)
    requires ExecutorInvariant.Invariant(env, run, roots) && w in run.cache && env.Nodes()[w].kind.TimeWindow?
    requires Adjacent(env.workflow, c.job.nodeID, w)
    ensures !run.cache[w].blocked || !run.cache[w].blockedByWindow
  {
    hide ExecutorInvariant.Invariant, GateOpen, Matches, Adjacent, Claims, TimersOf;
    var timers := TimersOf(s.workflows);
    ClaimsAreDue(timers, Loaded(s), now);
    var t :| t in timers && ClaimOf(t, Loaded(s), now, c);
    TimersBelongToWorkflows(s.workflows);
    assert t.workflow == env.workflow;
    ClaimedJobPassesItsWindows(env, run, roots, t.node.id, now, w);
  }

  lemma {:induction false} TimersBelongToWorkflows(workflows: seq<Workflow>)
    ensures forall t :: t in TimersOf(workflows) ==> t.workflow in workflows
  {
    if workflows != [] {
      var front, last := workflows[..|workflows| - 1], workflows[|workflows| - 1];
      assert workflows == front + [last];
      TimersBelongToWorkflows(front);
      TimersInWorkflow(last, last.nodes);
    }
  }

  lemma {:induction false} TimersInWorkflow(workflow: Workflow, nodes: seq<Node>)
    ensures forall t :: t in TimersIn(workflow, nodes) ==> t.workflow == workflow
  {
    if nodes != [] {
      TimersInWorkflow(workflow, nodes[..|nodes| - 1]);
    }
  }
}
