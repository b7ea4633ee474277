/**
  A small schedule: one daily timer wired to one text node. It shows that the hypotheses of the scheduler theorems can
  be met, and two runs in which a day gets two jobs.
  */
module ScheduleExample {
  import opened Outcomes
  import opened WorkflowModel
  import opened TimeSchedule
  import opened TriggerScope
  import opened WindowGate
  import opened Scheduler
  import opened KeyedStates
  import opened DailyRuns
  import NodeRules
  import Text

  const TEXT_NODE := Node("x", TextBlock(None))
  const KEY := "w" + Text.SEPARATOR + "t"

  function TimerNode(at: Minutes): Node {
    Node("t", Timer(Some(TimerConfig(Daily, At(at), 0, Offset(0)))))
  }

  function Scheduled(at: Minutes): Workflow {
    Workflow("w", [TimerNode(at), TEXT_NODE], [Edge("t", "x", "text")], 0)
  }

  function SpecAt(at: Minutes): Spec {
    Spec(Daily, At(at), Blank, Blank, 0, Offset(0))
  }

  /** The timer is set to this minute and has never fired. */
  function Idle(at: Minutes): Sched {
    Sched([Scheduled(at)], map[], [], [])
  }

  // ----- The timer -----

  lemma TheTimers(at: Minutes)
    ensures TimersOf([Scheduled(at)]) == [TimerRef(Scheduled(at), TimerNode(at))]
  {
    var workflow := Scheduled(at);
    var nodes := workflow.nodes;
    assert nodes[..1] == [TimerNode(at)] && nodes[..1][..0] == [];
    assert TimersIn(workflow, nodes[..1]) == [TimerRef(workflow, TimerNode(at))];
    assert TimersIn(workflow, nodes) == [TimerRef(workflow, TimerNode(at))];
    assert [workflow][..0] == [];
  }

  lemma TheKey(at: Minutes)
    ensures KeyOf(TimerRef(Scheduled(at), TimerNode(at))) == KEY && KEY != ""
  {
    assert Text.Trimmed("w") && Text.Trimmed("t");
    Text.TrimSpaceTrims("w");
    Text.TrimSpaceTrims("t");
  }

  lemma TheTimer(at: Minutes)
    ensures TimerSpec(TimerNode(at)) == Some(SpecAt(at))
    ensures WellFormed([Scheduled(at)]) && InPlace([Scheduled(at)], KEY, SpecAt(at))
  {
    hide TimersOf, TimerKey;
    TheTimers(at);
    TheKey(at);
    var t := TimerRef(Scheduled(at), TimerNode(at));
    assert TimersOf([Scheduled(at)])[0] == t;
    forall k | k in AllowedKeys([Scheduled(at)])
      ensures k == KEY
    {
      var u :| u in TimersOf([Scheduled(at)]) && KeyOf(u) == k;
      assert u == t;
    }
    assert AllowedKeys([Scheduled(at)]) <= {KEY};
    SubsetSize(AllowedKeys([Scheduled(at)]), {KEY});
  }

  lemma NoWindows(at: Minutes, now: int)
    ensures GateOpen(Scheduled(at), "t", now)
  {
    hide Adjacent, NodeRules.WindowMatches;
    var nodes := NodeTable(Scheduled(at).nodes);
    forall w | w in nodes
      ensures !nodes[w].kind.TimeWindow?
    {
      assert nodes[w] in Scheduled(at).nodes;
    }
  }

  /** At its minute the timer is wired, behind no window, and due unless it just fired. */
  lemma TheTimerPasses(at: Minutes, now: int)
    requires LocalMinute(now) == at
    ensures PassesAt([Scheduled(at)], KEY, SpecAt(at), now)
  {
    hide GateOpen, InPlace, WellFormed, TimersOf, TimerKey;
    TheTimers(at);
    TheKey(at);
    TheTimer(at);
    NoWindows(at, now);
    assert OutgoingEdges(Scheduled(at).edges, "t") == [Edge("t", "x", "text")];
    var t := TimerRef(Scheduled(at), TimerNode(at));
    assert t in TimersOf([Scheduled(at)]) && Passes(t, now);
  }

  lemma {:induction false} NoMoreClaimsThanTimers(timers: seq<TimerRef>, lasts: map<string, int>, now: int)
    ensures |Claims(timers, lasts, now)| <= |timers|
  {
    if timers != [] {
      NoMoreClaimsThanTimers(timers[..|timers| - 1], lasts, now);
    }
  }

  lemma OneClaimAtMost(at: Minutes, s: Sched, now: int)
    requires s.workflows == [Scheduled(at)]
    ensures |ClaimsAt(s, now)| <= 1
  {
    hide TimersOf, Claims;
    TheTimers(at);
    NoMoreClaimsThanTimers(TimersOf([Scheduled(at)]), Loaded(s), now);
  }

  // ----- One tick -----

  function TickAt(now: int): Event {
    Tick(now, SaveOk, 1)
  }

  /** A tick at which the timer is due adds one claim. */
  lemma TickFires(at: Minutes, s: Sched, now: int) returns (c: Claim)
    requires s.workflows == [Scheduled(at)] && LocalMinute(now) == at && now != ZERO_TIME
    requires Matches(now, SpecAt(at), LastOf(s.timers, KEY))
    ensures Active(now, SpecAt(at))
    ensures var t := Step(s, TickAt(now));
            && t.workflows == s.workflows && LastOf(t.timers, KEY) == Some(now)
            && t.enqueued == s.enqueued + [c] && c.key == KEY && c.stamp == Stamp(now, SpecAt(at))
  {
    hide WellFormed, InPlace, GateOpen, Matches, Stamp, KeyOf, TimersOf, Claims, Loaded, AllowedKeys, Due;
    var spec, claims := SpecAt(at), ClaimsAt(s, now);
    TheTimer(at);
    TheTimerPasses(at, now);
    InPlaceIsAllowed(s.workflows, KEY, spec);
    var t :| t in TimersOf(s.workflows) && KeyOf(t) == KEY && TimerSpec(t.node) == Some(spec) && Passes(t, now);
    PassingIsDueIff(s, t, KEY, spec, now);
    DueTimerClaims(s, t, KEY, spec, now);
    OneClaimAtMost(at, s, now);
    var i :| 0 <= i < |claims| && claims[i].key == KEY && claims[i].stamp == Stamp(now, spec);
    c := claims[0];
    assert i == 0 && c in claims && claims == [c];
    TickSetsLast(s, TickAt(now), KEY);
  }

  // ----- Exactly one job -----

  const TEN_O_CLOCK := 600 * MINUTE

  lemma TwoTicksAreSteady(now: int)
    requires LocalMinute(now) == 600 && now != ZERO_TIME
    ensures SteadyRun(Idle(600), [TickAt(now)] + [TickAt(now)], KEY, SpecAt(600), now)
  {
    hide WellFormed, InPlace, ClaimsAt, Recorded, Loaded, LocalMinute;
    var tick, events := TickAt(now), [TickAt(now)] + [TickAt(now)];
    TheTimer(600);
    assert events[..0] == [] && events[..1] == [tick] && events[..2] == events && [tick][..0] == [];
    assert After(Idle(600), [tick]) == Step(Idle(600), tick);
    assert After(Idle(600), events) == Step(After(Idle(600), [tick]), tick);
    forall n | 0 <= n <= |events|
      ensures After(Idle(600), events[..n]).workflows == [Scheduled(600)]
    {
      assert n == 0 || n == 1 || n == 2;
    }
    forall n | 0 <= n < |events|
      ensures Forward(events[n], Scheduler.Clock(events[..n], now))
    {
      assert n == 0 || n == 1;
    }
  }

  /** The hypotheses of ExactlyOneJob can be met: this timer gets exactly one job from two ticks in one minute. */
  lemma TwoTicksOneJob()
    ensures Active(TEN_O_CLOCK, SpecAt(600))
    ensures var tick := TickAt(TEN_O_CLOCK);
            exists i :: OnlyAt(After(Idle(600), [tick] + [tick]).enqueued, i, KEY, Stamp(TEN_O_CLOCK, SpecAt(600)))
  {
    assert LocalMinute(TEN_O_CLOCK) == 600 && Matches(TEN_O_CLOCK, SpecAt(600), None);
    hide WellFormed, InPlace, PassesAt, ClaimsAt, Recorded, Loaded, Stamp, Active, SteadyRun, Matches, LocalMinute;
    hide OnlyAt;
    var tick := TickAt(TEN_O_CLOCK);
    TheTimerPasses(600, TEN_O_CLOCK);
    TwoTicksAreSteady(TEN_O_CLOCK);
    assert [tick][..0] == [];
    assert After(Idle(600), [tick]) == Step(Idle(600), tick);
    OneClaimAtMost(600, Idle(600), TEN_O_CLOCK);
    OneClaimAtMost(600, After(Idle(600), [tick]), TEN_O_CLOCK);
    ExactlyOneJob(Idle(600), [tick], tick, KEY, SpecAt(600), TEN_O_CLOCK);
  }

  // ----- Two jobs for one day -----

  lemma StepsOf(s: Sched, e: Event, f: Event, g: Event)
    ensures After(s, [e, f, g]) == Step(Step(Step(s, e), f), g)
  {
    assert [e, f, g][..2] == [e, f] && [e, f][..1] == [e] && [e][..0] == [];
    assert After(s, [e]) == Step(s, e);
    assert After(s, [e, f]) == Step(Step(s, e), f);
  }

  lemma NineAndTen()
    ensures LocalMinute(540 * MINUTE) == 540 && LocalMinute(600 * MINUTE) == 600
    ensures Matches(540 * MINUTE, SpecAt(540), None) && Matches(600 * MINUTE, SpecAt(600), Some(540 * MINUTE))
    ensures Active(540 * MINUTE, SpecAt(540)) && Active(600 * MINUTE, SpecAt(600))
    ensures Stamp(540 * MINUTE, SpecAt(540)) == Stamp(600 * MINUTE, SpecAt(600))
  {
  }

  lemma TheTwo(claims: seq<Claim>, i: nat, j: nat)
    requires i < j < |claims| && claims[i].key == KEY && claims[j].key == KEY && claims[i].stamp == claims[j].stamp
    ensures TwoJobsForOneDay(claims, KEY)
  {
  }

  /** With a clock that only goes forward: the timer fires at nine, is set to ten, and fires again on the same day. */
  lemma EditedTimerFiresTwice()
    ensures var events := [TickAt(540 * MINUTE), SaveDefinitions([Scheduled(600)], true, true), TickAt(600 * MINUTE)];
            TwoJobsForOneDay(After(Idle(540), events).enqueued, KEY)
  {
    hide LocalMinute, Matches, Stamp, AllowedKeys, WellFormed, InPlace, Step, After, Active, TwoJobsForOneDay;
    var nine, ten, save := 540 * MINUTE, 600 * MINUTE, SaveDefinitions([Scheduled(600)], true, true);
    NineAndTen();
    StepsOf(Idle(540), TickAt(nine), save, TickAt(ten));
    TheTimer(540);
    TheTimer(600);
    InPlaceIsAllowed([Scheduled(540)], KEY, SpecAt(540));
    InPlaceIsAllowed([Scheduled(600)], KEY, SpecAt(600));
    var first := TickFires(540, Idle(540), nine);
    var s := Step(Idle(540), TickAt(nine));
    SaveKeepsLast(s, [Scheduled(600)]);
    var second := TickFires(600, Step(s, save), ten);
    TheTwo(Step(Step(s, save), TickAt(ten)).enqueued, 0, 1);
  }

  lemma SaveKeepsLast(s: Sched, next: seq<Workflow>)
    requires KEY in AllowedKeys(s.workflows) && KEY in AllowedKeys(next)
    ensures var t := Step(s, SaveDefinitions(next, true, true));
            t.workflows == next && t.enqueued == s.enqueued && LastOf(t.timers, KEY) == LastOf(s.timers, KEY)
  {
    hide AllowedKeys;
  }

  lemma TodayAndTomorrow(today: int, tomorrow: int)
    requires today == 600 * MINUTE && tomorrow == today + DAY
    ensures LocalMinute(today) == 600 && LocalMinute(tomorrow) == 600 && Matches(today, SpecAt(600), None)
    ensures Matches(tomorrow, SpecAt(600), Some(today)) && Matches(today, SpecAt(600), Some(tomorrow))
  {
  }

  /** With a fixed schedule: the timer fires, fires on the next day, and when the clock goes back fires again. */
  lemma ClockBackFiresTwice()
    ensures var events := [TickAt(600 * MINUTE), TickAt(600 * MINUTE + DAY), TickAt(600 * MINUTE)];
            TwoJobsForOneDay(After(Idle(600), events).enqueued, KEY)
  {
    hide LocalMinute, Matches, Stamp, Step, After, Active, TwoJobsForOneDay;
    var today, tomorrow := 600 * MINUTE, 600 * MINUTE + DAY;
    TodayAndTomorrow(today, tomorrow);
    StepsOf(Idle(600), TickAt(today), TickAt(tomorrow), TickAt(today));
    var first := TickFires(600, Idle(600), today);
    var s := Step(Idle(600), TickAt(today));
    var second := TickFires(600, s, tomorrow);
    var third := TickFires(600, Step(s, TickAt(tomorrow)), today);
    TheTwo(Step(Step(s, TickAt(tomorrow)), TickAt(today)).enqueued, 0, 2);
  }
}
