/**
  Exactly which jobs a daily timer gets, over every run: with any clock, any saves and stops, and with edits of the time
  it is set to. The code compares minutes, not days, so a day can have several jobs; it is stated when.
  */
module DailyRuns {
  import opened Outcomes
  import opened WorkflowModel
  import opened TimeSchedule
  import opened Scheduler
  import opened WindowGate

  // ----- The passing ticks of a timer -----

  /** A daily timer with this key exists, in a zone whose offset leaves this remainder of a minute. Its time may
      differ from one moment to the next, and so may its zone. */
  ghost predicate DailyInPlace(workflows: seq<Workflow>, key: string, phase: int) {
    exists spec: Spec :: InPlace(workflows, key, spec)
                         && spec.schedule == Daily && spec.zone.Offset? && spec.zone.ns % MINUTE == phase
  }

  /** A tick at which the timer is wired, its windows are open and the minute is the one it is set to, and whose save
      is stored: the minute, the local day, and whether a claim would reach the queue before a stop. */
  datatype Passing = Passing(minute: int, day: int, queued: bool)

  ghost predicate PassesIn(s: Sched, now: int, key: string, t: TimerRef) {
    t in TimersOf(s.workflows) && KeyOf(t) == key && Passes(t, now)
  }

  /** The number of claims made before it is the turn of the timer. */
  ghost function Turn(timers: seq<TimerRef>, lasts: map<string, int>, now: int, key: string): nat {
    if timers == [] then 0
    else
      var front, last := timers[..|timers| - 1], timers[|timers| - 1];
      if KeyOf(last) == key then |Claims(front, lasts, now)| else Turn(front, lasts, now, key)
  }

  /** The save reports no error, and no stop comes before it is the turn of the timer. */
  ghost predicate Queues(s: Sched, e: Event, key: string)
    requires e.Tick?
  {
    e.save.SaveOk?
    && (|ClaimsAt(s, e.now)| <= e.delivered || Turn(TimersOf(s.workflows), Loaded(s), e.now, key) < e.delivered)
  }

  ghost function PassingOf(s: Sched, e: Event, key: string, phase: int, t: TimerRef): Passing
    requires e.Tick? && PassesIn(s, e.now, key, t)
  {
    Passing(MinuteNumber(e.now, phase), Stamp(e.now, TimerSpec(t.node).value), Queues(s, e, key))
  }

  ghost function PassingAt(s: Sched, e: Event, key: string, phase: int): seq<Passing> {
    if e.Tick? && !e.save.SaveFailed? && exists t :: PassesIn(s, e.now, key, t) then
      var t :| PassesIn(s, e.now, key, t);
      [PassingOf(s, e, key, phase, t)]
    else []
  }

  ghost function Passings(s: Sched, events: seq<Event>, key: string, phase: int): seq<Passing> {
    if events == [] then []
    else
      var front, last := events[..|events| - 1], events[|events| - 1];
      Passings(s, front, key, phase) + PassingAt(After(s, front), last, key, phase)
  }

  // ----- The first ticks of their minutes -----

  /** The minute of the firing recorded for the timer, if there is one. */
  ghost function LastMinute(s: Sched, key: string, phase: int): Option<int> {
    match LastOf(s.timers, key)
    case None => None
    case Some(last) => Some(MinuteNumber(last, phase))
  }

  function MinuteBefore(before: Option<int>, passings: seq<Passing>): Option<int> {
    if passings == [] then before else Some(passings[|passings| - 1].minute)
  }

  /** The timer did not pass in the same minute just before. */
  predicate NewMinute(before: Option<int>, passings: seq<Passing>, p: nat)
    requires p < |passings|
  {
    MinuteBefore(before, passings[..p]) != Some(passings[p].minute)
  }

  /** A new minute whose claim reaches the queue. */
  predicate Fires(before: Option<int>, passings: seq<Passing>, p: nat)
    requires p < |passings|
  {
    NewMinute(before, passings, p) && passings[p].queued
  }

  /** The days of the new minutes whose claims reach the queue, in order. */
  function FiredDays(before: Option<int>, passings: seq<Passing>): seq<int> {
    if passings == [] then []
    else
      FiredDays(before, passings[..|passings| - 1])
      + (if Fires(before, passings, |passings| - 1) then [passings[|passings| - 1].day] else [])
  }

  /** The days of the jobs of a timer, in the order they were enqueued. */
  function JobDays(claims: seq<Claim>, key: string): seq<int> {
    if claims == [] then []
    else
      var last := claims[|claims| - 1];
      JobDays(claims[..|claims| - 1], key) + (if last.key == key then [last.stamp] else [])
  }

  // ----- One tick -----

  lemma {:induction false} JobDaysAppend(a: seq<Claim>, b: seq<Claim>, key: string)
    ensures JobDays(a + b, key) == JobDays(a, key) + JobDays(b, key)
  {
    if b == [] {
      assert a + b == a;
    } else {
      JobDaysAppend(a, b[..|b| - 1], key);
      assert (a + b)[..|a + b| - 1] == a + b[..|b| - 1];
    }
  }

  lemma {:induction false} NoJobDays(claims: seq<Claim>, key: string)
    requires forall i :: 0 <= i < |claims| ==> claims[i].key != key
    ensures JobDays(claims, key) == []
  {
    if claims != [] {
      NoJobDays(claims[..|claims| - 1], key);
    }
  }

  lemma OneJobDay(claims: seq<Claim>, i: nat)
    requires DistinctClaims(claims) && i < |claims|
    ensures JobDays(claims, claims[i].key) == [claims[i].stamp]
  {
    var key, a, c, b := claims[i].key, claims[..i], claims[i], claims[i + 1..];
    NoJobDays(a, key);
    NoJobDays(b, key);
    hide JobDays;
    JobDaysAppend(a, [c], key);
    JobDaysAppend(a + [c], b, key);
    SingleJobDay(c);
    assert claims == a + [c] + b;
  }

  lemma SingleJobDay(c: Claim)
    ensures JobDays([c], c.key) == [c.stamp]
  {
    assert [c][..0] == [];
  }

  /** A due timer is claimed when it is its turn. */
  lemma {:induction false} ClaimedInTurn(timers: seq<TimerRef>, lasts: map<string, int>, now: int, t: TimerRef)
    requires DistinctTimers(timers) && t in timers && Due(t, lasts, now)
    ensures var turn, claims := Turn(timers, lasts, now, KeyOf(t)), Claims(timers, lasts, now);
            turn < |claims| && claims[turn] == ClaimFor(t, now)
  {
    hide Due, KeyOf;
    var front, last := timers[..|timers| - 1], timers[|timers| - 1];
    if KeyOf(last) == KeyOf(t) {
      SameKeySameTimer(timers, t, last);
    } else {
      assert timers == front + [last];
      ClaimedInTurn(front, lasts, now, t);
    }
  }

  /** What a tick adds to the jobs of the timer: one job if it passes in a new minute and its claim gets through. */
  ghost predicate TickAdds(s: Sched, e: Event, key: string, phase: int)
    requires e.Tick?
  {
    var passing, t := PassingAt(s, e, key, phase), Step(s, e);
    var before := LastMinute(s, key, phase);
    && JobDays(t.enqueued, key) == JobDays(s.enqueued, key) + FiredDays(before, passing)
    && LastMinute(t, key, phase) == MinuteBefore(before, passing)
  }

  /** The claim of a passing timer is made exactly in a new minute. */
  lemma PassingIsDue(s: Sched, now: int, key: string, phase: int, t: TimerRef)
    requires WellFormed(s.workflows) && DailyInPlace(s.workflows, key, phase) && PassesIn(s, now, key, t)
    ensures Due(t, Loaded(s), now) <==> LastMinute(s, key, phase) != Some(MinuteNumber(now, phase))
  {
    hide WellFormed, Matches, GateOpen, AllowedKeys, TimersOf, MinuteNumber, KeyOf;
    var spec: Spec :| InPlace(s.workflows, key, spec)
                      && spec.schedule == Daily && spec.zone.Offset? && spec.zone.ns % MINUTE == phase;
    InPlaceIsAllowed(s.workflows, key, spec);
    TheTimerInPlace(s.workflows, key, spec, t);
    PassingIsDueIff(s, t, key, spec, now);
    if LastOf(s.timers, key).Some? {
      DailyMatchesIffOtherMinute(now, spec, s.timers[key]);
    }
  }

  lemma TheTimerInPlace(workflows: seq<Workflow>, key: string, spec: Spec, t: TimerRef)
    requires WellFormed(workflows) && InPlace(workflows, key, spec) && t in TimersOf(workflows) && KeyOf(t) == key
    ensures TimerSpec(t.node) == Some(spec)
  {
    hide KeyOf, TimersOf, TimerSpec;
    var u :| u in TimersOf(workflows) && KeyOf(u) == key && TimerSpec(u.node) == Some(spec);
    SameKeySameTimer(TimersOf(workflows), t, u);
  }

  /** Claims of the timer are claims of a passing timer. */
  lemma ClaimPasses(s: Sched, now: int, key: string, c: Claim) returns (t: TimerRef)
    requires c in ClaimsAt(s, now) && c.key == key
    ensures PassesIn(s, now, key, t) && Due(t, Loaded(s), now) && c == ClaimFor(t, now)
  {
    hide Due, KeyOf, TimersOf, Loaded;
    ClaimsAreDue(TimersOf(s.workflows), Loaded(s), now);
    t :| t in TimersOf(s.workflows) && ClaimOf(t, Loaded(s), now, c);
  }

  /** A tick at which the timer is not claimed adds nothing. */
  lemma UnclaimedAddsNothing(s: Sched, e: Event, key: string, phase: int)
    requires e.Tick? && key in AllowedKeys(s.workflows) && DistinctClaims(ClaimsAt(s, e.now))
    requires e.save.SaveFailed? || forall c :: c in ClaimsAt(s, e.now) ==> c.key != key
    ensures JobDays(Step(s, e).enqueued, key) == JobDays(s.enqueued, key)
    ensures LastMinute(Step(s, e), key, phase) == LastMinute(s, key, phase)
  {
    hide ClaimsAt, AllowedKeys, MinuteNumber;
    var sent := SentAt(s, e);
    SentIsPartOfClaims(s, e, key);
    TickSetsLast(s, e, key);
    forall i | 0 <= i < |sent|
      ensures sent[i].key != key
    {
      assert sent[i] in ClaimsAt(s, e.now);
    }
    NoJobDays(sent, key);
    JobDaysAppend(s.enqueued, sent, key);
  }

  /** A claim adds its day if it gets through, and its minute in any case. */
  lemma ClaimAddsItsDay(s: Sched, e: Event, key: string, phase: int, turn: nat)
    requires e.Tick? && RealTime(e) && !e.save.SaveFailed? && key in AllowedKeys(s.workflows)
    requires DistinctClaims(ClaimsAt(s, e.now)) && turn < |ClaimsAt(s, e.now)| && ClaimsAt(s, e.now)[turn].key == key
    ensures JobDays(Step(s, e).enqueued, key)
         == JobDays(s.enqueued, key)
            + (if e.save.SaveOk? && turn < e.delivered then [ClaimsAt(s, e.now)[turn].stamp] else [])
    ensures LastMinute(Step(s, e), key, phase) == Some(MinuteNumber(e.now, phase))
  {
    hide ClaimsAt, AllowedKeys, MinuteNumber, Step;
    var claims, sent := ClaimsAt(s, e.now), SentAt(s, e);
    SentIsPartOfClaims(s, e, key);
    TickSetsLast(s, e, key);
    assert claims[turn] in claims;
    if e.save.SaveOk? && turn < e.delivered {
      assert sent[turn] == claims[turn];
      OneJobDay(sent, turn);
    } else {
      forall i | 0 <= i < |sent|
        ensures sent[i].key != key
      {
        assert sent[i] == claims[i] && i < turn;
      }
      NoJobDays(sent, key);
    }
    JobDaysAppend(s.enqueued, sent, key);
  }

  lemma OnePassing(before: Option<int>, p: Passing)
    ensures FiredDays(before, [p]) == if before != Some(p.minute) && p.queued then [p.day] else []
    ensures MinuteBefore(before, [p]) == Some(p.minute)
  {
    assert [p][..0] == [];
  }

  lemma TickAddsFiredDays(s: Sched, e: Event, key: string, phase: int)
    requires WellFormed(s.workflows) && DailyInPlace(s.workflows, key, phase) && e.Tick? && RealTime(e)
    ensures TickAdds(s, e, key, phase)
  {
    hide WellFormed, AllowedKeys, TimersOf, MinuteNumber, KeyOf, Due, Passes, Claims, Turn;
    hide LastMinute, Loaded, Step, Stamp;
    var spec: Spec :| InPlace(s.workflows, key, spec)
                      && spec.schedule == Daily && spec.zone.Offset? && spec.zone.ns % MINUTE == phase;
    InPlaceIsAllowed(s.workflows, key, spec);
    TickClaimsAreGood(s, key, spec, e.now);
    var timers, claims := TimersOf(s.workflows), ClaimsAt(s, e.now);
    if !e.save.SaveFailed? && exists t :: PassesIn(s, e.now, key, t) {
      PassingTickAdds(s, e, key, phase, spec);
    } else {
      forall c | c in claims
        ensures e.save.SaveFailed? || c.key != key
      {
        if c.key == key {
          var u := ClaimPasses(s, e.now, key, c);
        }
      }
      UnclaimedAddsNothing(s, e, key, phase);
    }
  }

  lemma PassingTickAdds(s: Sched, e: Event, key: string, phase: int, spec: Spec)
    requires WellFormed(s.workflows) && DailyInPlace(s.workflows, key, phase) && InPlace(s.workflows, key, spec)
    requires e.Tick? && RealTime(e) && !e.save.SaveFailed? && exists t :: PassesIn(s, e.now, key, t)
    requires key in AllowedKeys(s.workflows) && DistinctClaims(ClaimsAt(s, e.now))
    ensures TickAdds(s, e, key, phase)
  {
    hide AllowedKeys, TimersOf, MinuteNumber, KeyOf, Due, Passes, Claims, Turn;
    hide LastMinute, Loaded, Step, Stamp, InPlace;
    var timers, claims := TimersOf(s.workflows), ClaimsAt(s, e.now);
    var t: TimerRef :| PassesIn(s, e.now, key, t) && PassingAt(s, e, key, phase) == [PassingOf(s, e, key, phase, t)];
    OnePassing(LastMinute(s, key, phase), PassingOf(s, e, key, phase, t));
    PassingIsDue(s, e.now, key, phase, t);
    if Due(t, Loaded(s), e.now) {
      ClaimedInTurn(timers, Loaded(s), e.now, t);
      ClaimAddsItsDay(s, e, key, phase, Turn(timers, Loaded(s), e.now, key));
    } else {
      forall c | c in claims
        ensures c.key != key
      {
        if c.key == key {
          var u := ClaimPasses(s, e.now, key, c);
          SameKeySameTimer(timers, t, u);
        }
      }
      UnclaimedAddsNothing(s, e, key, phase);
    }
  }

  // ----- Whole runs -----

  /** At every moment of the run a daily timer with this key is in place. */
  ghost predicate DailyRun(s: Sched, events: seq<Event>, key: string, phase: int) {
    && (forall n :: 0 <= n <= |events| ==>
          WellFormed(After(s, events[..n]).workflows) && DailyInPlace(After(s, events[..n]).workflows, key, phase))
    && (forall n :: 0 <= n < |events| ==> RealTime(events[n]))
  }

  lemma DailyPrefix(s: Sched, events: seq<Event>, key: string, phase: int)
    requires DailyRun(s, events, key, phase) && events != []
    ensures var front, last := events[..|events| - 1], events[|events| - 1];
            && DailyRun(s, front, key, phase) && RealTime(last)
            && WellFormed(After(s, front).workflows) && DailyInPlace(After(s, front).workflows, key, phase)
            && WellFormed(After(s, events).workflows) && DailyInPlace(After(s, events).workflows, key, phase)
  {
    hide WellFormed, DailyInPlace, After;
    var front := events[..|events| - 1];
    forall n | 0 <= n <= |front|
      ensures front[..n] == events[..n]
    {
    }
    assert events[..|events|] == events && front[..|front|] == front;
  }

  lemma OtherStepsKeepJobs(s: Sched, e: Event, key: string, phase: int)
    requires !e.Tick? && key in AllowedKeys(s.workflows) && key in AllowedKeys(Step(s, e).workflows)
    ensures JobDays(Step(s, e).enqueued, key) == JobDays(s.enqueued, key)
    ensures LastMinute(Step(s, e), key, phase) == LastMinute(s, key, phase)
  {
    hide AllowedKeys, MinuteNumber;
  }

  lemma DailyIsAllowed(workflows: seq<Workflow>, key: string, phase: int)
    requires WellFormed(workflows) && DailyInPlace(workflows, key, phase)
    ensures key in AllowedKeys(workflows)
  {
    hide WellFormed, InPlace, AllowedKeys;
    var spec: Spec :| InPlace(workflows, key, spec)
                      && spec.schedule == Daily && spec.zone.Offset? && spec.zone.ns % MINUTE == phase;
    InPlaceIsAllowed(workflows, key, spec);
  }

  lemma {:induction false} FiredDaysAppend(before: Option<int>, a: seq<Passing>, b: seq<Passing>)
    ensures FiredDays(before, a + b) == FiredDays(before, a) + FiredDays(MinuteBefore(before, a), b)
    ensures MinuteBefore(before, a + b) == MinuteBefore(MinuteBefore(before, a), b)
  {
    if b == [] {
      assert a + b == a;
    } else {
      var front := b[..|b| - 1];
      FiredDaysAppend(before, a, front);
      assert (a + b)[..|a + b| - 1] == a + front;
    }
  }

  /** Over every run that keeps a daily timer in place, whatever the clock, the saves, the stops, the restarts and the
      edits of its time: its jobs are exactly the passing ticks that open a new minute and get through. */
  lemma {:induction false} JobsAreNewMinutes(s: Sched, events: seq<Event>, key: string, phase: int)
    requires s.enqueued == [] && DailyRun(s, events, key, phase)
    ensures JobDays(After(s, events).enqueued, key)
         == FiredDays(LastMinute(s, key, phase), Passings(s, events, key, phase))
    ensures LastMinute(After(s, events), key, phase)
         == MinuteBefore(LastMinute(s, key, phase), Passings(s, events, key, phase))
  {
    hide DailyRun, WellFormed, DailyInPlace, AllowedKeys, PassingAt, Step, LastMinute;
    if events != [] {
      var front, last := events[..|events| - 1], events[|events| - 1];
      DailyPrefix(s, events, key, phase);
      JobsAreNewMinutes(s, front, key, phase);
      var t := After(s, front);
      FiredDaysAppend(LastMinute(s, key, phase), Passings(s, front, key, phase), PassingAt(t, last, key, phase));
      if last.Tick? {
        TickAddsFiredDays(t, last, key, phase);
      } else {
        DailyIsAllowed(t.workflows, key, phase);
        DailyIsAllowed(Step(t, last).workflows, key, phase);
        OtherStepsKeepJobs(t, last, key, phase);
        assert PassingAt(t, last, key, phase) == [] by {
          NoPassing(t, last, key, phase);
        }
      }
    }
  }

  lemma NoPassing(s: Sched, e: Event, key: string, phase: int)
    requires !e.Tick?
    ensures PassingAt(s, e, key, phase) == []
  {
  }

  // ----- Two jobs for one day -----

  ghost predicate Repeats(days: seq<int>) {
    exists i, j :: 0 <= i < j < |days| && days[i] == days[j]
  }

  ghost predicate TwoJobsForOneDay(claims: seq<Claim>, key: string) {
    exists i, j :: 0 <= i < j < |claims| && claims[i].key == key && claims[j].key == key
                   && claims[i].stamp == claims[j].stamp
  }

  /** On one day the timer passes in two new minutes whose claims get through. */
  ghost predicate FiresTwiceADay(before: Option<int>, passings: seq<Passing>) {
    exists p, q :: 0 <= p < q < |passings| && Fires(before, passings, p) && Fires(before, passings, q)
                   && passings[p].day == passings[q].day
  }

  lemma RepeatsAppend(days: seq<int>, day: int)
    ensures Repeats(days + [day]) <==> Repeats(days) || day in days
  {
    var all := days + [day];
    if Repeats(days) {
      var i, j :| 0 <= i < j < |days| && days[i] == days[j];
      assert all[i] == all[j];
    } else if day in days {
      var i :| 0 <= i < |days| && days[i] == day;
      assert all[i] == all[|days|];
    }
  }

  lemma {:induction false} JobDaysAre(claims: seq<Claim>, key: string)
    ensures forall d :: d in JobDays(claims, key) <==> HasClaim(claims, key, d)
    ensures Repeats(JobDays(claims, key)) <==> TwoJobsForOneDay(claims, key)
  {
    if claims != [] {
      var front, last := claims[..|claims| - 1], claims[|claims| - 1];
      JobDaysAre(front, key);
      RepeatsAppend(JobDays(front, key), last.stamp);
      assert JobDays(front, key) + [] == JobDays(front, key);
      hide Repeats, HasClaim, TwoJobsForOneDay;
      MoreJobs(front, last, key);
      assert front + [last] == claims;
    }
  }

  lemma MoreJobs(front: seq<Claim>, last: Claim, key: string)
    ensures TwoJobsForOneDay(front + [last], key) <==>
            TwoJobsForOneDay(front, key) || (last.key == key && HasClaim(front, key, last.stamp))
    ensures forall d :: HasClaim(front + [last], key, d) <==>
                        HasClaim(front, key, d) || (last.key == key && last.stamp == d)
  {
    var all := front + [last];
    if TwoJobsForOneDay(front, key) {
      var i, j :| 0 <= i < j < |front| && front[i].key == key && front[j].key == key
                  && front[i].stamp == front[j].stamp;
      assert all[i].stamp == all[j].stamp && all[i].key == key && all[j].key == key;
    }
    if last.key == key && HasClaim(front, key, last.stamp) {
      var i :| 0 <= i < |front| && front[i].key == key && front[i].stamp == last.stamp;
      assert all[i].stamp == all[|front|].stamp && all[i].key == key && all[|front|].key == key;
    }
    forall d
      ensures HasClaim(front, key, d) || (last.key == key && last.stamp == d) ==> HasClaim(all, key, d)
    {
      if HasClaim(front, key, d) {
        var i :| 0 <= i < |front| && front[i].key == key && front[i].stamp == d;
        assert all[i].key == key && all[i].stamp == d;
      } else if last.key == key && last.stamp == d {
        assert all[|front|] == last;
      }
    }
  }

  ghost predicate FiresOn(before: Option<int>, passings: seq<Passing>, day: int) {
    exists p :: 0 <= p < |passings| && Fires(before, passings, p) && passings[p].day == day
  }

  lemma {:induction false} FiredDaysAre(before: Option<int>, passings: seq<Passing>)
    ensures forall d :: d in FiredDays(before, passings) <==> FiresOn(before, passings, d)
    ensures Repeats(FiredDays(before, passings)) <==> FiresTwiceADay(before, passings)
  {
    if passings != [] {
      var front, last := passings[..|passings| - 1], passings[|passings| - 1];
      FiredDaysAre(before, front);
      RepeatsAppend(FiredDays(before, front), last.day);
      assert FiredDays(before, front) + [] == FiredDays(before, front);
      hide Repeats, FiresOn, FiresTwiceADay, Fires;
      MoreFirings(before, front, last);
      assert front + [last] == passings;
    }
  }

  lemma FiresInPrefix(before: Option<int>, front: seq<Passing>, last: Passing, p: nat)
    requires p < |front|
    ensures Fires(before, front + [last], p) == Fires(before, front, p)
  {
    assert (front + [last])[..p] == front[..p];
  }

  lemma MoreFirings(before: Option<int>, front: seq<Passing>, last: Passing)
    ensures var all := front + [last];
            && (FiresTwiceADay(before, all) <==>
                FiresTwiceADay(before, front) || (Fires(before, all, |front|) && FiresOn(before, front, last.day)))
            && forall d :: FiresOn(before, all, d) <==>
                           FiresOn(before, front, d) || (Fires(before, all, |front|) && last.day == d)
  {
    hide Fires;
    var all := front + [last];
    forall p | 0 <= p < |front|
      ensures Fires(before, all, p) == Fires(before, front, p)
    {
      FiresInPrefix(before, front, last, p);
    }
    if FiresTwiceADay(before, front) {
      var p, q :| 0 <= p < q < |front| && Fires(before, front, p) && Fires(before, front, q)
                  && front[p].day == front[q].day;
      assert Fires(before, all, p) && Fires(before, all, q) && all[p].day == all[q].day;
    }
    if Fires(before, all, |front|) && FiresOn(before, front, last.day) {
      var p :| 0 <= p < |front| && Fires(before, front, p) && front[p].day == last.day;
      assert Fires(before, all, p) && all[p].day == all[|front|].day;
    }
    forall d
      ensures FiresOn(before, front, d) || (Fires(before, all, |front|) && last.day == d) ==> FiresOn(before, all, d)
    {
      if FiresOn(before, front, d) {
        var p :| 0 <= p < |front| && Fires(before, front, p) && front[p].day == d;
        assert Fires(before, all, p) && all[p].day == d;
      }
    }
  }

  /** When a day gets two jobs, exactly: when the timer passes on that day in two new minutes whose claims get through.
      Nothing else is asked of the clock, the saves or the edits. */
  lemma TwoJobsForOneDayIff(s: Sched, events: seq<Event>, key: string, phase: int)
    requires s.enqueued == [] && DailyRun(s, events, key, phase)
    ensures TwoJobsForOneDay(After(s, events).enqueued, key) <==>
            FiresTwiceADay(LastMinute(s, key, phase), Passings(s, events, key, phase))
  {
    hide DailyRun, FiredDays, JobDays, Passings, After, Repeats;
    JobsAreNewMinutes(s, events, key, phase);
    JobDaysAre(After(s, events).enqueued, key);
    FiredDaysAre(LastMinute(s, key, phase), Passings(s, events, key, phase));
  }

  // ----- With a fixed schedule -----

  /** At every moment of the run the timer is in place with this daily spec, and no tick is disturbed. */
  ghost predicate FixedRun(s: Sched, events: seq<Event>, key: string, spec: Spec) {
    && spec.schedule == Daily && spec.zone.Offset?
    && (forall n :: 0 <= n <= |events| ==>
          WellFormed(After(s, events[..n]).workflows) && InPlace(After(s, events[..n]).workflows, key, spec))
    && (forall n :: 0 <= n < |events| ==> RealTime(events[n]) && Undisturbed(After(s, events[..n]), events[n]))
  }

  lemma FixedPrefix(s: Sched, events: seq<Event>, key: string, spec: Spec)
    requires FixedRun(s, events, key, spec) && events != []
    ensures var front, last := events[..|events| - 1], events[|events| - 1];
            && FixedRun(s, front, key, spec) && Undisturbed(After(s, front), last)
            && spec.schedule == Daily && spec.zone.Offset?
            && WellFormed(After(s, front).workflows) && InPlace(After(s, front).workflows, key, spec)
  {
    hide WellFormed, InPlace, After, Undisturbed;
    var front := events[..|events| - 1];
    forall n | 0 <= n <= |front|
      ensures front[..n] == events[..n]
    {
    }
    assert Undisturbed(After(s, events[..|front|]), events[|front|]);
    assert front[..|front|] == front;
  }

  lemma FixedIsDaily(s: Sched, events: seq<Event>, key: string, spec: Spec)
    requires FixedRun(s, events, key, spec)
    ensures DailyRun(s, events, key, spec.zone.ns % MINUTE)
  {
    hide WellFormed, InPlace, After;
    forall n | 0 <= n <= |events|
      ensures DailyInPlace(After(s, events[..n]).workflows, key, spec.zone.ns % MINUTE)
    {
      assert InPlace(After(s, events[..n]).workflows, key, spec);
    }
  }

  lemma FixedTimeIsSet(s: Sched, events: seq<Event>, key: string, spec: Spec)
    requires FixedRun(s, events, key, spec)
    ensures spec.at.At?
  {
    hide WellFormed, After, TimersOf, KeyOf;
    assert InPlace(After(s, events[..0]).workflows, key, spec);
  }

  /** The day decides the minute, and every claim gets through. */
  ghost predicate OneMinuteADay(passings: seq<Passing>, first: int) {
    forall p :: 0 <= p < |passings| ==> passings[p].minute == passings[p].day * 1440 + first && passings[p].queued
  }

  lemma DayDecidesMinute(now: int, spec: Spec)
    requires spec.schedule == Daily && Active(now, spec)
    ensures MinuteNumber(now, spec.zone.ns % MINUTE)
         == Stamp(now, spec) * 1440 + (spec.at.minutes - spec.zone.ns / MINUTE)
  {
    hide MinuteNumber, LocalDay, LocalMinute;
    MinuteOfDay(now, spec.zone.ns);
  }

  lemma PassingInItsMinute(s: Sched, e: Event, key: string, spec: Spec)
    requires WellFormed(s.workflows) && InPlace(s.workflows, key, spec) && spec.schedule == Daily && spec.zone.Offset?
    requires spec.at.At? && Undisturbed(s, e)
    ensures OneMinuteADay(PassingAt(s, e, key, spec.zone.ns % MINUTE), spec.at.minutes - spec.zone.ns / MINUTE)
  {
    hide WellFormed, InPlace, TimersOf, KeyOf, GateOpen, ClaimsAt, Turn, MinuteNumber, Active, Stamp;
    var phase := spec.zone.ns % MINUTE;
    if PassingAt(s, e, key, phase) != [] {
      var t: TimerRef :| PassesIn(s, e.now, key, t) && PassingAt(s, e, key, phase) == [PassingOf(s, e, key, phase, t)];
      TheTimerInPlace(s.workflows, key, spec, t);
      assert Passes(t, e.now) && Active(e.now, spec);
      DayDecidesMinute(e.now, spec);
      var p := PassingOf(s, e, key, phase, t);
      assert p.minute == p.day * 1440 + (spec.at.minutes - spec.zone.ns / MINUTE) && p.queued;
    }
  }

  lemma {:induction false} FixedTimeMeansOneMinuteADay(s: Sched, events: seq<Event>, key: string, spec: Spec)
    requires FixedRun(s, events, key, spec) && spec.at.At?
    ensures OneMinuteADay(Passings(s, events, key, spec.zone.ns % MINUTE), spec.at.minutes - spec.zone.ns / MINUTE)
  {
    hide FixedRun, WellFormed, InPlace, After, Undisturbed, PassingAt;
    if events != [] {
      var front := events[..|events| - 1];
      FixedPrefix(s, events, key, spec);
      FixedTimeMeansOneMinuteADay(s, front, key, spec);
      PassingInItsMinute(After(s, front), events[|events| - 1], key, spec);
    }
  }

  lemma FixedTimeMeansOneMinute(s: Sched, events: seq<Event>, key: string, spec: Spec, phase: int) returns (first: int)
    requires FixedRun(s, events, key, spec) && phase == spec.zone.ns % MINUTE
    ensures OneMinuteADay(Passings(s, events, key, phase), first)
  {
    FixedTimeIsSet(s, events, key, spec);
    first := spec.at.minutes - spec.zone.ns / MINUTE;
    hide OneMinuteADay, Passings;
    FixedTimeMeansOneMinuteADay(s, events, key, spec);
  }

  /** The first tick of the stretch of one minute that p is in. */
  lemma {:induction false} StretchStart(before: Option<int>, passings: seq<Passing>, p: nat) returns (q: nat)
    requires p < |passings|
    ensures q <= p && passings[q].minute == passings[p].minute
    ensures NewMinute(before, passings, q) || (q == 0 && before == Some(passings[0].minute))
  {
    if p == 0 || NewMinute(before, passings, p) {
      q := p;
    } else {
      q := StretchStart(before, passings, p - 1);
    }
  }

  /** The timer fires on a day, later passes on another day, and still later on the first day again. */
  ghost predicate ComesBack(before: Option<int>, passings: seq<Passing>) {
    exists i, j, k :: 0 <= i < j < k < |passings| && Fires(before, passings, i)
                      && passings[i].day == passings[k].day && passings[j].day != passings[i].day
  }

  /** The first passing tick on a day after one that was not. */
  lemma {:induction false} BackOnTheDay(before: Option<int>, passings: seq<Passing>, first: int, j: nat, k: nat)
    returns (q: nat)
    requires OneMinuteADay(passings, first) && j < k < |passings| && passings[j].day != passings[k].day
    ensures j < q <= k && Fires(before, passings, q) && passings[q].day == passings[k].day
    decreases k
  {
    if passings[k - 1].day != passings[k].day {
      q := k;
      assert passings[..k][k - 1] == passings[k - 1];
    } else {
      q := BackOnTheDay(before, passings, first, j, k - 1);
    }
  }

  lemma NewMinuteIsNewDay(before: Option<int>, passings: seq<Passing>, first: int, q: nat)
    requires OneMinuteADay(passings, first) && 0 < q < |passings| && Fires(before, passings, q)
    ensures passings[q - 1].day != passings[q].day
  {
    assert passings[..q][q - 1] == passings[q - 1];
  }

  lemma ComesBackIff(before: Option<int>, passings: seq<Passing>, first: int)
    requires OneMinuteADay(passings, first)
    ensures FiresTwiceADay(before, passings) <==> ComesBack(before, passings)
  {
    hide Fires, OneMinuteADay;
    if FiresTwiceADay(before, passings) {
      var p, q :| 0 <= p < q < |passings| && Fires(before, passings, p) && Fires(before, passings, q)
                  && passings[p].day == passings[q].day;
      NewMinuteIsNewDay(before, passings, first, q);
      assert p < q - 1 < q && passings[q - 1].day != passings[p].day;
    }
    if ComesBack(before, passings) {
      var i, j, k :| 0 <= i < j < k < |passings| && Fires(before, passings, i)
                     && passings[i].day == passings[k].day && passings[j].day != passings[i].day;
      var q := BackOnTheDay(before, passings, first, j, k);
      assert Fires(before, passings, i) && Fires(before, passings, q) && i < q;
    }
  }

  /** The timer passes on a day, on another day, and on the first day again. */
  ghost predicate PassesAgain(passings: seq<Passing>) {
    exists i, j, k :: 0 <= i < j < k < |passings|
                      && passings[i].day == passings[k].day && passings[j].day != passings[i].day
  }

  lemma PassesAgainIff(passings: seq<Passing>, first: int)
    requires OneMinuteADay(passings, first)
    ensures ComesBack(None, passings) <==> PassesAgain(passings)
  {
    if PassesAgain(passings) {
      var i, j, k :| 0 <= i < j < k < |passings|
                     && passings[i].day == passings[k].day && passings[j].day != passings[i].day;
      var q := StretchStart(None, passings, i);
      assert Fires(None, passings, q) && passings[q].day == passings[i].day;
    }
  }

  /** When the time of a daily timer is not edited, a day gets two jobs if and only if the clock goes back to it: the
      timer is claimed on the day, passes on another day, and passes on the first day again. For a timer that never
      fired before the run it is enough that it passes on some day, on another, and on the first again. */
  lemma FixedTimeTwoJobsIff(s: Sched, events: seq<Event>, key: string, spec: Spec)
    requires s.enqueued == [] && FixedRun(s, events, key, spec)
    ensures var phase := spec.zone.ns % MINUTE;
            var passings := Passings(s, events, key, phase);
            && (TwoJobsForOneDay(After(s, events).enqueued, key) <==> ComesBack(LastMinute(s, key, phase), passings))
            && (LastOf(s.timers, key).None? ==>
                  (TwoJobsForOneDay(After(s, events).enqueued, key) <==> PassesAgain(passings)))
  {
    assert spec.zone.Offset?;
    hide FixedRun, DailyRun, After, Passings, OneMinuteADay, ComesBack, PassesAgain, FiresTwiceADay;
    var phase := spec.zone.ns % MINUTE;
    var before, passings := LastMinute(s, key, phase), Passings(s, events, key, phase);
    FixedIsDaily(s, events, key, spec);
    TwoJobsForOneDayIff(s, events, key, phase);
    var first := FixedTimeMeansOneMinute(s, events, key, spec, phase);
    ComesBackIff(before, passings, first);
    PassesAgainIff(passings, first);
  }
}
