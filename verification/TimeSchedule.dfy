/**
  Schedules and day windows (internal/core/timeschedule/timeschedule.go).
  Instants are integers: nanoseconds since the Unix epoch. A zone is a fixed offset.
  */
module TimeSchedule {
  import opened Outcomes

  const SECOND := 1_000_000_000
  const MINUTE := 60 * SECOND
  const DAY := 1440 * MINUTE

  /** Go's zero time, 1 January of year 1; the code treats it as "never". */
  const ZERO_TIME := -62_135_596_800 * SECOND

  type Minutes = m: nat | m < 1440

  /** A clock text: blank, not of the form 15:04, or parsed to minutes of the day. */
  datatype Clock = Blank | Malformed | At(minutes: Minutes)

  /** A time zone text: resolved to a fixed offset, or not known. Blank text is the local offset. */
  datatype Zone = Offset(ns: int) | UnknownZone

  datatype Schedule = Unset | Daily | Interval | Unsupported

  datatype Spec = Spec(schedule: Schedule, at: Clock, intervalStart: Clock, intervalEnd: Clock,
                       intervalSeconds: int, zone: Zone)

  function Normalize(spec: Spec): Option<Spec> {
    if spec.zone.UnknownZone? then None
    else match spec.schedule
      case Unset | Daily =>
        if spec.at.At? then Some(Spec(Daily, spec.at, Blank, Blank, 0, spec.zone)) else None
      case Interval =>
        if spec.intervalStart.At? && spec.intervalEnd.At? && spec.intervalSeconds > 0
        then Some(Spec(Interval, Blank, spec.intervalStart, spec.intervalEnd, spec.intervalSeconds, spec.zone))
        else None
      case Unsupported => None
  }

  function LocalDay(local: int): int { local / DAY }

  function LocalMinute(local: int): Minutes { (local % DAY) / MINUTE }

  /** Two's-complement wrap to 64 bits, as Go's time.Duration multiplication does. */
  function Wrap64(x: int): int {
    (x + 0x8000_0000_0000_0000) % 0x1_0000_0000_0000_0000 - 0x8000_0000_0000_0000
  }

  function IntervalDuration(seconds: int): int { Wrap64(seconds * SECOND) }

  function IntervalWindowBounds(local: int, startMinutes: Minutes, endMinutes: Minutes): (int, int) {
    var midnight := local - local % DAY;
    var start := midnight + startMinutes * MINUTE;
    var end := midnight + endMinutes * MINUTE;
    if startMinutes == endMinutes then
      var from := if local < start then start - DAY else start;
      (from, from + DAY)
    else if startMinutes < endMinutes then (start, end)
    else if LocalMinute(local) < endMinutes then (start - DAY, end)
    else (start, end + DAY)
  }

  function CurrentIntervalSlotStart(local: int, windowStart: int, interval: int): int {
    if interval <= 0 || local < windowStart then windowStart
    else windowStart + (local - windowStart) / interval * interval
  }

  function MatchesDaily(local: int, at: Clock, last: Option<int>): bool {
    at.At? && LocalMinute(local) == at.minutes
    && (last.None? || LocalDay(last.value) != LocalDay(local) || LocalMinute(last.value) != at.minutes)
  }

  function MatchesInterval(local: int, start: Clock, end: Clock, seconds: int, last: Option<int>): bool {
    start.At? && end.At? &&
    var (windowStart, windowEnd) := IntervalWindowBounds(local, start.minutes, end.minutes);
    windowStart <= local < windowEnd &&
    var slotStart := CurrentIntervalSlotStart(local, windowStart, IntervalDuration(seconds));
    slotStart < windowEnd && (last.None? || last.value < slotStart)
  }

  function Matches(now: int, spec: Spec, last: Option<int>): bool {
    spec.zone.Offset? &&
    var local := now + spec.zone.ns;
    var localLast := if last.None? then None else Some(last.value + spec.zone.ns);
    match spec.schedule
    case Daily => MatchesDaily(local, spec.at, localLast)
    case Interval => MatchesInterval(local, spec.intervalStart, spec.intervalEnd, spec.intervalSeconds, localLast)
    case _ => false
  }

  /** The window test of the time-window node, on minutes of the day. */
  function MinutesInWindow(minute: Minutes, start: Minutes, end: Minutes): bool {
    if start == end then true
    else if start < end then start <= minute < end
    else minute >= start || minute < end
  }

  /** The two window implementations agree: same-day, overnight and equal bounds. */
  lemma WindowImplementationsAgree(local: int, start: Minutes, end: Minutes)
    ensures var (windowStart, windowEnd) := IntervalWindowBounds(local, start, end);
            windowStart <= local < windowEnd <==> MinutesInWindow(LocalMinute(local), start, end)
  {
    MinuteBounds(local);
  }

  lemma MinuteBounds(local: int)
    ensures LocalMinute(local) * MINUTE <= local % DAY < LocalMinute(local) * MINUTE + MINUTE
  {
  }

  // ----- Windows in real time -----

  /** The instant is the start of a local day. */
  predicate IsMidnight(instant: int, ns: int) {
    (instant + ns) % DAY == 0
  }

  /** The window of the day that starts at this midnight, which runs into the next day when it does not end later than
      it starts, holds the instant. */
  predicate OpenSince(midnight: int, now: int, start: Minutes, end: Minutes) {
    midnight + start * MINUTE <= now < midnight + end * MINUTE + (if end <= start then DAY else 0)
  }

  /** The window of some local day holds the instant. */
  ghost predicate OpenAt(now: int, ns: int, start: Minutes, end: Minutes) {
    exists midnight: int :: IsMidnight(midnight, ns) && OpenSince(midnight, now, start, end)
  }

  lemma MidnightBefore(now: int, ns: int, midnight: int)
    requires IsMidnight(midnight, ns) && midnight <= now < midnight + DAY
    ensures now - midnight == (now + ns) % DAY
  {
    var k := (midnight + ns) / DAY;
    assert now + ns == k * DAY + (now - midnight);
    assert (now + ns) / DAY == k;
  }

  lemma MidnightShift(midnight: int, ns: int)
    requires IsMidnight(midnight, ns)
    ensures IsMidnight(midnight - DAY, ns) && IsMidnight(midnight + DAY, ns)
  {
  }

  /** The minute test holds exactly inside the windows of real time, for same-day, overnight and equal bounds. */
  lemma MinutesInWindowIff(now: int, ns: int, start: Minutes, end: Minutes)
    ensures MinutesInWindow(LocalMinute(now + ns), start, end) <==> OpenAt(now, ns, start, end)
  {
    var today := now - (now + ns) % DAY;
    assert IsMidnight(today, ns);
    MidnightShift(today, ns);
    MinuteBounds(now + ns);
    if MinutesInWindow(LocalMinute(now + ns), start, end) {
      assert OpenSince(today, now, start, end) || OpenSince(today - DAY, now, start, end);
    }
    if OpenAt(now, ns, start, end) {
      var midnight :| IsMidnight(midnight, ns) && OpenSince(midnight, now, start, end);
      MidnightShift(midnight, ns);
      if now < midnight + DAY {
        MidnightBefore(now, ns, midnight);
      } else {
        MidnightBefore(now, ns, midnight + DAY);
      }
    }
  }

  /** The bounds from a midnight and the two offsets in nanoseconds. */
  ghost function BoundsAt(local: int, midnight: int, startNs: nat, endNs: nat): (int, int) {
    var from, to := midnight + startNs, midnight + endNs;
    if startNs < endNs then (from, to)
    else if startNs == endNs then (if local < from then (from - DAY, from) else (from, from + DAY))
    else if local < to then (from - DAY, to) else (from, to + DAY)
  }

  lemma BoundsFromMidnight(local: int, start: Minutes, end: Minutes)
    ensures IntervalWindowBounds(local, start, end)
            == BoundsAt(local, local - local % DAY, start * MINUTE, end * MINUTE)
  {
    MinuteBounds(local);
  }

  lemma StableAcrossMidnights(local: int, other: int, midnight: int, otherMidnight: int, startNs: nat, endNs: nat)
    requires startNs < DAY && endNs < DAY
    requires midnight <= local < midnight + DAY && otherMidnight <= other < otherMidnight + DAY
    requires otherMidnight == midnight - DAY || otherMidnight == midnight || otherMidnight == midnight + DAY
    requires BoundsAt(local, midnight, startNs, endNs).0 <= local < BoundsAt(local, midnight, startNs, endNs).1
    requires BoundsAt(local, midnight, startNs, endNs).0 <= other < BoundsAt(local, midnight, startNs, endNs).1
    ensures BoundsAt(other, otherMidnight, startNs, endNs) == BoundsAt(local, midnight, startNs, endNs)
  {
  }

  lemma MidnightsNearby(local: int, other: int)
    requires local - DAY < other < local + DAY
    ensures other - other % DAY - (local - local % DAY) in {-DAY, 0, DAY}
  {
    var d, e := LocalDay(local), LocalDay(other);
    assert local - local % DAY == d * 86_400_000_000_000;
    assert other - other % DAY == e * 86_400_000_000_000;
    assert -2 < e - d < 2;
  }

  /** The bounds depend only on the window that contains the instant. */
  lemma BoundsAreStable(local: int, other: int, start: Minutes, end: Minutes)
    requires var (windowStart, windowEnd) := IntervalWindowBounds(local, start, end);
             windowStart <= local < windowEnd && windowStart <= other < windowEnd
    ensures IntervalWindowBounds(other, start, end) == IntervalWindowBounds(local, start, end)
  {
    BoundsFromMidnight(local, start, end);
    BoundsFromMidnight(other, start, end);
    MidnightsNearby(local, other);
    StableAcrossMidnights(local, other, local - local % DAY, other - other % DAY, start * MINUTE, end * MINUTE);
  }

  lemma MultipleAtLeast(k: int, d: int)
    requires d > 0
    ensures k >= 1 ==> k * d >= d
    ensures k <= -1 ==> k * d <= -d
  {
    if k >= 1 {
      assert k * d == d + (k - 1) * d;
    } else if k <= -1 {
      assert k * d == -d + (k + 1) * d;
      assert (k + 1) * d <= 0;
    }
  }

  lemma QuotientBounds(x: int, d: int)
    requires d > 0
    ensures x / d * d <= x < x / d * d + d
  {
    assert x == d * (x / d) + x % d;
  }

  lemma DivisionIs(x: int, d: int, q: int)
    requires d > 0
    ensures x / d == q <==> q * d <= x < q * d + d
  {
    QuotientBounds(x, d);
    var k := x / d - q;
    assert k * d == x / d * d - q * d;
    MultipleAtLeast(k, d);
  }

  /** Slots tile the window: an instant lies in the slot computed for it, which starts a whole number of
      intervals after the window, and in no other. */
  lemma SlotsTileTheWindow(local: int, other: int, windowStart: int, interval: int)
    requires interval > 0 && windowStart <= local && windowStart <= other
    ensures var slot := CurrentIntervalSlotStart(local, windowStart, interval);
            && slot <= local < slot + interval
            && (exists k: nat :: slot == windowStart + k * interval)
            && (CurrentIntervalSlotStart(other, windowStart, interval) == slot <==> slot <= other < slot + interval)
  {
    var q := (local - windowStart) / interval;
    QuotientBounds(local - windowStart, interval);
    DivisionIs(other - windowStart, interval, q);
    var r := (other - windowStart) / interval;
    MultipleAtLeast(r - q, interval);
    assert r * interval - q * interval == (r - q) * interval;
    assert CurrentIntervalSlotStart(local, windowStart, interval) == windowStart + q * interval;
    assert q >= 0 by { DivisionIs(local - windowStart, interval, q); MultipleAtLeast(q, interval); }
  }

  // ----- When a schedule fits -----

  /** An interval timer that never fired fits exactly inside the windows of real time, whatever the interval. */
  lemma IntervalFitsIff(now: int, spec: Spec)
    requires spec.schedule == Interval && spec.intervalStart.At? && spec.intervalEnd.At? && spec.zone.Offset?
    ensures var start, end := spec.intervalStart.minutes, spec.intervalEnd.minutes;
            && (Matches(now, spec, None) <==> MinutesInWindow(LocalMinute(now + spec.zone.ns), start, end))
            && (Matches(now, spec, None) <==> OpenAt(now, spec.zone.ns, start, end))
  {
    var start, end, local := spec.intervalStart.minutes, spec.intervalEnd.minutes, now + spec.zone.ns;
    WindowImplementationsAgree(local, start, end);
    MinutesInWindowIff(now, spec.zone.ns, start, end);
    var (windowStart, _) := IntervalWindowBounds(local, start, end);
    var interval := IntervalDuration(spec.intervalSeconds);
    if interval > 0 && windowStart <= local {
      SlotsTileTheWindow(local, local, windowStart, interval);
    }
  }

  /** A daily timer that never fired fits exactly in the minute that starts at its time, counted from local midnight. */
  lemma DailyFitsIff(now: int, spec: Spec)
    requires spec.schedule == Daily && spec.at.At? && spec.zone.Offset?
    ensures Matches(now, spec, None) <==> LocalMinute(now + spec.zone.ns) == spec.at.minutes
    ensures Matches(now, spec, None) <==>
            exists midnight: int :: IsMidnight(midnight, spec.zone.ns)
                                    && spec.at.minutes * MINUTE <= now - midnight < (spec.at.minutes + 1) * MINUTE
  {
    var today := now - (now + spec.zone.ns) % DAY;
    assert IsMidnight(today, spec.zone.ns);
    MinuteBounds(now + spec.zone.ns);
    if midnight: int :| IsMidnight(midnight, spec.zone.ns)
                        && spec.at.minutes * MINUTE <= now - midnight < (spec.at.minutes + 1) * MINUTE {
      MidnightBefore(now, spec.zone.ns, midnight);
    }
  }

  /** A schedule whose clocks or zone cannot be read never fits. */
  lemma UnreadableNeverFits(now: int, spec: Spec, last: Option<int>)
    requires || spec.zone.UnknownZone? || spec.schedule == Unset || spec.schedule == Unsupported
             || (spec.schedule == Daily && !spec.at.At?)
             || (spec.schedule == Interval && !(spec.intervalStart.At? && spec.intervalEnd.At?))
    ensures !Matches(now, spec, last)
  {
  }

  /** The instant would fire a timer that never fired before. */
  predicate Active(now: int, spec: Spec) {
    Matches(now, spec, None)
  }

  /** What a claim at this instant is for: the local day of a daily timer, the slot start of an interval timer. */
  function Stamp(now: int, spec: Spec): int
    requires Active(now, spec)
  {
    var local := now + spec.zone.ns;
    if spec.schedule == Daily then LocalDay(local)
    else
      var (windowStart, windowEnd) := IntervalWindowBounds(local, spec.intervalStart.minutes, spec.intervalEnd.minutes);
      CurrentIntervalSlotStart(local, windowStart, IntervalDuration(spec.intervalSeconds)) - spec.zone.ns
  }

  /** The slot starts k whole intervals after the start of the window that opened on this midnight; an interval that is
      not positive leaves one slot a window. */
  predicate IsSlotStart(slot: int, now: int, spec: Spec, midnight: int, k: nat)
    requires spec.intervalStart.At? && spec.intervalEnd.At? && spec.zone.Offset?
  {
    var interval := IntervalDuration(spec.intervalSeconds);
    && IsMidnight(midnight, spec.zone.ns)
    && OpenSince(midnight, now, spec.intervalStart.minutes, spec.intervalEnd.minutes)
    && slot == midnight + spec.intervalStart.minutes * MINUTE + k * interval
    && (if interval > 0 then slot <= now < slot + interval else k == 0)
  }

  lemma BoundsOfOpenWindow(now: int, ns: int, start: Minutes, end: Minutes) returns (midnight: int)
    requires OpenAt(now, ns, start, end)
    ensures IsMidnight(midnight, ns) && OpenSince(midnight, now, start, end)
    ensures IntervalWindowBounds(now + ns, start, end).0 == midnight + ns + start * MINUTE
  {
    BoundsFromMidnight(now + ns, start, end);
    midnight :| IsMidnight(midnight, ns) && OpenSince(midnight, now, start, end);
    MidnightShift(midnight, ns);
    if now < midnight + DAY {
      MidnightBefore(now, ns, midnight);
    } else {
      MidnightBefore(now, ns, midnight + DAY);
    }
  }

  /** The stamp of an interval timer is the start of the slot that holds the instant. */
  lemma StampIsSlotStart(now: int, spec: Spec)
    requires Active(now, spec) && spec.schedule == Interval
    ensures exists midnight: int, k: nat :: IsSlotStart(Stamp(now, spec), now, spec, midnight, k)
  {
    var start, end, ns := spec.intervalStart.minutes, spec.intervalEnd.minutes, spec.zone.ns;
    IntervalFitsIff(now, spec);
    var midnight := BoundsOfOpenWindow(now, ns, start, end);
    var interval := IntervalDuration(spec.intervalSeconds);
    var k: nat := 0;
    if interval > 0 {
      SlotsTileTheWindow(now + ns, now + ns, midnight + ns + start * MINUTE, interval);
      k :| CurrentIntervalSlotStart(now + ns, midnight + ns + start * MINUTE, interval)
           == midnight + ns + start * MINUTE + k * interval;
    }
    assert IsSlotStart(Stamp(now, spec), now, spec, midnight, k);
  }

  lemma StampNotAfter(now: int, spec: Spec)
    requires Active(now, spec) && spec.schedule == Interval
    ensures Stamp(now, spec) <= now
  {
    var local := now + spec.zone.ns;
    var (windowStart, _) := IntervalWindowBounds(local, spec.intervalStart.minutes, spec.intervalEnd.minutes);
    var interval := IntervalDuration(spec.intervalSeconds);
    if interval > 0 {
      SlotsTileTheWindow(local, local, windowStart, interval);
    }
  }

  /** An interval timer fires exactly when it is inside its window and last fired before the current slot. */
  lemma IntervalMatchesIffBeforeSlot(now: int, spec: Spec, last: int)
    requires spec.schedule == Interval
    ensures Matches(now, spec, Some(last)) <==> Active(now, spec) && last < Stamp(now, spec)
  {
  }

  lemma OneMidnight(now: int, ns: int, a: int, b: int, start: Minutes, end: Minutes)
    requires IsMidnight(a, ns) && IsMidnight(b, ns) && OpenSince(a, now, start, end) && OpenSince(b, now, start, end)
    ensures a == b
  {
    var k := (a + ns) / DAY - (b + ns) / DAY;
    assert a - b == k * DAY;
    assert -DAY < a - b < DAY;
  }

  /** An instant is in one slot only. */
  lemma OneSlot(now: int, spec: Spec, slot: int, midnight: int, k: nat, slot': int, midnight': int, k': nat)
    requires spec.intervalStart.At? && spec.intervalEnd.At? && spec.zone.Offset?
    requires IsSlotStart(slot, now, spec, midnight, k) && IsSlotStart(slot', now, spec, midnight', k')
    ensures slot == slot'
  {
    OneMidnight(now, spec.zone.ns, midnight, midnight', spec.intervalStart.minutes, spec.intervalEnd.minutes);
    var interval := IntervalDuration(spec.intervalSeconds);
    if interval > 0 {
      MultipleAtLeast(k - k', interval);
      assert k * interval - k' * interval == (k - k') * interval;
    }
  }

  /** An interval timer is due if and only if the instant is in a slot of a window of real time, and its last firing was
      before the start of that slot. */
  lemma IntervalDueIff(now: int, spec: Spec, last: int)
    requires spec.schedule == Interval && spec.intervalStart.At? && spec.intervalEnd.At? && spec.zone.Offset?
    ensures Matches(now, spec, Some(last)) <==>
            exists slot: int, midnight: int, k: nat :: IsSlotStart(slot, now, spec, midnight, k) && last < slot
  {
    IntervalMatchesIffBeforeSlot(now, spec, last);
    IntervalFitsIff(now, spec);
    hide Matches, IsSlotStart, Stamp;
    if Active(now, spec) {
      StampIsSlotStart(now, spec);
      var midnight: int, k: nat :| IsSlotStart(Stamp(now, spec), now, spec, midnight, k);
      if slot: int, midnight': int, k': nat :| IsSlotStart(slot, now, spec, midnight', k') && last < slot {
        OneSlot(now, spec, slot, midnight', k', Stamp(now, spec), midnight, k);
      }
    } else if slot: int, midnight: int, k: nat :| IsSlotStart(slot, now, spec, midnight, k) && last < slot {
      SlotIsOpen(now, spec, slot, midnight, k);
      assert false;
    }
  }

  lemma SlotIsOpen(now: int, spec: Spec, slot: int, midnight: int, k: nat)
    requires spec.intervalStart.At? && spec.intervalEnd.At? && spec.zone.Offset?
    requires IsSlotStart(slot, now, spec, midnight, k)
    ensures OpenAt(now, spec.zone.ns, spec.intervalStart.minutes, spec.intervalEnd.minutes)
  {
  }

  /** While the clock has not gone back since the last firing, a timer fires exactly in a new slot or day, or when
      its last firing was at an instant at which its present schedule would not fire at all. */
  lemma MatchesIffNewStamp(now: int, spec: Spec, last: int)
    requires last <= now
    ensures Matches(now, spec, Some(last)) <==>
            Active(now, spec) && !(Active(last, spec) && Stamp(last, spec) == Stamp(now, spec))
  {
    if Active(now, spec) && spec.schedule == Interval {
      IntervalMatchesIffBeforeSlot(now, spec, last);
      if last >= Stamp(now, spec) {
        SameSlotSameStamp(now, spec, last);
      } else if Active(last, spec) {
        StampNotAfter(last, spec);
      }
    }
  }

  /** From a slot start to an instant of that slot, all instants are in the window and in that slot. */
  lemma SameSlotSameStamp(now: int, spec: Spec, last: int)
    requires Active(now, spec) && spec.schedule == Interval
    requires Stamp(now, spec) <= last <= now
    ensures Active(last, spec) && Stamp(last, spec) == Stamp(now, spec)
  {
    var local, other := now + spec.zone.ns, last + spec.zone.ns;
    var (windowStart, _) := IntervalWindowBounds(local, spec.intervalStart.minutes, spec.intervalEnd.minutes);
    var interval := IntervalDuration(spec.intervalSeconds);
    if interval > 0 {
      SlotsTileTheWindow(local, local, windowStart, interval);
      BoundsAreStable(local, other, spec.intervalStart.minutes, spec.intervalEnd.minutes);
      SlotsTileTheWindow(local, other, windowStart, interval);
    } else {
      BoundsAreStable(local, other, spec.intervalStart.minutes, spec.intervalEnd.minutes);
    }
  }

  /** The stamps of a timer follow the clock. */
  lemma StampMonotone(earlier: int, later: int, spec: Spec)
    requires Active(earlier, spec) && Active(later, spec) && earlier <= later
    ensures Stamp(earlier, spec) <= Stamp(later, spec)
  {
    if spec.schedule == Interval {
      StampNotAfter(earlier, spec);
      if Stamp(later, spec) <= earlier {
        SameSlotSameStamp(later, spec, earlier);
      }
    }
  }

  /** The minutes of all time, counted in zones whose offset leaves the given remainder of a minute. */
  function MinuteNumber(now: int, phase: int): int {
    (now + phase) / MINUTE
  }

  lemma MinuteOfDay(now: int, ns: int)
    ensures (now + ns) / MINUTE == LocalDay(now + ns) * 1440 + LocalMinute(now + ns)
    ensures (now + ns) / MINUTE == MinuteNumber(now, ns % MINUTE) + ns / MINUTE
  {
  }

  /** A daily timer compares day and minute of its last firing with those of now. So at the minute it is set to, it
      fires exactly if its last firing was in another minute of any day, this day included. */
  lemma DailyMatchesIffOtherMinute(now: int, spec: Spec, last: int)
    requires spec.schedule == Daily && Active(now, spec)
    ensures Matches(now, spec, Some(last)) <==>
            LocalDay(last + spec.zone.ns) != LocalDay(now + spec.zone.ns)
            || LocalMinute(last + spec.zone.ns) != spec.at.minutes
    ensures var phase := spec.zone.ns % MINUTE;
            Matches(now, spec, Some(last)) <==> MinuteNumber(last, phase) != MinuteNumber(now, phase)
  {
    MinuteOfDay(now, spec.zone.ns);
    MinuteOfDay(last, spec.zone.ns);
  }

  /** So when the clock goes back to an earlier day at the set minute, a daily timer fires for that day again. */
  lemma DailyRepeatsWhenTheClockGoesBack()
    ensures exists spec: Spec, first: int, second: int ::
              && first < second && spec.schedule == Daily
              && Matches(first, spec, None) && Matches(second, spec, Some(first)) && Matches(first, spec, Some(second))
  {
    var spec := Spec(Daily, At(600), Blank, Blank, 0, Offset(0));
    var first, second := 600 * MINUTE, 600 * MINUTE + DAY;
    assert Matches(first, spec, None) && Matches(second, spec, Some(first)) && Matches(first, spec, Some(second));
  }

  /** The slot start with the configured number of seconds taken at face value. */
  function ConfiguredSlotStart(local: int, windowStart: int, seconds: int): int
    requires seconds > 0 && windowStart <= local
  {
    windowStart + (local - windowStart) / (seconds * SECOND) * (seconds * SECOND)
  }

  /** The 64-bit duration is harmless exactly when it did not wrap, or wrapped to something that leaves one
      slot per window. */
  predicate SlotLengthHarmless(seconds: int, width: int) {
    var duration := IntervalDuration(seconds);
    duration == seconds * SECOND || duration <= 0 || duration >= width
  }

  /** Slots follow the configured interval over a whole window if and only if the duration is harmless. */
  lemma SlotsFollowTheConfiguredInterval(windowStart: int, width: int, seconds: int)
    requires seconds > 0 && 0 < width <= DAY
    ensures SlotLengthHarmless(seconds, width) <==>
            forall local {:trigger CurrentIntervalSlotStart(local, windowStart, IntervalDuration(seconds))} ::
              windowStart <= local < windowStart + width ==>
                CurrentIntervalSlotStart(local, windowStart, IntervalDuration(seconds))
                == ConfiguredSlotStart(local, windowStart, seconds)
  {
    var w := IntervalDuration(seconds);
    forall local {:trigger CurrentIntervalSlotStart(local, windowStart, w)}
      | SlotLengthHarmless(seconds, width) && windowStart <= local < windowStart + width
      ensures CurrentIntervalSlotStart(local, windowStart, w) == ConfiguredSlotStart(local, windowStart, seconds)
    {
      if w != seconds * SECOND {
        WrappedIsLong(seconds);
        DivisionIs(local - windowStart, seconds * SECOND, 0);
        if w > 0 {
          DivisionIs(local - windowStart, w, 0);
        }
      }
    }
    if !SlotLengthHarmless(seconds, width) {
      var local := windowStart + w;
      WrappedIsLong(seconds);
      DivisionIs(local - windowStart, seconds * SECOND, 0);
      DivisionIs(local - windowStart, w, 1);
      assert CurrentIntervalSlotStart(local, windowStart, w) != ConfiguredSlotStart(local, windowStart, seconds);
    }
  }

  lemma WrappedIsLong(seconds: int)
    requires seconds > 0 && IntervalDuration(seconds) != seconds * SECOND
    ensures seconds * SECOND > DAY
  {
  }

  /** An interval of about 584 years wraps to 0.29 seconds, so a 24-hour window gets hundreds of thousands of slots. */
  lemma HugeIntervalWraps()
    ensures IntervalDuration(18_446_744_074) == 290_448_384
    ensures !SlotLengthHarmless(18_446_744_074, DAY)
  {
  }
}
