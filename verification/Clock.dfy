/** Business-day and calendar deadlines (domain/cases/clock.py): the counting loops, each
    against a specification that does not count step by step. */
module Clock {
  import opened Kernel
  import opened CaseModels

  datatype ClockError = NegativeDuration

  /** A weekday that is not a configured holiday. */
  predicate IsBusinessDay(day: int, holidays: set<int>) {
    (day + 6) % 7 < 5 && day !in holidays
  }

  /** The number of business days in the half-open interval (lo, hi]. */
  ghost function CountIn(lo: int, hi: int, holidays: set<int>): nat
    requires lo <= hi
    decreases hi - lo
  {
    if lo == hi then 0
    else CountIn(lo, hi - 1, holidays) + if IsBusinessDay(hi, holidays) then 1 else 0
  }

  lemma {:induction false} CountSplit(a: int, b: int, c: int, holidays: set<int>)
    requires a <= b <= c
    ensures CountIn(a, c, holidays) == CountIn(a, b, holidays) + CountIn(b, c, holidays)
    decreases c - b
  {
    if b < c { CountSplit(a, b, c - 1, holidays); }
  }

  lemma {:induction false} CountAtMostLength(lo: int, hi: int, holidays: set<int>)
    requires lo <= hi
    ensures CountIn(lo, hi, holidays) <= hi - lo
    decreases hi - lo
  {
    if lo < hi { CountAtMostLength(lo, hi - 1, holidays); }
  }

  /** The holidays that fall inside (lo, hi]. */
  ghost function HolidaysIn(lo: int, hi: int, holidays: set<int>): set<int> {
    set d | d in holidays && lo < d <= hi
  }

  lemma SubsetSize(a: set<int>, b: set<int>)
    requires a <= b
    ensures |a| <= |b|
  {
    assert b == a + (b - a);
  }

  /** A holiday takes at most one business day out of an interval. */
  lemma {:induction false} HolidayLoss(lo: int, hi: int, holidays: set<int>)
    requires lo <= hi
    ensures CountIn(lo, hi, {}) <= CountIn(lo, hi, holidays) + |HolidaysIn(lo, hi, holidays)|
    decreases hi - lo
  {
    if lo < hi {
      HolidayLoss(lo, hi - 1, holidays);
      var inside, before := HolidaysIn(lo, hi, holidays), HolidaysIn(lo, hi - 1, holidays);
      if hi in holidays {
        assert inside == before + {hi};
      } else {
        assert inside == before;
      }
    }
  }

  function Weight(day: int): nat { if (day + 6) % 7 < 5 then 1 else 0 }

  /** Any seven consecutive days hold five weekdays. */
  lemma WeekHasFive(lo: int)
    ensures CountIn(lo, lo + 7, {}) == 5
  {
    assert CountIn(lo, lo + 7, {}) == Weight(lo + 1) + Weight(lo + 2) + Weight(lo + 3) + Weight(lo + 4)
      + Weight(lo + 5) + Weight(lo + 6) + Weight(lo + 7) by {
      CountStep(lo, lo); CountStep(lo, lo + 1); CountStep(lo, lo + 2); CountStep(lo, lo + 3);
      CountStep(lo, lo + 4); CountStep(lo, lo + 5); CountStep(lo, lo + 6);
    }
    WeekWeights(lo, lo % 7);
  }

  lemma CountStep(lo: int, hi: int)
    requires lo <= hi
    ensures CountIn(lo, hi + 1, {}) == CountIn(lo, hi, {}) + Weight(hi + 1)
  {}

  lemma WeightPeriodic(day: int, weeks: int)
    ensures Weight(day + 7 * weeks) == Weight(day)
  {
    assert (day + 6 + 7 * weeks) % 7 == (day + 6) % 7;
  }

  lemma WeekWeights(lo: int, phase: int)
    requires phase == lo % 7
    ensures Weight(lo + 1) + Weight(lo + 2) + Weight(lo + 3) + Weight(lo + 4) + Weight(lo + 5)
      + Weight(lo + 6) + Weight(lo + 7) == 5
  {
    var weeks := lo / 7;
    WeightPeriodic(phase + 1, weeks); WeightPeriodic(phase + 2, weeks); WeightPeriodic(phase + 3, weeks);
    WeightPeriodic(phase + 4, weeks); WeightPeriodic(phase + 5, weeks); WeightPeriodic(phase + 6, weeks);
    WeightPeriodic(phase + 7, weeks);
    assert lo == phase + 7 * weeks;
    PhaseWeights(phase);
  }

  lemma PhaseWeights(phase: int)
    requires 0 <= phase < 7
    ensures Weight(phase + 1) + Weight(phase + 2) + Weight(phase + 3) + Weight(phase + 4) + Weight(phase + 5)
      + Weight(phase + 6) + Weight(phase + 7) == 5
  {
    if phase == 0 {} else if phase == 1 {} else if phase == 2 {} else if phase == 3 {}
    else if phase == 4 {} else if phase == 5 {} else {}
  }

  lemma {:induction false} WeeksHaveFiveEach(lo: int, weeks: nat)
    ensures CountIn(lo, lo + 7 * weeks, {}) == 5 * weeks
    decreases weeks
  {
    if weeks > 0 {
      WeeksHaveFiveEach(lo, weeks - 1);
      CountSplit(lo, lo + 7 * (weeks - 1), lo + 7 * weeks, {});
      WeekHasFive(lo + 7 * (weeks - 1));
    }
  }

  /** A day by which `n` business days have certainly passed: whole weeks, rounded up, enough
      for `n` days and every holiday there is. */
  ghost function Horizon(start: int, n: nat, holidays: set<int>): int {
    start + 7 * ((n + |holidays| + 4) / 5)
  }

  lemma HorizonReachesCount(start: int, n: nat, holidays: set<int>)
    ensures start <= Horizon(start, n, holidays)
    ensures n <= CountIn(start, Horizon(start, n, holidays), holidays)
  {
    var weeks := (n + |holidays| + 4) / 5;
    var end := start + 7 * weeks;
    WeeksHaveFiveEach(start, weeks);
    HolidayLoss(start, end, holidays);
    SubsetSize(HolidaysIn(start, end, holidays), holidays);
  }

  /** `due` is where counting `n` business days from the day after `start` stops. */
  ghost predicate IsDueDay(start: int, n: nat, holidays: set<int>, due: int) {
    start <= due && CountIn(start, due, holidays) == n
      && (if n == 0 then due == start else IsBusinessDay(due, holidays))
  }

  lemma {:induction false} DueDayExists(start: int, n: nat, holidays: set<int>, end: int)
    requires start <= end && n <= CountIn(start, end, holidays)
    ensures exists due :: start <= due <= end && IsDueDay(start, n, holidays, due)
    decreases end - start
  {
    if n == 0 {
      assert IsDueDay(start, 0, holidays, start);
    } else if n == CountIn(start, end, holidays) && IsBusinessDay(end, holidays) {
      assert IsDueDay(start, n, holidays, end);
    } else {
      DueDayExists(start, n, holidays, end - 1);
    }
  }

  lemma DueDayUnique(start: int, n: nat, holidays: set<int>, a: int, b: int)
    requires IsDueDay(start, n, holidays, a) && IsDueDay(start, n, holidays, b)
    ensures a == b
  {
    if n > 0 {
      if a < b {
        CountSplit(start, a, b - 1, holidays);
      } else if b < a {
        CountSplit(start, b, a - 1, holidays);
      }
    }
  }

  /** The day on which a deadline of `n` business days from `start` falls. */
  ghost function DueDay(start: int, n: nat, holidays: set<int>): (due: int)
    ensures IsDueDay(start, n, holidays, due)
  {
    HorizonReachesCount(start, n, holidays);
    DueDayExists(start, n, holidays, Horizon(start, n, holidays));
    var due :| IsDueDay(start, n, holidays, due);
    due
  }

  /** Advance `start` by `n` business days, keeping the time of day; negative `n` is refused. */
  method AddBusinessDays(start: Instant, n: int, holidays: set<int>) returns (r: Result<Instant, ClockError>)
    ensures n < 0 <==> r.Err?
    ensures 0 <= n ==> r == Ok(Instant(DueDay(start.day, n, holidays), start.time))
  {
    if n < 0 {
      return Err(NegativeDuration);
    }
    var day, counted := start.day, 0;
    ghost var horizon := Horizon(start.day, n, holidays);
    HorizonReachesCount(start.day, n, holidays);
    while counted < n
      invariant start.day <= day <= horizon
      invariant 0 <= counted == CountIn(start.day, day, holidays) <= n
      invariant day == start.day || counted < n || IsBusinessDay(day, holidays)
      decreases horizon - day
    {
      if day == horizon {
        assert false;
      }
      day := day + 1;
      if IsBusinessDay(day, holidays) {
        counted := counted + 1;
      }
    }
    assert IsDueDay(start.day, n, holidays, day);
    DueDayUnique(start.day, n, holidays, day, DueDay(start.day, n, holidays));
    return Ok(Instant(day, start.time));
  }

  /** The signed number of business days from `a` to `b`. */
  ghost function Between(a: Instant, b: Instant, holidays: set<int>): int {
    if a.day <= b.day then CountIn(a.day, b.day, holidays) else 0 - CountIn(b.day, a.day, holidays)
  }

  method BusinessDaysBetween(start: Instant, end: Instant, holidays: set<int>) returns (r: int)
    ensures r == Between(start, end, holidays)
  {
    if end == start {
      return 0;
    }
    var sign := if Before(start, end) then 1 else -1;
    var lo, hi := if Before(start, end) then start else end, if Before(start, end) then end else start;
    var day, count := lo.day, 0;
    while day < hi.day
      invariant lo.day <= day <= hi.day
      invariant count == CountIn(lo.day, day, holidays)
    {
      day := day + 1;
      if IsBusinessDay(day, holidays) {
        count := count + 1;
      }
    }
    return sign * count;
  }

  function AddCalendarDays(start: Instant, n: int): Instant { start.(day := start.day + n) }

  function CalendarDaysBetween(start: Instant, end: Instant): int { end.day - start.day }

  function Ceiling(x: real): int { -((-x).Floor) }

  /** How many remaining days count as approaching; it depends on the specification alone. */
  function WarnThreshold(spec: ClockSpec): int {
    Ceiling((1.0 - spec.warnRatio) * (spec.durationDays as real))
  }

  /** When a clock anchored at `anchor` falls due. */
  ghost function DueAt(spec: ClockSpec, anchor: Instant, holidays: set<int>): Instant {
    if spec.kind == Business
    then Instant(DueDay(anchor.day, spec.durationDays, holidays), anchor.time)
    else AddCalendarDays(anchor, spec.durationDays)
  }

  /** The days of the clock's own kind from `a` to `b`. */
  ghost function DaysOfKind(kind: ClockKind, a: Instant, b: Instant, holidays: set<int>): int {
    if kind == Business then Between(a, b, holidays) else CalendarDaysBetween(a, b)
  }

  /** A clock's status at `asOf`; without an anchor it has not started. */
  ghost function DeadlineOf(
    spec: ClockSpec, anchor: Option<Instant>, asOf: Instant, holidays: set<int>): DeadlineStatus
  {
    match anchor
    case None => DeadlineStatus(spec.name, spec.kind, None, spec.durationDays, false, false)
    case Some(a) =>
      var due := DueAt(spec, a, holidays);
      var remaining := DaysOfKind(spec.kind, asOf, due, holidays);
      var breached := Before(due, asOf);
      DeadlineStatus(spec.name, spec.kind, Some(due), remaining, breached,
                     !breached && remaining <= WarnThreshold(spec))
  }

  method DeadlineFor(spec: ClockSpec, anchor: Option<Instant>, asOf: Instant, holidays: set<int>)
    returns (status: DeadlineStatus)
    ensures status == DeadlineOf(spec, anchor, asOf, holidays)
  {
    if anchor.None? {
      return DeadlineStatus(spec.name, spec.kind, None, spec.durationDays, false, false);
    }
    var dueAt, remaining;
    if spec.kind == Business {
      var added := AddBusinessDays(anchor.value, spec.durationDays, holidays);
      dueAt := added.value;
      remaining := BusinessDaysBetween(asOf, dueAt, holidays);
    } else {
      dueAt := AddCalendarDays(anchor.value, spec.durationDays);
      remaining := CalendarDaysBetween(asOf, dueAt);
    }
    var breached := Before(dueAt, asOf);
    var approaching := !breached && remaining <= WarnThreshold(spec);
    return DeadlineStatus(spec.name, spec.kind, Some(dueAt), remaining, breached, approaching);
  }
}
