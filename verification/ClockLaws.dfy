/** The laws of the deadline arithmetic: how the two counting loops invert each other, how
    deadlines move with holidays and durations, and what the remaining-days figure means. */
module ClockLaws {
  import opened Kernel
  import opened CaseModels
  import opened Clock

  lemma CountMonotone(lo: int, mid: int, hi: int, holidays: set<int>)
    requires lo <= mid <= hi
    ensures CountIn(lo, mid, holidays) <= CountIn(lo, hi, holidays)
  {
    CountSplit(lo, mid, hi, holidays);
  }

  /** The two loops are adjoint: a deadline of `n` business days has arrived by a date exactly
      when at least `n` business days have been counted up to that date. */
  lemma Adjunction(start: Instant, end: Instant, n: nat, holidays: set<int>)
    requires start.day <= end.day
    ensures DueDay(start.day, n, holidays) <= end.day <==> n <= Between(start, end, holidays)
  {
    var due := DueDay(start.day, n, holidays);
    if due <= end.day {
      CountMonotone(start.day, due, end.day, holidays);
    } else {
      CountMonotone(start.day, end.day, due - 1, holidays);
    }
  }

  lemma BetweenAntisymmetric(a: Instant, b: Instant, holidays: set<int>)
    ensures Between(a, b, holidays) == -Between(b, a, holidays)
  {
    if a.day == b.day { assert CountIn(a.day, b.day, holidays) == 0; }
  }

  /** The signed count adds up over any three instants, in any order. */
  lemma BetweenCocycle(a: Instant, b: Instant, c: Instant, holidays: set<int>)
    ensures Between(a, b, holidays) + Between(b, c, holidays) == Between(a, c, holidays)
  {
    var x, y, z := a.day, b.day, c.day;
    if x <= y <= z { CountSplit(x, y, z, holidays); }
    if x <= z <= y { CountSplit(x, z, y, holidays); }
    if y <= x <= z { CountSplit(y, x, z, holidays); }
    if y <= z <= x { CountSplit(y, z, x, holidays); }
    if z <= x <= y { CountSplit(z, x, y, holidays); }
    if z <= y <= x { CountSplit(z, y, x, holidays); }
  }

  /** A started clock, whichever way it counts, shows its duration minus the days that have
      elapsed since its anchor: before, inside and after the window. */
  lemma RemainingIsDurationMinusElapsed(spec: ClockSpec, anchor: Instant, asOf: Instant, holidays: set<int>)
    ensures DeadlineOf(spec, Some(anchor), asOf, holidays).remainingDays
      == spec.durationDays - DaysOfKind(spec.kind, anchor, asOf, holidays)
  {
    if spec.kind == Business {
      var due := DueAt(spec, anchor, holidays);
      BetweenCocycle(asOf, anchor, due, holidays);
      BetweenAntisymmetric(asOf, anchor, holidays);
    }
  }

  /** The loop of `AddBusinessDays` moves one day per round, so this bounds its rounds. */
  lemma DueDayWithinBound(start: int, n: nat, holidays: set<int>)
    ensures DueDay(start, n, holidays) - start <= 7 * ((n + |holidays| + 4) / 5)
  {
    HorizonReachesCount(start, n, holidays);
    Adjunction(Instant(start, 0), Instant(Horizon(start, n, holidays), 0), n, holidays);
  }

  /** At most two days of a week are not weekdays. */
  lemma ShortWindow(lo: int, length: nat)
    requires length <= 7
    ensures length - 2 <= CountIn(lo, lo + length, {})
  {
    WeekHasFive(lo);
    CountSplit(lo, lo + length, lo + 7, {});
    CountAtMostLength(lo + length, lo + 7, {});
  }

  /** Without holidays the calendar distance is known to within two days from any weekday. */
  lemma DistanceWithoutHolidays(start: int, n: nat)
    requires 1 <= n
    ensures var base := n + 2 * ((n - 1) / 5);
      base <= DueDay(start, n, {}) - start <= base + 2
  {
    var weeks, extra := (n - 1) / 5, (n - 1) % 5 + 1;
    var whole := start + 7 * weeks;
    WeeksHaveFiveEach(start, weeks);
    CountSplit(start, whole, whole + extra - 1, {});
    CountAtMostLength(whole, whole + extra - 1, {});
    CountSplit(start, whole, whole + extra + 2, {});
    ShortWindow(whole, extra + 2);
    Adjunction(Instant(start, 0), Instant(whole + extra - 1, 0), n, {});
    Adjunction(Instant(start, 0), Instant(whole + extra + 2, 0), n, {});
  }

  lemma {:induction false} MoreHolidaysCountLess(lo: int, hi: int, fewer: set<int>, more: set<int>)
    requires lo <= hi && fewer <= more
    ensures CountIn(lo, hi, more) <= CountIn(lo, hi, fewer)
    decreases hi - lo
  {
    if lo < hi { MoreHolidaysCountLess(lo, hi - 1, fewer, more); }
  }

  /** Adding holidays never brings a due date forward, so a breach under the larger set is one
      under the smaller; and a business deadline is never before the calendar deadline of the
      same length. */
  lemma HolidaysOnlyDelay(spec: ClockSpec, anchor: Instant, asOf: Instant, fewer: set<int>, more: set<int>)
    requires fewer <= more
    ensures AtMost(DueAt(spec, anchor, fewer), DueAt(spec, anchor, more))
    ensures DeadlineOf(spec, Some(anchor), asOf, more).breached ==> DeadlineOf(spec, Some(anchor), asOf, fewer).breached
    ensures AtMost(AddCalendarDays(anchor, spec.durationDays), DueAt(spec.(kind := Business), anchor, more))
  {
    var n, late := spec.durationDays, DueDay(anchor.day, spec.durationDays, more);
    MoreHolidaysCountLess(anchor.day, late, fewer, more);
    Adjunction(anchor, Instant(late, 0), n, fewer);
    CountAtMostLength(anchor.day, late, more);
  }

  /** Two deadlines in a row are one deadline of the summed length, at the same time of day. */
  lemma DeadlinesCompose(spec: ClockSpec, anchor: Instant, m: nat, n: nat, holidays: set<int>)
    ensures var first := DueAt(spec.(durationDays := m), anchor, holidays);
      DueAt(spec.(durationDays := n), first, holidays) == DueAt(spec.(durationDays := m + n), anchor, holidays)
  {
    if spec.kind == Business {
      var first := DueDay(anchor.day, m, holidays);
      var second := DueDay(first, n, holidays);
      CountSplit(anchor.day, first, second, holidays);
      DueDayUnique(anchor.day, m + n, holidays, second, DueDay(anchor.day, m + n, holidays));
    }
  }

  /** The sign of the remaining days never contradicts the breach flag. The documentation also
      calls the figure negative whenever the clock is overdue; that holds exactly when a day of
      the clock's own kind has passed since the due date. */
  lemma RemainingSign(spec: ClockSpec, anchor: Instant, asOf: Instant, holidays: set<int>)
    ensures var status := DeadlineOf(spec, Some(anchor), asOf, holidays);
      var due := DueAt(spec, anchor, holidays);
      && (status.remainingDays < 0 ==> status.breached)
      && (status.breached ==> status.remainingDays <= 0)
      && (status.breached ==>
            (status.remainingDays < 0 <==>
             exists day :: due.day < day <= asOf.day && (spec.kind == Business ==> IsBusinessDay(day, holidays))))
  {
    var due := DueAt(spec, anchor, holidays);
    if due.day <= asOf.day {
      CountPositive(due.day, asOf.day, holidays);
      if spec.kind == Calendar && due.day < asOf.day {
        assert due.day < asOf.day <= asOf.day && (spec.kind == Business ==> IsBusinessDay(asOf.day, holidays));
      }
    }
  }

  lemma {:induction false} CountPositive(lo: int, hi: int, holidays: set<int>)
    requires lo <= hi
    ensures CountIn(lo, hi, holidays) > 0 <==> exists day :: lo < day <= hi && IsBusinessDay(day, holidays)
    decreases hi - lo
  {
    if lo < hi {
      CountPositive(lo, hi - 1, holidays);
      if IsBusinessDay(hi, holidays) {
        assert lo < hi <= hi && IsBusinessDay(hi, holidays);
      }
    }
  }

  /** An overdue clock that shows zero days: one business day from a Thursday, so due on the Friday,
      looked at on the Saturday. */
  lemma OverdueShowsZero()
    ensures var spec := ClockSpec("ack", Business, 1, "received", 1.0);
      var status := DeadlineOf(spec, Some(Instant(4, 9)), Instant(6, 9), {});
      status.dueAt == Some(Instant(5, 9)) && status.breached && status.remainingDays == 0
  {
    assert CountIn(4, 5, {}) == CountIn(4, 4, {}) + 1;
    DueDayUnique(4, 1, {}, DueDay(4, 1, {}), 5);
    assert CountIn(5, 6, {}) == CountIn(5, 5, {});
  }

  lemma CeilingRounds(x: real, n: int)
    ensures n <= Ceiling(x) <==> n as real < x + 1.0
  {
    var below := (-x).Floor;
    assert below as real <= -x < below as real + 1.0;
  }

  lemma Distribute(ratio: real, duration: real)
    ensures (1.0 - ratio) * duration == duration - ratio * duration
  {}

  lemma WarnsIff(spec: ClockSpec, elapsed: int)
    ensures spec.durationDays - elapsed <= WarnThreshold(spec)
      <==> spec.warnRatio * (spec.durationDays as real) < elapsed as real + 1.0
  {
    var duration := spec.durationDays as real;
    Distribute(spec.warnRatio, duration);
    CeilingRounds(duration - spec.warnRatio * duration, spec.durationDays - elapsed);
  }

  /** The warning: a running clock is approaching exactly from the day whose end would take the
      elapsed days past `warnRatio` of the duration. */
  lemma ApproachingIff(spec: ClockSpec, anchor: Instant, asOf: Instant, holidays: set<int>)
    ensures var elapsed := DaysOfKind(spec.kind, anchor, asOf, holidays);
      DeadlineOf(spec, Some(anchor), asOf, holidays).approaching <==>
      AtMost(asOf, DueAt(spec, anchor, holidays))
      && spec.warnRatio * (spec.durationDays as real) < elapsed as real + 1.0
  {
    RemainingIsDurationMinusElapsed(spec, anchor, asOf, holidays);
    WarnsIff(spec, DaysOfKind(spec.kind, anchor, asOf, holidays));
  }

  /** Looking later never leaves more days, and never un-breaches or un-approaches a clock. */
  lemma StatusMonotone(spec: ClockSpec, anchor: Option<Instant>, earlier: Instant, later: Instant, holidays: set<int>)
    requires AtMost(earlier, later)
    ensures var was, now := DeadlineOf(spec, anchor, earlier, holidays), DeadlineOf(spec, anchor, later, holidays);
      && now.dueAt == was.dueAt
      && now.remainingDays <= was.remainingDays
      && (was.breached ==> now.breached)
      && (was.approaching ==> now.approaching || now.breached)
  {
    if anchor.Some? {
      BetweenCocycle(earlier, later, DueAt(spec, anchor.value, holidays), holidays);
    }
  }

  // ---- the arithmetic in plain numbers ---------------------------------------------------

  /** A Monday to Friday outside the holidays; day 1 is a Monday. */
  ghost predicate IsWorkDay(day: int, holidays: set<int>) { (day - 1) % 7 < 5 && day !in holidays }

  /** Those of (lo, hi]. */
  ghost function WorkDays(lo: int, hi: int, holidays: set<int>): set<int> {
    set d | lo < d <= hi && IsWorkDay(d, holidays)
  }

  lemma BusinessDayIsWorkDay(day: int, holidays: set<int>)
    ensures IsBusinessDay(day, holidays) <==> IsWorkDay(day, holidays)
  {
    assert (day + 6) % 7 == (day - 1) % 7;
  }

  lemma WorkDaysSnoc(lo: int, hi: int, holidays: set<int>)
    requires lo < hi
    ensures WorkDays(lo, hi, holidays)
      == WorkDays(lo, hi - 1, holidays) + if IsWorkDay(hi, holidays) then {hi} else {}
  {}

  lemma {:induction false} CountIsWorkDays(lo: int, hi: int, holidays: set<int>)
    requires lo <= hi
    ensures CountIn(lo, hi, holidays) == |WorkDays(lo, hi, holidays)|
    decreases hi - lo
  {
    if lo < hi {
      CountIsWorkDays(lo, hi - 1, holidays);
      BusinessDayIsWorkDay(hi, holidays);
      WorkDaysSnoc(lo, hi, holidays);
    } else {
      assert WorkDays(lo, hi, holidays) == {};
    }
  }

  /** The signed count is the number of such days after the earlier date, up to and including the
      later one. */
  lemma BetweenIsWorkDays(a: Instant, b: Instant, holidays: set<int>)
    ensures a.day <= b.day ==> Between(a, b, holidays) == |WorkDays(a.day, b.day, holidays)|
    ensures b.day <= a.day ==> Between(a, b, holidays) == -|WorkDays(b.day, a.day, holidays)|
  {
    if a.day <= b.day { CountIsWorkDays(a.day, b.day, holidays); } else { CountIsWorkDays(b.day, a.day, holidays); }
    if a.day == b.day { assert WorkDays(a.day, b.day, holidays) == {}; }
  }

  /** The due day of n >= 1 business days is the only such day with exactly n of them up to it. */
  lemma DueDayIsWorkDay(start: int, n: nat, holidays: set<int>, due: int)
    requires 1 <= n
    ensures due == DueDay(start, n, holidays)
      <==> start < due && IsWorkDay(due, holidays) && |WorkDays(start, due, holidays)| == n
  {
    var d := DueDay(start, n, holidays);
    CountIsWorkDays(start, d, holidays);
    BusinessDayIsWorkDay(due, holidays);
    if start < due && IsWorkDay(due, holidays) && |WorkDays(start, due, holidays)| == n {
      CountIsWorkDays(start, due, holidays);
      DueDayUnique(start, n, holidays, d, due);
    }
  }

  /** Declaring the due day a holiday moves it. */
  lemma HolidayOnDueDayDelays(start: int, n: nat, holidays: set<int>)
    requires 1 <= n
    ensures var due := DueDay(start, n, holidays);
      due !in holidays && due < DueDay(start, n, holidays + {due})
  {
    var due := DueDay(start, n, holidays);
    DueDayIsWorkDay(start, n, holidays, due);
    var later := DueDay(start, n, holidays + {due});
    DueDayIsWorkDay(start, n, holidays + {due}, later);
    MoreHolidaysCountLess(start, later, holidays, holidays + {due});
    Adjunction(Instant(start, 0), Instant(later, 0), n, holidays);
  }

  lemma {:induction false} FirstWeekdays(sunday: int, days: nat)
    requires sunday % 7 == 0 && days <= 5
    ensures CountIn(sunday, sunday + days, {}) == days
  {
    if days > 0 { FirstWeekdays(sunday, days - 1); }
  }

  lemma CountFromSunday(sunday: int, weeks: nat, days: nat)
    requires sunday % 7 == 0 && days <= 5
    ensures CountIn(sunday, sunday + 7 * weeks + days, {}) == 5 * weeks + days
  {
    WeeksHaveFiveEach(sunday, weeks);
    FirstWeekdays(sunday + 7 * weeks, days);
    CountSplit(sunday, sunday + 7 * weeks, sunday + 7 * weeks + days, {});
  }

  lemma CountBetweenWeekdays(sunday: int, w: nat, weeks: nat, days: nat)
    requires sunday % 7 == 0 && w < 5 && days < 5 && w <= 5 * weeks + days
    ensures sunday + w + 1 <= sunday + 7 * weeks + days + 1
    ensures CountIn(sunday + w + 1, sunday + 7 * weeks + days + 1, {}) == 5 * weeks + days - w
  {
    CountFromSunday(sunday, weeks, days + 1);
    CountFromSunday(sunday, 0, w + 1);
    CountSplit(sunday, sunday + w + 1, sunday + 7 * weeks + days + 1, {});
  }

  lemma Weekday(sunday: int, weeks: int, days: nat)
    requires sunday % 7 == 0 && days < 7
    ensures (sunday + 7 * weeks + days) % 7 == days
  {
    var q := sunday / 7;
    assert sunday + 7 * weeks + days == 7 * (q + weeks) + days;
  }

  lemma CountToDeadline(start: int, n: nat)
    requires (start - 1) % 7 < 5
    ensures var w := (start - 1) % 7;
      var due := start + n + 2 * ((w + n) / 5);
      && start <= due && CountIn(start, due, {}) == n
      && (due - 1) % 7 == (w + n) % 5
  {
    var w, sunday := (start - 1) % 7, 7 * ((start - 1) / 7);
    var weeks, days := (w + n) / 5, (w + n) % 5;
    assert sunday % 7 == 0 && start == sunday + w + 1;
    assert start + n + 2 * weeks == sunday + 7 * weeks + days + 1;
    CountBetweenWeekdays(sunday, w, weeks, days);
    Weekday(sunday, weeks, days);
  }

  /** Without holidays a deadline from a weekday skips two days for each weekend it runs into. */
  lemma DueDayFromWeekday(start: int, n: nat)
    requires (start - 1) % 7 < 5
    ensures DueDay(start, n, {}) == start + n + 2 * (((start - 1) % 7 + n) / 5)
  {
    CountToDeadline(start, n);
    DueDayUnique(start, n, {}, DueDay(start, n, {}), start + n + 2 * (((start - 1) % 7 + n) / 5));
  }

  lemma WeekendIsEmpty(friday: int, gap: nat)
    requires (friday - 1) % 7 == 4 && 1 <= gap <= 2
    ensures CountIn(friday, friday + gap, {}) == 0
  {
    assert (friday + 1 + 6) % 7 == 5 && (friday + 2 + 6) % 7 == 6;
    assert CountIn(friday, friday + 1, {}) == CountIn(friday, friday, {});
  }

  lemma FridayBefore(day: int)
    ensures (day - ((day - 1) % 7 - 4) - 1) % 7 == 4
  {
    Weekday(7 * ((day - 1) / 7), 0, 4);
  }

  /** And from a weekend it is the deadline from the Friday before. */
  lemma DueDayFromWeekend(start: int, n: nat)
    requires 5 <= (start - 1) % 7 && 1 <= n
    ensures DueDay(start, n, {}) == DueDay(start - ((start - 1) % 7 - 4), n, {})
  {
    var gap := (start - 1) % 7 - 4;
    var friday := start - gap;
    var due := DueDay(friday, n, {});
    FridayBefore(start);
    WeekendIsEmpty(friday, gap);
    Adjunction(Instant(friday, 0), Instant(start, 0), n, {});
    CountSplit(friday, start, due, {});
    DueDayUnique(start, n, {}, DueDay(start, n, {}), due);
  }

  /** Deadlines keep the time of day, and calendar ones add their days. */
  lemma DueAtIs(spec: ClockSpec, anchor: Instant, holidays: set<int>)
    ensures DueAt(spec, anchor, holidays).time == anchor.time
    ensures spec.kind == Calendar ==> DueAt(spec, anchor, holidays).day == anchor.day + spec.durationDays
  {}

  /** A started clock is breached exactly from the instant after the due one, in days and times. */
  lemma BreachedIff(spec: ClockSpec, anchor: Instant, asOf: Instant, holidays: set<int>)
    ensures var status, due := DeadlineOf(spec, Some(anchor), asOf, holidays), DueAt(spec, anchor, holidays);
      && status.clock == spec.name && status.kind == spec.kind && status.dueAt == Some(due)
      && (status.breached <==> due.day < asOf.day || (due.day == asOf.day && due.time < asOf.time))
      && (spec.kind == Calendar ==> status.remainingDays == anchor.day + spec.durationDays - asOf.day)
  {}
}
