// What the report engine promises about its output. The facts are proved of
// Logic.Reports and Logic.TotalsThrough, and so, through the postcondition of
// Logic.GenerateUserReports, of the loop itself.
module ReportFacts {
  import opened Types
  import opened Dates
  import opened Logic

  // ---------------------------------------------------------------------------
  // The shape of the returned list
  // ---------------------------------------------------------------------------

  /** The i-th report of days 1..n of month m is the report of day i + 1. */
  lemma {:induction false} MonthReportsAt(u: User, sim: Option<Date>, m: int, n: int, i: int)
    requires 1 <= m <= 12 && 0 <= n <= DaysIn2026(m) && 0 <= i < n
    ensures MonthReports(u, sim, m, n)[i] == ReportFor(u, sim, m, i + 1)
  {
    if i < n - 1 {
      MonthReportsAt(u, sim, m, n - 1, i);
    }
  }

  /**
   * One report per day of the month of the simulation date, in day order; the
   * i-th carries day i + 1's target and run and the accumulators after that
   * day. An Invalid Date yields no reports at all.
   */
  lemma ReportsShape(u: User, simDate: string)
    ensures ParseLocalDate(simDate).None? ==> Reports(u, simDate) == []
    ensures ParseLocalDate(simDate).Some? ==>
      var sim := ParseLocalDate(simDate);
      var m := sim.value.month;
      |Reports(u, simDate)| == DaysIn2026(m) &&
      forall i :: 0 <= i < |Reports(u, simDate)| ==>
        Reports(u, simDate)[i].date == DayText(m, i + 1) &&
        Reports(u, simDate)[i].target == DailyTarget(m, i + 1) &&
        Reports(u, simDate)[i].run == DayRun(u.logs, DayText(m, i + 1)) &&
        Totals(Reports(u, simDate)[i].cumulativeTarget, Reports(u, simDate)[i].cumulativeRun)
          == TotalsThrough(u, JoinDateOf(u), sim, m, i + 1)
  {
    var sim := ParseLocalDate(simDate);
    if sim.Some? {
      var m := sim.value.month;
      forall i | 0 <= i < |Reports(u, simDate)|
        ensures Reports(u, simDate)[i] == ReportFor(u, sim, m, i + 1)
      {
        MonthReportsAt(u, sim, m, DaysIn2026(m), i);
      }
    }
  }

  /**
   * Each day's shortfall and surplus are the two sides of target - run, at most
   * one of them non-zero; the cumulative debt is the cumulative shortfall,
   * floored at zero.
   */
  lemma ReportDebts(u: User, simDate: string, i: int)
    requires 0 <= i < |Reports(u, simDate)|
    ensures var r := Reports(u, simDate)[i];
      r.debtAdded >= 0 && r.debtCleared >= 0 &&
      r.debtAdded - r.debtCleared == r.target - r.run &&
      (r.debtAdded == 0 || r.debtCleared == 0) &&
      r.cumulativeDebt >= 0 && r.cumulativeDebt >= r.cumulativeTarget - r.cumulativeRun &&
      (r.cumulativeDebt == 0 || r.cumulativeDebt == r.cumulativeTarget - r.cumulativeRun)
  {
    var sim := ParseLocalDate(simDate);
    MonthReportsAt(u, sim, sim.value.month, DaysIn2026(sim.value.month), i);
  }

  /**
   * The date text of the i-th report parses back to day i + 1 of the simulation
   * month of 2026, and consecutive reports are one day apart.
   */
  lemma ReportDates(u: User, simDate: string, i: int)
    requires 0 <= i < |Reports(u, simDate)|
    ensures var m := ParseLocalDate(simDate).value.month;
      ParseLocalDate(Reports(u, simDate)[i].date) == Some(Date(Year, m, i + 1))
    ensures i + 1 < |Reports(u, simDate)| ==>
      GetDaysBetween(Reports(u, simDate)[i].date, Reports(u, simDate)[i + 1].date) == Some(1)
  {
    var sim := ParseLocalDate(simDate);
    var m := sim.value.month;
    var n := DaysIn2026(m);
    MonthReportsAt(u, sim, m, n, i);
    ParseFormat(Date(Year, m, i + 1));
    if i + 1 < n {
      MonthReportsAt(u, sim, m, n, i + 1);
      assert NextDay(Date(Year, m, i + 1)) == Date(Year, m, i + 2);
      DaysBetweenNextDay(Date(Year, m, i + 1));
    }
  }

  // ---------------------------------------------------------------------------
  // The accrual window: from the join date to the simulation date
  // ---------------------------------------------------------------------------

  /** The accumulators of every day of 2026 up to (m, d), ignoring the window. */
  function AllTotals(u: User, m: int, d: int): Totals
    requires 1 <= m <= 12 && 0 <= d <= DaysIn2026(m)
    decreases u, m, d
  {
    if d == 0 then
      if m == 1 then Totals(0, 0) else AllTotals(u, m - 1, DaysIn2026(m - 1))
    else
      var prev := AllTotals(u, m, d - 1);
      Totals(prev.target + DailyTarget(m, d), prev.run + DayRun(u.logs, DayText(m, d)))
  }

  function Minus(a: Totals, b: Totals): Totals {
    Totals(a.target - b.target, a.run - b.run)
  }

  /**
   * Nothing accrues before the join date, and nothing at all when the join
   * date is after the simulation date or either date is invalid.
   */
  lemma {:induction false} NothingAccrues(u: User, join: Option<Date>, sim: Option<Date>, m: int, d: int)
    requires 1 <= m <= 12 && 0 <= d <= DaysIn2026(m)
    requires join.None? || sim.None? || !LessEq(join.value, Date(Year, m, d)) || !LessEq(join.value, sim.value)
    ensures TotalsThrough(u, join, sim, m, d) == Totals(0, 0)
    decreases m, d
  {
    if d == 0 {
      if m > 1 {
        NothingAccrues(u, join, sim, m - 1, DaysIn2026(m - 1));
      }
    } else {
      NothingAccrues(u, join, sim, m, d - 1);
    }
  }

  /**
   * Between the join date j and the simulation date every day counts: the
   * accumulators are the year-to-date totals less those of the days before j.
   */
  lemma {:induction false} AccruesInWindow(u: User, jm: int, jd: int, sim: Option<Date>, m: int, d: int)
    requires IsDayOf2026(jm, jd) && 1 <= m <= 12 && 0 <= d <= DaysIn2026(m)
    requires sim.Some?
    requires LessEq(Date(Year, jm, jd), Date(Year, m, d)) && LessEq(Date(Year, m, d), sim.value)
    ensures TotalsThrough(u, Some(Date(Year, jm, jd)), sim, m, d) == Minus(AllTotals(u, m, d), AllTotals(u, jm, jd - 1))
    decreases m, d
  {
    if d == 0 {
      AccruesInWindow(u, jm, jd, sim, m - 1, DaysIn2026(m - 1));
    } else if jm == m && jd == d {
      NothingAccrues(u, Some(Date(Year, jm, jd)), sim, m, d - 1);
    } else {
      AccruesInWindow(u, jm, jd, sim, m, d - 1);
    }
  }

  /**
   * A join date on or before the first day of 2026 opens the window on January 1:
   * up to the simulation date every day of the year counts.
   */
  lemma {:induction false} AccruesFromYearStart(u: User, join: Date, sim: Option<Date>, m: int, d: int)
    requires 1 <= m <= 12 && 0 <= d <= DaysIn2026(m)
    requires sim.Some?
    requires LessEq(join, Date(Year, 1, 1)) && LessEq(Date(Year, m, d), sim.value)
    ensures TotalsThrough(u, Some(join), sim, m, d) == AllTotals(u, m, d)
    decreases m, d
  {
    if d == 0 {
      if m > 1 {
        AccruesFromYearStart(u, join, sim, m - 1, DaysIn2026(m - 1));
      }
    } else {
      AccruesFromYearStart(u, join, sim, m, d - 1);
    }
  }

  /** After the simulation date the accumulators no longer change. */
  lemma {:induction false} FrozenAfterSim(u: User, join: Option<Date>, sim: Option<Date>, m: int, d: int)
    requires 1 <= m <= 12 && 0 <= d <= DaysIn2026(m)
    requires sim.Some? && IsCalendarDate(sim.value) && sim.value.year == Year
    requires LessEq(sim.value, Date(Year, m, d))
    ensures TotalsThrough(u, join, sim, m, d) == TotalsThrough(u, join, sim, sim.value.month, sim.value.day)
    decreases m, d
  {
    if Date(Year, m, d) != sim.value {
      if d == 0 {
        FrozenAfterSim(u, join, sim, m - 1, DaysIn2026(m - 1));
      } else {
        FrozenAfterSim(u, join, sim, m, d - 1);
      }
    }
  }

  /** With no negative distance logged, the accumulators never decrease within a month. */
  lemma {:induction false} TotalsGrow(u: User, join: Option<Date>, sim: Option<Date>, m: int, d1: int, d2: int)
    requires NonNegativeLogs(u.logs)
    requires 1 <= m <= 12 && 0 <= d1 <= d2 <= DaysIn2026(m)
    ensures TotalsThrough(u, join, sim, m, d1).target <= TotalsThrough(u, join, sim, m, d2).target
    ensures TotalsThrough(u, join, sim, m, d1).run <= TotalsThrough(u, join, sim, m, d2).run
    decreases d2
  {
    if d1 < d2 {
      TotalsGrow(u, join, sim, m, d1, d2 - 1);
      DayRunNonNegative(u.logs, DayText(m, d2));
    }
  }

  /**
   * With no negative distance logged, moving the simulation date later never
   * lowers either accumulator on any day.
   */
  lemma {:induction false} TotalsGrowWithSim(u: User, join: Option<Date>, s1: Date, s2: Date, m: int, d: int)
    requires NonNegativeLogs(u.logs)
    requires LessEq(s1, s2)
    requires 1 <= m <= 12 && 0 <= d <= DaysIn2026(m)
    ensures TotalsThrough(u, join, Some(s1), m, d).target <= TotalsThrough(u, join, Some(s2), m, d).target
    ensures TotalsThrough(u, join, Some(s1), m, d).run <= TotalsThrough(u, join, Some(s2), m, d).run
    decreases m, d
  {
    if d == 0 {
      if m > 1 {
        TotalsGrowWithSim(u, join, s1, s2, m - 1, DaysIn2026(m - 1));
      }
    } else {
      TotalsGrowWithSim(u, join, s1, s2, m, d - 1);
      DayRunNonNegative(u.logs, DayText(m, d));
    }
  }

  /** With no negative run logged, the reports' cumulative target and run never go down. */
  lemma ReportsGrow(u: User, simDate: string, i: int, j: int)
    requires NonNegativeLogs(u.logs)
    requires 0 <= i <= j < |Reports(u, simDate)|
    ensures Reports(u, simDate)[i].cumulativeTarget <= Reports(u, simDate)[j].cumulativeTarget
    ensures Reports(u, simDate)[i].cumulativeRun <= Reports(u, simDate)[j].cumulativeRun
  {
    var sim := ParseLocalDate(simDate);
    MonthReportsGrow(u, sim, sim.value.month, i, j);
  }

  lemma MonthReportsGrow(u: User, sim: Option<Date>, m: int, i: int, j: int)
    requires NonNegativeLogs(u.logs)
    requires 1 <= m <= 12 && 0 <= i <= j < DaysIn2026(m)
    ensures MonthReports(u, sim, m, DaysIn2026(m))[i].cumulativeTarget <= MonthReports(u, sim, m, DaysIn2026(m))[j].cumulativeTarget
    ensures MonthReports(u, sim, m, DaysIn2026(m))[i].cumulativeRun <= MonthReports(u, sim, m, DaysIn2026(m))[j].cumulativeRun
  {
    MonthReportsAt(u, sim, m, DaysIn2026(m), i);
    MonthReportsAt(u, sim, m, DaysIn2026(m), j);
    TotalsGrow(u, JoinDateOf(u), sim, m, i + 1, j + 1);
  }

  /**
   * A participant whose join date is invalid or after the simulation date
   * accrues nothing: every report shows zero cumulative target, run and debt.
   */
  lemma ReportsBeforeJoin(u: User, simDate: string, i: int)
    requires ParseLocalDate(simDate).Some?
    requires JoinDateOf(u).None? || !LessEq(JoinDateOf(u).value, ParseLocalDate(simDate).value)
    requires 0 <= i < |Reports(u, simDate)|
    ensures Reports(u, simDate)[i].cumulativeTarget == 0
    ensures Reports(u, simDate)[i].cumulativeRun == 0
    ensures Reports(u, simDate)[i].cumulativeDebt == 0
  {
    var sim := ParseLocalDate(simDate);
    var m := sim.value.month;
    MonthReportsAt(u, sim, m, DaysIn2026(m), i);
    NothingAccrues(u, JoinDateOf(u), sim, m, i + 1);
  }

  // ---------------------------------------------------------------------------
  // The reports depend on the logs only through each day's run
  // ---------------------------------------------------------------------------

  /** Every day of 2026 has the same run for both users. */
  ghost predicate SameDailyRuns(u: User, v: User) {
    forall m, d :: IsDayOf2026(m, d) ==> DayRun(u.logs, DayText(m, d)) == DayRun(v.logs, DayText(m, d))
  }

  lemma {:induction false} TotalsCongruent(u: User, v: User, join: Option<Date>, sim: Option<Date>, m: int, d: int)
    requires SameDailyRuns(u, v)
    requires 1 <= m <= 12 && 0 <= d <= DaysIn2026(m)
    ensures TotalsThrough(u, join, sim, m, d) == TotalsThrough(v, join, sim, m, d)
    decreases m, d
  {
    if d == 0 {
      if m > 1 {
        TotalsCongruent(u, v, join, sim, m - 1, DaysIn2026(m - 1));
      }
    } else {
      TotalsCongruent(u, v, join, sim, m, d - 1);
    }
  }

  lemma {:induction false} MonthReportsCongruent(u: User, v: User, sim: Option<Date>, m: int, n: int)
    requires u.joinDate == v.joinDate && SameDailyRuns(u, v)
    requires 1 <= m <= 12 && 0 <= n <= DaysIn2026(m)
    ensures MonthReports(u, sim, m, n) == MonthReports(v, sim, m, n)
  {
    if n > 0 {
      MonthReportsCongruent(u, v, sim, m, n - 1);
      var join := JoinDateOf(u);
      assert join == JoinDateOf(v);
      TotalsCongruent(u, v, join, sim, m, n);
      assert DayRun(u.logs, DayText(m, n)) == DayRun(v.logs, DayText(m, n));
      assert ReportFor(u, sim, m, n) == ReportFor(v, sim, m, n);
    }
  }

  /** Two users with the same join date and the same run on every day get the same reports. */
  lemma ReportsCongruent(u: User, v: User, simDate: string)
    requires u.joinDate == v.joinDate && SameDailyRuns(u, v)
    ensures Reports(u, simDate) == Reports(v, simDate)
  {
    var sim := ParseLocalDate(simDate);
    if sim.Some? {
      MonthReportsCongruent(u, v, sim, sim.value.month, DaysIn2026(sim.value.month));
    }
  }

  /** The order in which runs were logged does not matter. */
  lemma ReportsPermutation(u: User, v: User, simDate: string)
    requires u.joinDate == v.joinDate && multiset(u.logs) == multiset(v.logs)
    ensures Reports(u, simDate) == Reports(v, simDate)
  {
    forall m, d | IsDayOf2026(m, d)
      ensures DayRun(u.logs, DayText(m, d)) == DayRun(v.logs, DayText(m, d))
    {
      DayRunPermutation(u.logs, v.logs, DayText(m, d));
    }
    ReportsCongruent(u, v, simDate);
  }

  /**
   * A run logged under a date that is not a day of 2026 (an Invalid Date or
   * another year) is never matched by any day, so it changes nothing.
   */
  lemma ReportsIgnoreOffYearLog(u: User, l: LogEntry, simDate: string)
    requires ParseLocalDate(l.date).None? || ParseLocalDate(l.date).value.year != Year
    ensures Reports(u.(logs := u.logs + [l]), simDate) == Reports(u, simDate)
  {
    var v := u.(logs := u.logs + [l]);
    forall m, d | IsDayOf2026(m, d)
      ensures DayRun(v.logs, DayText(m, d)) == DayRun(u.logs, DayText(m, d))
    {
      ParseFormat(Date(Year, m, d));
      DayRunAppend(u.logs, [l], DayText(m, d));
      DayRunCons([l], DayText(m, d));
    }
    ReportsCongruent(v, u, simDate);
  }
}
