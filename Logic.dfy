// The debt accounting engine of logic.ts: the daily target, the per-day run
// volume, and generateUserReports, which walks every day of 2026 keeping a
// cumulative target and a cumulative run and reports the simulation month.
//
// TotalsThrough is the specification of the accumulators after a given day,
// Reports the specification of the returned list; GenerateUserReports is the
// loop of the source, proved to return Reports.
module Logic {
  import opened Types
  import opened Dates

  /** The single program year. */
  const Year: int := 2026

  /** The join date used when a user has none. */
  const ProgramStart: string := "2026-01-01"

  /** `new Date(2026, m, 0).getDate()`: the fixed day counts of 2026. */
  function DaysIn2026(m: int): int
    requires 1 <= m <= 12
  {
    DaysInMonth(Year, m)
  }

  predicate IsDayOf2026(m: int, d: int) {
    1 <= m <= 12 && 1 <= d <= DaysIn2026(m)
  }

  /** calculateDailyTarget: month + day * 0.1 km, in hundredths. */
  function DailyTarget(month: int, day: int): int {
    100 * month + 10 * day
  }

  /**
   * The daily target runs from 1.1 km on January 1 to 15.1 km on December 31,
   * grows by 0.1 km a day within a month and by 1 km from one month to the
   * next on the same day.
   */
  lemma DailyTargetRange(m: int, d: int)
    requires IsDayOf2026(m, d)
    ensures DailyTarget(1, 1) == 110 && DailyTarget(2, 1) == 210 && DailyTarget(12, 31) == 1510
    ensures 110 <= DailyTarget(m, d) <= 1510
    ensures DailyTarget(m, d + 1) == DailyTarget(m, d) + 10
    ensures DailyTarget(m + 1, d) == DailyTarget(m, d) + 100
  {
  }

  /** The text a 2026 day is reported under and matched against log dates. */
  function DayText(m: int, d: int): string
    requires IsDayOf2026(m, d)
  {
    FormatDate(Date(Year, m, d))
  }

  // ---------------------------------------------------------------------------
  // The run of one day: the entries dated that day, their distances added up
  // ---------------------------------------------------------------------------

  /** The logs whose date text equals date, in their original order. */
  function LogsOn(logs: seq<LogEntry>, date: string): seq<LogEntry> {
    if logs == [] then []
    else (if logs[0].date == date then [logs[0]] else []) + LogsOn(logs[1..], date)
  }

  /** LogsOn keeps exactly the entries dated `date`. */
  lemma {:induction false} LogsOnMembers(logs: seq<LogEntry>, date: string)
    ensures forall l :: l in LogsOn(logs, date) <==> l in logs && l.date == date
  {
    if logs != [] {
      LogsOnMembers(logs[1..], date);
      assert logs == [logs[0]] + logs[1..];
    }
  }

  /** The sum of the distances of logs. */
  function TotalDistance(logs: seq<LogEntry>): int {
    if logs == [] then 0 else logs[0].distance + TotalDistance(logs[1..])
  }

  function DayRun(logs: seq<LogEntry>, date: string): int {
    TotalDistance(LogsOn(logs, date))
  }

  predicate NonNegativeLogs(logs: seq<LogEntry>) {
    forall i :: 0 <= i < |logs| ==> logs[i].distance >= 0
  }

  lemma {:induction false} DayRunAppend(a: seq<LogEntry>, b: seq<LogEntry>, date: string)
    ensures DayRun(a + b, date) == DayRun(a, date) + DayRun(b, date)
  {
    if a == [] {
      assert a + b == b;
    } else {
      assert (a + b)[1..] == a[1..] + b;
      DayRunAppend(a[1..], b, date);
      DayRunCons(a, date);
      DayRunCons(a + b, date);
    }
  }

  /** Every entry dated `date` counts, so same-day entries are summed. */
  lemma DayRunCons(logs: seq<LogEntry>, date: string)
    requires logs != []
    ensures DayRun(logs, date) == (if logs[0].date == date then logs[0].distance else 0) + DayRun(logs[1..], date)
  {
    var rest := LogsOn(logs[1..], date);
    if logs[0].date == date {
      assert LogsOn(logs, date) == [logs[0]] + rest;
      assert ([logs[0]] + rest)[1..] == rest;
    } else {
      assert LogsOn(logs, date) == rest;
    }
  }

  /** Removing the entry at i removes one occurrence of it. */
  lemma RemoveAt<T>(b: seq<T>, i: int)
    requires 0 <= i < |b|
    ensures multiset(b[..i] + b[i + 1..]) == multiset(b) - multiset{b[i]}
  {
    assert b == b[..i] + [b[i]] + b[i + 1..];
  }

  lemma DayRunRemoveAt(b: seq<LogEntry>, i: int, date: string)
    requires 0 <= i < |b|
    ensures DayRun(b, date) == DayRun([b[i]], date) + DayRun(b[..i] + b[i + 1..], date)
  {
    assert b == (b[..i] + [b[i]]) + b[i + 1..];
    DayRunAppend(b[..i] + [b[i]], b[i + 1..], date);
    DayRunAppend(b[..i], [b[i]], date);
    DayRunAppend(b[..i], b[i + 1..], date);
  }

  /** Reordering the logs does not change the run of any day. */
  lemma {:induction false} DayRunPermutation(a: seq<LogEntry>, b: seq<LogEntry>, date: string)
    requires multiset(a) == multiset(b)
    ensures DayRun(a, date) == DayRun(b, date)
    decreases |a|
  {
    if a == [] {
      assert |b| == |multiset(b)| == 0;
    } else {
      var x := a[0];
      assert x in multiset(b);
      var i :| 0 <= i < |b| && b[i] == x;
      RemoveAt(b, i);
      assert a == [x] + a[1..];
      assert multiset(a[1..]) == multiset(a) - multiset{x};
      DayRunPermutation(a[1..], b[..i] + b[i + 1..], date);
      DayRunAppend([x], a[1..], date);
      DayRunRemoveAt(b, i, date);
    }
  }

  lemma {:induction false} DayRunNonNegative(logs: seq<LogEntry>, date: string)
    requires NonNegativeLogs(logs)
    ensures DayRun(logs, date) >= 0
  {
    if logs != [] {
      DayRunNonNegative(logs[1..], date);
      DayRunCons(logs, date);
    }
  }

  // ---------------------------------------------------------------------------
  // The accumulators
  // ---------------------------------------------------------------------------

  datatype Totals = Totals(target: int, run: int) {
    /** The debt carried: what the target is ahead of the run, or nothing. */
    function Owed(): int {
      Max0(target - run)
    }
  }

  /** The date ProgramStart stands for. */
  const ProgramStartDate: Date := Date(Year, 1, 1)

  /**
   * The parsed join date, where an empty join date falls back to the first day
   * of the program; the parse of that fallback text is done already
   * (JoinDateFallback).
   */
  function JoinDateOf(u: User): Option<Date> {
    if u.joinDate == "" then Some(ProgramStartDate) else ParseLocalDate(u.joinDate)
  }

  lemma JoinDateFallback(u: User)
    ensures JoinDateOf(u) == ParseLocalDate(if u.joinDate == "" then ProgramStart else u.joinDate)
  {
    if u.joinDate == "" {
      ParseFormat(ProgramStartDate);
      assert FormatDate(ProgramStartDate) == ProgramStart;
    }
  }

  /**
   * A day accrues when it lies on or after the join date and on or before the
   * simulation date; an Invalid Date on either side makes both comparisons false.
   */
  predicate Gated(join: Option<Date>, sim: Option<Date>, x: Date) {
    join.Some? && sim.Some? && LessEq(join.value, x) && LessEq(x, sim.value)
  }

  /**
   * cumulativeTarget and cumulativeRun after the loop has handled day (m, d)
   * of 2026; d == 0 stands for "before the first day of month m".
   */
  function TotalsThrough(u: User, join: Option<Date>, sim: Option<Date>, m: int, d: int): Totals
    requires 1 <= m <= 12 && 0 <= d <= DaysIn2026(m)
    // u never changes; naming it first keeps the year from being unrolled
    // whenever m and d happen to be known numbers
    decreases u, m, d
  {
    if d == 0 then
      if m == 1 then Totals(0, 0) else TotalsThrough(u, join, sim, m - 1, DaysIn2026(m - 1))
    else
      var prev := TotalsThrough(u, join, sim, m, d - 1);
      if Gated(join, sim, Date(Year, m, d)) then
        Totals(prev.target + DailyTarget(m, d), prev.run + DayRun(u.logs, DayText(m, d)))
      else prev
  }

  /** A day inside the window adds its target and its run to the accumulators. */
  lemma TotalsStepIn(u: User, join: Option<Date>, sim: Option<Date>, m: int, d: int)
    requires IsDayOf2026(m, d) && Gated(join, sim, Date(Year, m, d))
    ensures TotalsThrough(u, join, sim, m, d) ==
      Totals(TotalsThrough(u, join, sim, m, d - 1).target + DailyTarget(m, d),
             TotalsThrough(u, join, sim, m, d - 1).run + DayRun(u.logs, DayText(m, d)))
  {
  }

  /** A day outside the window leaves the accumulators as they were. */
  lemma TotalsStepOut(u: User, join: Option<Date>, sim: Option<Date>, m: int, d: int)
    requires IsDayOf2026(m, d) && !Gated(join, sim, Date(Year, m, d))
    ensures TotalsThrough(u, join, sim, m, d) == TotalsThrough(u, join, sim, m, d - 1)
  {
  }

  /** The report pushed for day (m, d). */
  function ReportFor(u: User, sim: Option<Date>, m: int, d: int): DailyReport
    requires IsDayOf2026(m, d)
  {
    var target := DailyTarget(m, d);
    var run := DayRun(u.logs, DayText(m, d));
    var t := TotalsThrough(u, JoinDateOf(u), sim, m, d);
    DailyReport(DayText(m, d), target, run, Max0(target - run), Max0(run - target),
                t.Owed(), t.target, t.run)
  }

  /** The reports of days 1..n of month m, in day order. */
  function MonthReports(u: User, sim: Option<Date>, m: int, n: int): (r: seq<DailyReport>)
    requires 1 <= m <= 12 && 0 <= n <= DaysIn2026(m)
    ensures |r| == n
  {
    if n == 0 then [] else MonthReports(u, sim, m, n - 1) + [ReportFor(u, sim, m, n)]
  }

  /**
   * What generateUserReports returns: one report per day of the month of
   * simDate (of 2026), and nothing when simDate is an Invalid Date (its month
   * is NaN, which no loop month equals).
   */
  function Reports(u: User, simDate: string): seq<DailyReport> {
    var sim := ParseLocalDate(simDate);
    if sim.None? then [] else MonthReports(u, sim, sim.value.month, DaysIn2026(sim.value.month))
  }

  /**
   * The reports generateUserReports has pushed once it has handled day (m, d):
   * none before the simulation month, a prefix of it during, all of it after.
   */
  ghost function Emitted(u: User, sim: Option<Date>, m: int, d: int): seq<DailyReport>
    requires 1 <= m <= 12 && 0 <= d <= DaysIn2026(m)
    requires sim.Some? ==> IsCalendarDate(sim.value)
  {
    if sim.None? || m < sim.value.month then []
    else if m == sim.value.month then MonthReports(u, sim, m, d)
    else MonthReports(u, sim, sim.value.month, DaysIn2026(sim.value.month))
  }

  /** A day of the simulation month pushes its report. */
  lemma EmittedPush(u: User, sim: Option<Date>, m: int, d: int)
    requires IsDayOf2026(m, d)
    requires sim.Some? && IsCalendarDate(sim.value) && sim.value.month == m
    ensures Emitted(u, sim, m, d) == Emitted(u, sim, m, d - 1) + [ReportFor(u, sim, m, d)]
  {
  }

  /** A day of any other month pushes nothing. */
  lemma EmittedSkip(u: User, sim: Option<Date>, m: int, d: int)
    requires IsDayOf2026(m, d)
    requires sim.Some? ==> IsCalendarDate(sim.value) && sim.value.month != m
    ensures Emitted(u, sim, m, d) == Emitted(u, sim, m, d - 1)
  {
  }

  lemma EmittedNextMonth(u: User, sim: Option<Date>, m: int)
    requires 1 <= m < 12
    requires sim.Some? ==> IsCalendarDate(sim.value)
    ensures Emitted(u, sim, m + 1, 0) == Emitted(u, sim, m, DaysIn2026(m))
  {
  }

  lemma EmittedAll(u: User, simDate: string)
    ensures Emitted(u, ParseLocalDate(simDate), 12, 31) == Reports(u, simDate)
  {
  }

  /** Pushing the loop's record for a day of the simulation month extends Emitted by that day. */
  lemma PushStep(u: User, sim: Option<Date>, m: int, d: int, reports: seq<DailyReport>,
                 dateStr: string, dailyTarget: int, totalRunOnDay: int, cumulativeTarget: int, cumulativeRun: int)
    requires IsDayOf2026(m, d)
    requires sim.Some? && IsCalendarDate(sim.value) && sim.value.month == m
    requires dateStr == DayText(m, d) && dailyTarget == DailyTarget(m, d)
    requires totalRunOnDay == DayRun(u.logs, dateStr)
    requires Totals(cumulativeTarget, cumulativeRun) == TotalsThrough(u, JoinDateOf(u), sim, m, d)
    requires reports == Emitted(u, sim, m, d - 1)
    ensures reports + [DailyReport(dateStr, dailyTarget, totalRunOnDay,
                                   Max0(dailyTarget - totalRunOnDay), Max0(totalRunOnDay - dailyTarget),
                                   Max0(cumulativeTarget - cumulativeRun), cumulativeTarget, cumulativeRun)]
            == Emitted(u, sim, m, d)
  {
    EmittedPush(u, sim, m, d);
  }

  /**
   * The body of the inner loop of generateUserReports: accrue day (m, d) when
   * it is inside the window and push its report when m is the simulation month.
   */
  method HandleDay(user: User, simDateObj: Option<Date>, simMonth: int, m: int, d: int,
                   reports: seq<DailyReport>, cumulativeTarget: int, cumulativeRun: int)
    returns (reports': seq<DailyReport>, cumulativeTarget': int, cumulativeRun': int)
    requires IsDayOf2026(m, d)
    requires simDateObj.Some? ==> IsCalendarDate(simDateObj.value)
    requires simMonth == if simDateObj.Some? then simDateObj.value.month - 1 else -1
    requires Totals(cumulativeTarget, cumulativeRun) == TotalsThrough(user, JoinDateOf(user), simDateObj, m, d - 1)
    requires reports == Emitted(user, simDateObj, m, d - 1)
    ensures Totals(cumulativeTarget', cumulativeRun') == TotalsThrough(user, JoinDateOf(user), simDateObj, m, d)
    ensures reports' == Emitted(user, simDateObj, m, d)
  {
    var currentDate := Date(Year, m, d);
    var dateStr := FormatDate(currentDate);
    var dailyTarget := DailyTarget(m, d);
    var dailyLogs := LogsOn(user.logs, dateStr);
    var totalRunOnDay := TotalDistance(dailyLogs);
    assert dateStr == DayText(m, d) && totalRunOnDay == DayRun(user.logs, dateStr);
    var joinDateObj := JoinDateOf(user);
    cumulativeTarget', cumulativeRun' := cumulativeTarget, cumulativeRun;
    if Gated(joinDateObj, simDateObj, currentDate) {
      TotalsStepIn(user, joinDateObj, simDateObj, m, d);
      cumulativeTarget' := cumulativeTarget' + dailyTarget;
      cumulativeRun' := cumulativeRun' + totalRunOnDay;
    } else {
      TotalsStepOut(user, joinDateObj, simDateObj, m, d);
    }
    var currentDebt := Max0(cumulativeTarget' - cumulativeRun');
    reports' := reports;
    if m - 1 == simMonth {
      PushStep(user, simDateObj, m, d, reports, dateStr, dailyTarget, totalRunOnDay, cumulativeTarget', cumulativeRun');
      reports' := reports' + [DailyReport(dateStr, dailyTarget, totalRunOnDay,
                                          Max0(dailyTarget - totalRunOnDay),
                                          Max0(totalRunOnDay - dailyTarget),
                                          currentDebt, cumulativeTarget', cumulativeRun')];
    } else {
      EmittedSkip(user, simDateObj, m, d);
    }
  }

  /** generateUserReports (logic.ts:25-75). */
  method GenerateUserReports(user: User, simDate: string) returns (reports: seq<DailyReport>)
    ensures reports == Reports(user, simDate)
  {
    reports := [];
    var simDateObj := ParseLocalDate(simDate);
    var cumulativeTarget, cumulativeRun := 0, 0;
    // getMonth() of an Invalid Date is NaN; -1 plays that part
    var simMonth := if simDateObj.Some? then simDateObj.value.month - 1 else -1;

    var m := 0;
    while m < 12
      invariant 0 <= m <= 12
      invariant m == 0 ==> cumulativeTarget == 0 && cumulativeRun == 0 && reports == []
      invariant m > 0 ==> Totals(cumulativeTarget, cumulativeRun) == TotalsThrough(user, JoinDateOf(user), simDateObj, m, DaysIn2026(m))
      invariant m > 0 ==> reports == Emitted(user, simDateObj, m, DaysIn2026(m))
    {
      if m > 0 {
        EmittedNextMonth(user, simDateObj, m);
      }
      var daysInMonth := DaysIn2026(m + 1);
      var d := 1;
      while d <= daysInMonth
        invariant 1 <= d <= daysInMonth + 1
        invariant Totals(cumulativeTarget, cumulativeRun) == TotalsThrough(user, JoinDateOf(user), simDateObj, m + 1, d - 1)
        invariant reports == Emitted(user, simDateObj, m + 1, d - 1)
      {
        reports, cumulativeTarget, cumulativeRun :=
          HandleDay(user, simDateObj, simMonth, m + 1, d, reports, cumulativeTarget, cumulativeRun);
        d := d + 1;
      }
      m := m + 1;
    }
    EmittedAll(user, simDate);
  }
}
