// The logic of the App component (App.tsx): the per-user summaries, the team
// total debt and the highest debtor derived from the reports, the
// MONTHLY_TARGETS table, and the copy-on-write roster updates applied by the
// add/edit-run, create-user and delete-run handlers.
//
// The derivations and the updates are pure functions of the roster; the Roster
// class holds the state fields the handlers replace and applies them.
module App {
  import opened Types
  import opened Dates
  import opened Logic
  import opened ReportFacts

  /** INITIAL_DATE */
  const InitialDate: string := "2026-01-08"

  /** The three runners the dashboard starts with, all joined on January 1 and with no runs. */
  function InitialUsers(): seq<User> {
    [
      User("user-ijan", "Ijan", "2026-01-01", []),
      User("user-will", "Will", "2026-01-01", []),
      User("user-duchess", "Duchess", "2026-01-01", [])
    ]
  }

  // ---------------------------------------------------------------------------
  // MONTHLY_TARGETS
  // ---------------------------------------------------------------------------

  /** The table of monthly targets, in hundredths of a km (80.6 km is 8060). */
  function MonthlyTargets(): seq<int> {
    [8060, 9660, 14260, 16650, 20460, 22650, 26660, 29760, 31650, 35960, 37650, 42160]
  }

  /** The sum of the daily targets of days 1..n of month m. */
  function MonthTargetSum(m: int, n: nat): int {
    if n == 0 then 0 else MonthTargetSum(m, n - 1) + DailyTarget(m, n)
  }

  lemma {:induction false} MonthTargetSumClosed(m: int, n: nat)
    ensures MonthTargetSum(m, n) == 100 * m * n + 5 * n * (n + 1)
  {
    if n > 0 {
      MonthTargetSumClosed(m, n - 1);
    }
  }

  /** Each entry of the table is the sum of the daily targets of its month of 2026. */
  lemma MonthlyTargetsAreMonthSums()
    ensures |MonthlyTargets()| == 12
    ensures forall m :: 1 <= m <= 12 ==> MonthlyTargets()[m - 1] == MonthTargetSum(m, DaysIn2026(m))
  {
    forall m | 1 <= m <= 12
      ensures MonthlyTargets()[m - 1] == MonthTargetSum(m, DaysIn2026(m))
    {
      MonthlyTargetEntry(m);
    }
  }

  lemma MonthlyTargetEntry(m: int)
    requires 1 <= m <= 12
    ensures MonthlyTargets()[m - 1] == MonthTargetSum(m, DaysIn2026(m))
  {
    MonthlyTargetClosed(m);
    MonthTargetSumClosed(m, DaysIn2026(m));
  }

  /** The table entries agree with the closed form of a month's sum. */
  lemma MonthlyTargetClosed(m: int)
    requires 1 <= m <= 12
    ensures var n := DaysIn2026(m); MonthlyTargets()[m - 1] == 100 * m * n + 5 * n * (n + 1)
  {
    if m == 1 { assert MonthlyTargets()[0] == 8060; }
    else if m == 2 { assert MonthlyTargets()[1] == 9660; }
    else if m == 3 { assert MonthlyTargets()[2] == 14260; }
    else if m == 4 { assert MonthlyTargets()[3] == 16650; }
    else if m == 5 { assert MonthlyTargets()[4] == 20460; }
    else if m == 6 { assert MonthlyTargets()[5] == 22650; }
    else if m == 7 { assert MonthlyTargets()[6] == 26660; }
    else if m == 8 { assert MonthlyTargets()[7] == 29760; }
    else if m == 9 { assert MonthlyTargets()[8] == 31650; }
    else if m == 10 { assert MonthlyTargets()[9] == 35960; }
    else if m == 11 { assert MonthlyTargets()[10] == 37650; }
    else { assert MonthlyTargets()[11] == 42160; }
  }

  /**
   * What the engine charges during month m when the whole month lies inside
   * the window: the month's entry of the table.
   */
  lemma MonthChargesTableTarget(u: User, join: Date, sim: Option<Date>, m: int)
    requires 1 <= m <= 12 && sim.Some?
    requires LessEq(join, Date(Year, m, 1)) && LessEq(Date(Year, m, DaysIn2026(m)), sim.value)
    ensures TotalsThrough(u, Some(join), sim, m, DaysIn2026(m)).target
            == TotalsThrough(u, Some(join), sim, m, 0).target + MonthlyTargets()[m - 1]
  {
    MonthTargetAccrues(u, join, sim, m, DaysIn2026(m));
    MonthlyTargetsAreMonthSums();
  }

  lemma {:induction false} MonthTargetAccrues(u: User, join: Date, sim: Option<Date>, m: int, d: int)
    requires 1 <= m <= 12 && 0 <= d <= DaysIn2026(m) && sim.Some?
    requires LessEq(join, Date(Year, m, 1)) && LessEq(Date(Year, m, d), sim.value)
    ensures TotalsThrough(u, Some(join), sim, m, d).target
            == TotalsThrough(u, Some(join), sim, m, 0).target + MonthTargetSum(m, d)
  {
    if d > 0 {
      MonthTargetAccrues(u, join, sim, m, d - 1);
      TotalsStepIn(u, Some(join), sim, m, d);
    }
  }

  // ---------------------------------------------------------------------------
  // userSummaries
  // ---------------------------------------------------------------------------

  /** The position of the first report with that date text, or None when no report has it. */
  function FindReportIndex(reports: seq<DailyReport>, date: string): (r: Option<nat>)
    ensures r.Some? ==> r.value < |reports| && reports[r.value].date == date
    ensures r.Some? ==> forall k :: 0 <= k < r.value ==> reports[k].date != date
    ensures r.None? ==> forall k :: 0 <= k < |reports| ==> reports[k].date != date
  {
    if reports == [] then None
    else if reports[0].date == date then Some(0)
    else
      match FindReportIndex(reports[1..], date)
      case None => None
      case Some(i) => Some(i + 1)
  }

  /**
   * The index of `latest`: the report dated simDate if there is one, else the
   * last report; None when there are no reports (`latest` is undefined).
   */
  function LatestIndex(reports: seq<DailyReport>, simDate: string): (r: Option<nat>)
    ensures r.None? <==> reports == []
    ensures r.Some? ==> r.value < |reports|
    ensures r.Some? ==>
      reports[r.value].date == simDate ||
      (r.value == |reports| - 1 && forall k :: 0 <= k < |reports| ==> reports[k].date != simDate)
  {
    match FindReportIndex(reports, simDate)
    case Some(i) => Some(i)
    case None => if reports == [] then None else Some(|reports| - 1)
  }

  /** The DEBT threshold, 0.05 km. */
  const DebtThreshold: int := 5

  /**
   * The summary of one user. None stands for the TypeError the source raises
   * when simDate is an Invalid Date: there are no reports and `latest` is
   * undefined.
   */
  function Summarize(u: User, simDate: string): (r: Option<UserStatsSummary>)
    ensures r.None? <==> ParseLocalDate(simDate).None?
    ensures r.Some? ==> r.value.id == u.id && r.value.name == u.name && r.value.reports == Reports(u, simDate)
    ensures r.Some? ==> r.value.currentDebt >= 0
    ensures r.Some? ==> (r.value.status == Debt <==> r.value.currentDebt > DebtThreshold)
  {
    var reports := Reports(u, simDate);
    match LatestIndex(reports, simDate)
    case None => None
    case Some(i) =>
      ReportDebts(u, simDate, i);
      var latest := reports[i];
      Some(UserStatsSummary(u.id, u.name, latest.cumulativeRun, latest.cumulativeDebt,
                            if latest.cumulativeDebt > DebtThreshold then Debt else Clear, reports))
  }

  /**
   * For a simulation date of 2026 the summary shows the accumulators as of the
   * simulation date itself, whether or not a report carries its exact text.
   */
  lemma SummaryAsOfSimDate(u: User, simDate: string, sim: Date)
    requires ParseLocalDate(simDate) == Some(sim) && sim.year == Year
    ensures var t := TotalsThrough(u, JoinDateOf(u), Some(sim), sim.month, sim.day);
      Summarize(u, simDate).Some? &&
      Summarize(u, simDate).value.totalRun == t.run &&
      Summarize(u, simDate).value.currentDebt == t.Owed()
  {
    var d := LatestDay(u, simDate, sim);
    SimDayTotals(u, sim, d);
    ReportAccumulators(u, Some(sim), sim.month, d, TotalsThrough(u, JoinDateOf(u), Some(sim), sim.month, sim.day));
  }

  /**
   * For a simulation date of another year no report carries its text, so the
   * summary shows the accumulators as of the last day of its month of 2026.
   */
  lemma SummaryOffYear(u: User, simDate: string, sim: Date)
    requires ParseLocalDate(simDate) == Some(sim) && sim.year != Year
    ensures var t := TotalsThrough(u, JoinDateOf(u), Some(sim), sim.month, DaysIn2026(sim.month));
      Summarize(u, simDate).Some? &&
      Summarize(u, simDate).value.totalRun == t.run &&
      Summarize(u, simDate).value.currentDebt == t.Owed()
  {
    var reports := Reports(u, simDate);
    var n := DaysIn2026(sim.month);
    var i := LatestIndex(reports, simDate).value;
    MonthReportsAt(u, Some(sim), sim.month, n, i);
    if reports[i].date == simDate {
      ParseFormat(Date(Year, sim.month, i + 1));
    }
    assert i == n - 1;
    ReportAccumulators(u, Some(sim), sim.month, n, TotalsThrough(u, JoinDateOf(u), Some(sim), sim.month, n));
  }

  /**
   * `latest` is the report of the simulation day d, or of the last day of the
   * month when no report bears the simulation date's text.
   */
  lemma LatestDay(u: User, simDate: string, sim: Date) returns (d: int)
    requires ParseLocalDate(simDate) == Some(sim) && sim.year == Year
    ensures IsDayOf2026(sim.month, d) && (d == sim.day || d == DaysIn2026(sim.month))
    ensures Summarize(u, simDate).Some?
    ensures Summarize(u, simDate).value.totalRun == ReportFor(u, Some(sim), sim.month, d).cumulativeRun
    ensures Summarize(u, simDate).value.currentDebt == ReportFor(u, Some(sim), sim.month, d).cumulativeDebt
  {
    var reports := Reports(u, simDate);
    var i := LatestIndex(reports, simDate).value;
    MonthReportsAt(u, Some(sim), sim.month, DaysIn2026(sim.month), i);
    if reports[i].date == simDate {
      ParseFormat(Date(Year, sim.month, i + 1));
    }
    d := i + 1;
  }

  /** Day d of the simulation month has the totals of the simulation day when it is that day or the month's last. */
  lemma SimDayTotals(u: User, sim: Date, d: int)
    requires IsCalendarDate(sim) && sim.year == Year
    requires sim.day == d || d == DaysIn2026(sim.month)
    ensures TotalsThrough(u, JoinDateOf(u), Some(sim), sim.month, d)
            == TotalsThrough(u, JoinDateOf(u), Some(sim), sim.month, sim.day)
  {
    if sim.day != d {
      FrozenAfterSim(u, JoinDateOf(u), Some(sim), sim.month, d);
    }
  }

  /** A report's accumulators are the running totals of its day. */
  lemma ReportAccumulators(u: User, sim: Option<Date>, m: int, d: int, t: Totals)
    requires IsDayOf2026(m, d) && TotalsThrough(u, JoinDateOf(u), sim, m, d) == t
    ensures var r := ReportFor(u, sim, m, d);
      r.cumulativeTarget == t.target && r.cumulativeRun == t.run &&
      r.cumulativeDebt == t.Owed()
  {
  }

  /** A user whose join date is after the simulation date (or invalid) owes nothing. */
  lemma SummaryBeforeJoin(u: User, simDate: string)
    requires ParseLocalDate(simDate).Some?
    requires JoinDateOf(u).None? || !LessEq(JoinDateOf(u).value, ParseLocalDate(simDate).value)
    ensures Summarize(u, simDate).Some?
    ensures Summarize(u, simDate).value.totalRun == 0 && Summarize(u, simDate).value.currentDebt == 0
    ensures Summarize(u, simDate).value.status == Clear
  {
    ReportsBeforeJoin(u, simDate, LatestIndex(Reports(u, simDate), simDate).value);
  }

  /**
   * With no negative distance logged, a later simulation date of 2026 never
   * shows a runner a smaller total run.
   */
  lemma SummaryRunGrows(u: User, early: string, late: string, s1: Date, s2: Date)
    requires NonNegativeLogs(u.logs)
    requires ParseLocalDate(early) == Some(s1) && s1.year == Year
    requires ParseLocalDate(late) == Some(s2) && s2.year == Year
    requires LessEq(s1, s2)
    ensures Summarize(u, early).Some? && Summarize(u, late).Some?
    ensures Summarize(u, early).value.totalRun <= Summarize(u, late).value.totalRun
  {
    SummaryAsOfSimDate(u, early, s1);
    SummaryAsOfSimDate(u, late, s2);
    FrozenAfterSim(u, JoinDateOf(u), Some(s1), s2.month, s2.day);
    TotalsGrowWithSim(u, JoinDateOf(u), s1, s2, s2.month, s2.day);
  }

  /** One summary per runner, in roster order; None when building any of them fails. */
  function UserSummaries(users: seq<User>, simDate: string): (r: Option<seq<UserStatsSummary>>)
    ensures users == [] ==> r == Some([])
    ensures users != [] ==> (r.None? <==> ParseLocalDate(simDate).None?)
    ensures r.Some? ==> |r.value| == |users|
    ensures r.Some? ==> forall i :: 0 <= i < |users| ==> Summarize(users[i], simDate) == Some(r.value[i])
  {
    if users == [] then Some([])
    else
      match Summarize(users[0], simDate)
      case None => None
      case Some(s) =>
        match UserSummaries(users[1..], simDate)
        case None => None
        case Some(rest) => Some([s] + rest)
  }

  // ---------------------------------------------------------------------------
  // teamTotalDebt and highestDebtor
  // ---------------------------------------------------------------------------

  /** The team's total debt: the runners' current debts added up, left to right from 0. */
  function TeamTotalDebt(summaries: seq<UserStatsSummary>): int {
    if summaries == [] then 0
    else TeamTotalDebt(summaries[..|summaries| - 1]) + summaries[|summaries| - 1].currentDebt
  }

  /**
   * With no negative debt, the team total is at least every member's debt, and
   * it is zero exactly when nobody owes anything.
   */
  lemma {:induction false} TeamTotalDebtBounds(summaries: seq<UserStatsSummary>)
    requires forall i :: 0 <= i < |summaries| ==> summaries[i].currentDebt >= 0
    ensures forall i :: 0 <= i < |summaries| ==> summaries[i].currentDebt <= TeamTotalDebt(summaries)
    ensures TeamTotalDebt(summaries) == 0 <==> forall i :: 0 <= i < |summaries| ==> summaries[i].currentDebt == 0
  {
    if summaries != [] {
      var init := summaries[..|summaries| - 1];
      TeamTotalDebtBounds(init);
      assert forall i :: 0 <= i < |init| ==> init[i] == summaries[i];
    }
  }

  /**
   * The team total of a roster's summaries is at least each member's debt and
   * is zero exactly when nobody owes anything.
   */
  lemma RosterTeamDebt(users: seq<User>, simDate: string)
    requires UserSummaries(users, simDate).Some?
    ensures var s := UserSummaries(users, simDate).value;
      (forall i :: 0 <= i < |s| ==> 0 <= s[i].currentDebt <= TeamTotalDebt(s)) &&
      (TeamTotalDebt(s) == 0 <==> forall i :: 0 <= i < |s| ==> s[i].currentDebt == 0)
  {
    var s := UserSummaries(users, simDate).value;
    assert forall i :: 0 <= i < |s| ==> s[i].currentDebt >= 0 by {
      forall i | 0 <= i < |s|
        ensures s[i].currentDebt >= 0
      {
        assert Summarize(users[i], simDate) == Some(s[i]);
      }
    }
    TeamTotalDebtBounds(s);
  }

  /**
   * The position of the highest debtor: the head of a copy of the summaries sorted
   * by debt, largest first. The sort is stable, so the head is the first summary
   * of largest debt.
   */
  function HighestDebtorIndex(summaries: seq<UserStatsSummary>): (r: Option<nat>)
    ensures r.None? <==> summaries == []
    ensures r.Some? ==> r.value < |summaries|
    ensures r.Some? ==> forall k :: 0 <= k < |summaries| ==> summaries[k].currentDebt <= summaries[r.value].currentDebt
    ensures r.Some? ==> forall k :: 0 <= k < r.value ==> summaries[k].currentDebt < summaries[r.value].currentDebt
  {
    if summaries == [] then None
    else
      var last := |summaries| - 1;
      match HighestDebtorIndex(summaries[..last])
      case None => Some(0)
      case Some(i) => if summaries[last].currentDebt > summaries[i].currentDebt then Some(last) else Some(i)
  }

  /** highestDebtor; None for the `undefined` of an empty roster. */
  function HighestDebtor(summaries: seq<UserStatsSummary>): (r: Option<UserStatsSummary>)
    ensures r.None? <==> summaries == []
    ensures r.Some? ==> r.value in summaries
    ensures r.Some? ==> forall k :: 0 <= k < |summaries| ==> summaries[k].currentDebt <= r.value.currentDebt
  {
    match HighestDebtorIndex(summaries)
    case None => None
    case Some(i) => Some(summaries[i])
  }

  // ---------------------------------------------------------------------------
  // Copy-on-write roster updates
  // ---------------------------------------------------------------------------

  /** A new roster in which the runner with that id has its logs transformed by f. */
  function UpdateLogs(users: seq<User>, userId: string, f: seq<LogEntry> -> seq<LogEntry>): (r: seq<User>)
    ensures |r| == |users|
    ensures forall i :: 0 <= i < |users| ==>
      r[i] == if users[i].id == userId then users[i].(logs := f(users[i].logs)) else users[i]
  {
    if users == [] then []
    else
      [if users[0].id == userId then users[0].(logs := f(users[0].logs)) else users[0]]
        + UpdateLogs(users[1..], userId, f)
  }

  /** Every entry with the edited id takes the new date and distance; the rest are kept. */
  function EditLogs(logs: seq<LogEntry>, editId: string, date: string, distance: int): (r: seq<LogEntry>)
    ensures |r| == |logs|
  {
    if logs == [] then []
    else
      [if logs[0].id == editId then logs[0].(distance := distance, date := date) else logs[0]]
        + EditLogs(logs[1..], editId, date, distance)
  }

  /**
   * Only the entries of that id change, and only in date and distance: ids,
   * count and order stay as they were.
   */
  lemma {:induction false} EditLogsShape(logs: seq<LogEntry>, editId: string, date: string, distance: int)
    ensures var r := EditLogs(logs, editId, date, distance);
      (forall i :: 0 <= i < |logs| ==> r[i].id == logs[i].id) &&
      (forall i :: 0 <= i < |logs| && logs[i].id != editId ==> r[i] == logs[i]) &&
      (forall i :: 0 <= i < |logs| && logs[i].id == editId ==> r[i].date == date && r[i].distance == distance)
  {
    if logs != [] {
      var r := EditLogs(logs, editId, date, distance);
      EditLogsShape(logs[1..], editId, date, distance);
      assert r[1..] == EditLogs(logs[1..], editId, date, distance);
      forall i | 1 <= i < |logs|
        ensures r[i] == r[1..][i - 1] && logs[i] == logs[1..][i - 1]
      {
      }
    }
  }

  /** The log without the entries that have that id. */
  function DeleteLogs(logs: seq<LogEntry>, id: string): (r: seq<LogEntry>)
    ensures |r| <= |logs|
  {
    if logs == [] then []
    else (if logs[0].id != id then [logs[0]] else []) + DeleteLogs(logs[1..], id)
  }

  /** How many entries carry that id. */
  function CountId(logs: seq<LogEntry>, id: string): nat {
    if logs == [] then 0 else (if logs[0].id == id then 1 else 0) + CountId(logs[1..], id)
  }

  /** The filter keeps exactly the entries of another id, and drops one entry per entry of that id. */
  lemma {:induction false} DeleteLogsMembers(logs: seq<LogEntry>, id: string)
    ensures forall l :: l in DeleteLogs(logs, id) <==> l in logs && l.id != id
    ensures |DeleteLogs(logs, id)| == |logs| - CountId(logs, id)
  {
    if logs != [] {
      DeleteLogsMembers(logs[1..], id);
      assert logs == [logs[0]] + logs[1..];
    }
  }

  /** The filter keeps the order of what it keeps: it distributes over concatenation. */
  lemma {:induction false} DeleteLogsAppend(a: seq<LogEntry>, b: seq<LogEntry>, id: string)
    ensures DeleteLogs(a + b, id) == DeleteLogs(a, id) + DeleteLogs(b, id)
  {
    if a == [] {
      assert a + b == b;
    } else {
      assert (a + b)[0] == a[0] && (a + b)[1..] == a[1..] + b;
      DeleteLogsAppend(a[1..], b, id);
    }
  }

  /** Without an entry of that id, deleting changes nothing. */
  lemma {:induction false} DeleteLogsAbsent(logs: seq<LogEntry>, id: string)
    requires forall k :: 0 <= k < |logs| ==> logs[k].id != id
    ensures DeleteLogs(logs, id) == logs
  {
    if logs != [] {
      DeleteLogsAbsent(logs[1..], id);
    }
  }

  /** Without an entry of that id, editing changes nothing. */
  lemma {:induction false} EditLogsAbsent(logs: seq<LogEntry>, editId: string, date: string, distance: int)
    requires forall k :: 0 <= k < |logs| ==> logs[k].id != editId
    ensures EditLogs(logs, editId, date, distance) == logs
  {
    if logs != [] {
      EditLogsAbsent(logs[1..], editId, date, distance);
    }
  }

  /** The appended entry of handleAddOrUpdateRun (add mode). */
  function AddRun(users: seq<User>, userId: string, entry: LogEntry): (r: seq<User>)
    ensures |r| == |users|
    ensures forall i :: 0 <= i < |users| && users[i].id != userId ==> r[i] == users[i]
    ensures forall i :: 0 <= i < |users| && users[i].id == userId ==>
      r[i].id == users[i].id && r[i].name == users[i].name && r[i].joinDate == users[i].joinDate &&
      r[i].logs == users[i].logs + [entry]
  {
    UpdateLogs(users, userId, logs => logs + [entry])
  }

  /** The in-place edit of handleAddOrUpdateRun (edit mode). */
  function EditRun(users: seq<User>, userId: string, editId: string, date: string, distance: int): (r: seq<User>)
    ensures |r| == |users|
    ensures forall i :: 0 <= i < |users| && users[i].id != userId ==> r[i] == users[i]
    ensures forall i :: 0 <= i < |users| && users[i].id == userId ==>
      r[i] == users[i].(logs := EditLogs(users[i].logs, editId, date, distance))
  {
    UpdateLogs(users, userId, logs => EditLogs(logs, editId, date, distance))
  }

  /** onDelete: remove the entries of that id from the selected user. */
  function DeleteRun(users: seq<User>, userId: string, logId: string): (r: seq<User>)
    ensures |r| == |users|
    ensures forall i :: 0 <= i < |users| && users[i].id != userId ==> r[i] == users[i]
    ensures forall i :: 0 <= i < |users| && users[i].id == userId ==>
      r[i] == users[i].(logs := DeleteLogs(users[i].logs, logId))
  {
    UpdateLogs(users, userId, logs => DeleteLogs(logs, logId))
  }

  /** Adding a run under a fresh id and then deleting that id gives the roster back. */
  lemma AddThenDelete(users: seq<User>, userId: string, entry: LogEntry)
    requires forall i, k :: 0 <= i < |users| && users[i].id == userId && 0 <= k < |users[i].logs|
                            ==> users[i].logs[k].id != entry.id
    ensures DeleteRun(AddRun(users, userId, entry), userId, entry.id) == users
  {
    var added := AddRun(users, userId, entry);
    var r := DeleteRun(added, userId, entry.id);
    forall i | 0 <= i < |users|
      ensures r[i] == users[i]
    {
      if users[i].id == userId {
        DeleteLogsAppend(users[i].logs, [entry], entry.id);
        DeleteLogsAbsent(users[i].logs, entry.id);
      }
    }
  }

  /** The id of a new log entry: the clock reading in decimal. */
  function LogIdAt(now: nat): string {
    DecimalString(now)
  }

  /** The id of a new runner: "user-" followed by the clock reading in decimal. */
  function UserIdAt(now: nat): string {
    "user-" + DecimalString(now)
  }

  /** `editingLogId` is truthy: neither null nor the empty string. */
  predicate IsEditing(editingLogId: Option<string>) {
    editingLogId.Some? && editingLogId.value != ""
  }

  /** parseFloat gave a number (not NaN) that is not negative. */
  predicate AcceptedDistance(distance: Option<int>) {
    distance.Some? && distance.value >= 0
  }

  /**
   * The roster after handleAddOrUpdateRun. `distance` is what parseFloat read
   * from the form (None for NaN), `now` the clock reading that names a new
   * entry.
   */
  function AddOrUpdateRun(users: seq<User>, addRunUser: string, editingLogId: Option<string>,
                          addRunDate: string, distance: Option<int>, now: nat): seq<User>
  {
    if !AcceptedDistance(distance) then users
    else if IsEditing(editingLogId) then EditRun(users, addRunUser, editingLogId.value, addRunDate, distance.value)
    else AddRun(users, addRunUser, LogEntry(LogIdAt(now), addRunDate, distance.value))
  }

  /**
   * What the reports see of an added run: the chosen user's run on the entry's
   * date grows by its distance, every other day and every other user is as before.
   */
  lemma AddRunRaisesDayRun(users: seq<User>, userId: string, entry: LogEntry, i: int, date: string)
    requires 0 <= i < |users|
    ensures DayRun(AddRun(users, userId, entry)[i].logs, date)
            == DayRun(users[i].logs, date) + (if users[i].id == userId && entry.date == date then entry.distance else 0)
  {
    if users[i].id == userId {
      DayRunAppend(users[i].logs, [entry], date);
      DayRunCons([entry], date);
    }
  }

  /**
   * What the reports see of an edit: the entries of that id leave the day they
   * had and each brings the new distance to the new date.
   */
  lemma {:induction false} EditLogsMovesRun(logs: seq<LogEntry>, id: string, date: string, distance: int, day: string)
    ensures date != day ==> DayRun(EditLogs(logs, id, date, distance), day) == DayRun(DeleteLogs(logs, id), day)
    ensures date == day ==>
      DayRun(EditLogs(logs, id, date, distance), day) == DayRun(DeleteLogs(logs, id), day) + CountId(logs, id) * distance
  {
    if logs != [] {
      var rest := logs[1..];
      var e := EditLogs(logs, id, date, distance);
      var kept := DeleteLogs(logs, id);
      var c := CountId(rest, id);
      EditLogsMovesRun(rest, id, date, distance, day);
      assert e[1..] == EditLogs(rest, id, date, distance);
      DayRunCons(e, day);
      if logs[0].id == id {
        assert kept == DeleteLogs(rest, id);
        assert e[0].date == date && e[0].distance == distance;
        MulStep(c, distance);
      } else {
        assert e[0] == logs[0];
        assert kept == [logs[0]] + DeleteLogs(rest, id);
        assert kept[1..] == DeleteLogs(rest, id);
        DayRunCons(kept, day);
      }
    }
  }

  /** One more entry of distance x adds x. */
  lemma MulStep(c: nat, x: int)
    ensures (c + 1) * x == c * x + x
  {
  }

  /** Every logged distance of every user is non-negative. */
  predicate NonNegativeRoster(users: seq<User>) {
    forall i :: 0 <= i < |users| ==> NonNegativeLogs(users[i].logs)
  }

  /** handleAddOrUpdateRun refuses negative distances, so it keeps the roster non-negative. */
  lemma AddOrUpdateRunKeepsNonNegative(users: seq<User>, addRunUser: string, editingLogId: Option<string>,
                                       addRunDate: string, distance: Option<int>, now: nat)
    requires NonNegativeRoster(users)
    ensures NonNegativeRoster(AddOrUpdateRun(users, addRunUser, editingLogId, addRunDate, distance, now))
  {
    var r := AddOrUpdateRun(users, addRunUser, editingLogId, addRunDate, distance, now);
    forall i | 0 <= i < |r|
      ensures NonNegativeLogs(r[i].logs)
    {
      if AcceptedDistance(distance) && users[i].id == addRunUser {
        if IsEditing(editingLogId) {
          var e := EditLogs(users[i].logs, editingLogId.value, addRunDate, distance.value);
          EditLogsShape(users[i].logs, editingLogId.value, addRunDate, distance.value);
          assert forall k :: 0 <= k < |e| ==> e[k].distance >= 0;
        } else {
          var a := users[i].logs + [LogEntry(LogIdAt(now), addRunDate, distance.value)];
          assert forall k :: 0 <= k < |a| ==> a[k].distance >= 0;
        }
      }
    }
  }

  lemma DeleteRunKeepsNonNegative(users: seq<User>, userId: string, logId: string)
    requires NonNegativeRoster(users)
    ensures NonNegativeRoster(DeleteRun(users, userId, logId))
  {
    var r := DeleteRun(users, userId, logId);
    forall i | 0 <= i < |r|
      ensures NonNegativeLogs(r[i].logs)
    {
      var kept := r[i].logs;
      DeleteLogsMembers(users[i].logs, logId);
      forall k | 0 <= k < |kept|
        ensures kept[k].distance >= 0
      {
        assert kept[k] in users[i].logs;
      }
    }
  }

  // ---------------------------------------------------------------------------
  // handleCreateUser
  // ---------------------------------------------------------------------------

  /** The characters String.prototype.trim removes. */
  predicate IsWhitespace(c: char) {
    c == ' ' || c == '\t' || c == '\n' || c == '\U{000B}' || c == '\U{000C}' || c == '\r'
    || c == '\U{00A0}' || c == '\U{1680}' || ('\U{2000}' <= c <= '\U{200A}')
    || c == '\U{2028}' || c == '\U{2029}' || c == '\U{202F}' || c == '\U{205F}'
    || c == '\U{3000}' || c == '\U{FEFF}'
  }

  function TrimStart(s: string): (r: string)
    ensures |r| <= |s| && r == s[|s| - |r|..]
    ensures r == [] || !IsWhitespace(r[0])
    ensures forall k :: 0 <= k < |s| - |r| ==> IsWhitespace(s[k])
  {
    if s != [] && IsWhitespace(s[0]) then TrimStart(s[1..]) else s
  }

  function TrimEnd(s: string): (r: string)
    ensures |r| <= |s| && r == s[..|r|]
    ensures r == [] || !IsWhitespace(r[|r| - 1])
    ensures forall k :: |r| <= k < |s| ==> IsWhitespace(s[k])
  {
    if s != [] && IsWhitespace(s[|s| - 1]) then TrimEnd(s[..|s| - 1]) else s
  }

  /** s.trim() */
  function Trim(s: string): string {
    TrimEnd(TrimStart(s))
  }

  /** Nothing but whitespace (or nothing at all). */
  predicate IsBlank(s: string) {
    forall k :: 0 <= k < |s| ==> IsWhitespace(s[k])
  }

  /** trim() leaves nothing exactly when the text is blank. */
  lemma TrimBlank(s: string)
    ensures Trim(s) == "" <==> IsBlank(s)
  {
  }

  /** A trimmed text has no whitespace at either end, so trimming again changes nothing. */
  lemma TrimIdempotent(s: string)
    ensures var t := Trim(s); t == [] || (!IsWhitespace(t[0]) && !IsWhitespace(t[|t| - 1]))
    ensures Trim(Trim(s)) == Trim(s)
  {
    var a := TrimStart(s);
    var t := TrimEnd(a);
    if t != [] {
      assert t[0] == a[0];
    }
    assert TrimStart(t) == t;
  }

  /** The roster after handleCreateUser. */
  function CreateUser(users: seq<User>, newUserName: string, newUserJoinDate: string, now: nat): seq<User> {
    if Trim(newUserName) == "" then users
    else users + [User(UserIdAt(now), Trim(newUserName), newUserJoinDate, [])]
  }

  /**
   * A blank name changes nothing; any other name appends exactly one user,
   * with no logs, the given join date, and the name without surrounding
   * whitespace, which is therefore neither empty nor padded.
   */
  lemma CreatedUser(users: seq<User>, newUserName: string, newUserJoinDate: string, now: nat)
    ensures IsBlank(newUserName) ==> CreateUser(users, newUserName, newUserJoinDate, now) == users
    ensures !IsBlank(newUserName) ==>
      var r := CreateUser(users, newUserName, newUserJoinDate, now);
      |r| == |users| + 1 && r[..|users|] == users &&
      r[|users|].id == UserIdAt(now) && r[|users|].joinDate == newUserJoinDate && r[|users|].logs == [] &&
      r[|users|].name == Trim(newUserName) &&
      r[|users|].name != "" && r[|users|].name == Trim(r[|users|].name) &&
      !IsWhitespace(r[|users|].name[0]) && !IsWhitespace(r[|users|].name[|r[|users|].name| - 1])
  {
    TrimBlank(newUserName);
    if !IsBlank(newUserName) {
      TrimIdempotent(newUserName);
      var name := Trim(newUserName);
      var r := users + [User(UserIdAt(now), name, newUserJoinDate, [])];
      assert CreateUser(users, newUserName, newUserJoinDate, now) == r;
      assert r[..|users|] == users;
    }
  }

  // ---------------------------------------------------------------------------
  // The component state the handlers replace
  // ---------------------------------------------------------------------------

  class Roster {
    var users: seq<User>
    var selectedUserId: string
    var addRunUser: string
    var addRunDate: string
    var editingLogId: Option<string>

    /** No logged distance is negative: handleAddOrUpdateRun refuses them. */
    predicate Valid()
      reads this
    {
      NonNegativeRoster(users)
    }

    constructor ()
      ensures Valid()
      ensures users == InitialUsers() && selectedUserId == "all" && addRunUser == InitialUsers()[0].id
      ensures addRunDate == InitialDate && editingLogId == None
    {
      users := InitialUsers();
      selectedUserId := "all";
      addRunUser := InitialUsers()[0].id;
      addRunDate := InitialDate;
      editingLogId := None;
    }

    /** handleAddOrUpdateRun (App.tsx:99-116). */
    method AddOrUpdate(distance: Option<int>, now: nat)
      requires Valid()
      modifies this
      ensures Valid()
      ensures users == AddOrUpdateRun(old(users), old(addRunUser), old(editingLogId), old(addRunDate), distance, now)
      ensures editingLogId == if AcceptedDistance(distance) then None else old(editingLogId)
      ensures selectedUserId == old(selectedUserId) && addRunUser == old(addRunUser) && addRunDate == old(addRunDate)
    {
      if !AcceptedDistance(distance) {
        return;
      }
      AddOrUpdateRunKeepsNonNegative(users, addRunUser, editingLogId, addRunDate, distance, now);
      users := AddOrUpdateRun(users, addRunUser, editingLogId, addRunDate, distance, now);
      editingLogId := None;
    }

    /** handleCreateUser (App.tsx:118-134). */
    method CreateNewUser(newUserName: string, newUserJoinDate: string, now: nat)
      requires Valid()
      modifies this
      ensures Valid()
      ensures users == CreateUser(old(users), newUserName, newUserJoinDate, now)
      ensures Trim(newUserName) == "" ==> selectedUserId == old(selectedUserId) && addRunUser == old(addRunUser)
      ensures Trim(newUserName) != "" ==> selectedUserId == UserIdAt(now) && addRunUser == UserIdAt(now)
      ensures addRunDate == old(addRunDate) && editingLogId == old(editingLogId)
    {
      if Trim(newUserName) == "" {
        return;
      }
      var newUser := User(UserIdAt(now), Trim(newUserName), newUserJoinDate, []);
      users := users + [newUser];
      selectedUserId := newUser.id;
      addRunUser := newUser.id;
    }

    /** onEdit (App.tsx:253): load an entry of the selected user into the form. */
    method BeginEdit(log: LogEntry)
      requires Valid()
      modifies this
      ensures Valid()
      ensures addRunUser == old(selectedUserId) && addRunDate == log.date && editingLogId == Some(log.id)
      ensures users == old(users) && selectedUserId == old(selectedUserId)
    {
      addRunUser := selectedUserId;
      addRunDate := log.date;
      editingLogId := Some(log.id);
    }

    /** onDelete (App.tsx:254): drop the entries of that id from the selected user. */
    method DeleteLog(logId: string)
      requires Valid()
      modifies this
      ensures Valid()
      ensures users == DeleteRun(old(users), old(selectedUserId), logId)
      ensures selectedUserId == old(selectedUserId) && addRunUser == old(addRunUser)
      ensures addRunDate == old(addRunDate) && editingLogId == old(editingLogId)
    {
      DeleteRunKeepsNonNegative(users, selectedUserId, logId);
      users := DeleteRun(users, selectedUserId, logId);
    }
  }
}
