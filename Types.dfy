// Records shared by the report engine and the roster (types.ts).
// Every distance and target is an integer number of hundredths of a kilometre,
// so the two-decimal rounding the source applies with toFixed(2) is exact.
module Types {

  datatype Option<+T> = None | Some(value: T)

  /** One recorded run: the date is the `YYYY-MM-DD` text the form produced. */
  datatype LogEntry = LogEntry(id: string, date: string, distance: int)

  /** A tracked participant; an empty joinDate means "from the program start". */
  datatype User = User(id: string, name: string, joinDate: string, logs: seq<LogEntry>)

  /** One day's derived figures for one participant, as of a simulation date. */
  datatype DailyReport = DailyReport(
    date: string,
    target: int,
    run: int,
    debtAdded: int,
    debtCleared: int,
    cumulativeDebt: int,
    cumulativeTarget: int,
    cumulativeRun: int)

  datatype Status = Clear | Debt

  datatype UserStatsSummary = UserStatsSummary(
    id: string,
    name: string,
    totalRun: int,
    currentDebt: int,
    status: Status,
    reports: seq<DailyReport>)

  /** Math.max(0, x) */
  function Max0(x: int): (r: int)
    ensures r >= 0 && r >= x
    ensures r == x || r == 0
  {
    if x > 0 then x else 0
  }
}
