# Running-debt tracker: the debt accounting engine and the roster

A small dashboard follows a group of runners through 2026. Each runner has a
daily target. On day *d* of month *m* the target is *m* + 0.1·*d* km. The
shortfall carries forward as "debt" until later running pays it off. This
project models two parts of that dashboard in Dafny:

- **The engine (logic.ts).** `generateUserReports` walks every day of 2026. It
  adds each day's target and run to two running totals, but only for days from
  the runner's join date up to the simulation date. It returns one report per
  day of the simulation month. `parseLocalDate` and `getDaysBetween` handle the
  `YYYY-MM-DD` dates.
- **The roster logic of the App component (App.tsx).** This covers:
  - the per-runner summaries, the team's total debt and the highest debtor;
  - the `MONTHLY_TARGETS` table;
  - the copy-on-write updates made by the add/edit-run, create-runner and
    delete-run handlers.

## Representation

- **Distances and targets** are integers, in hundredths of a km. The daily
  target is then `100*m + 10*d`, and every `toFixed(2)` rounding in the source
  is exact. The 0.05 km DEBT threshold is `5`.
- **Dates** are `(year, month, day)` triples (`Dates.Date`), compared
  lexicographically (`Dates.LessEq`). `Dates.LexOrderIsDayOrder` proves this
  is the order of their day numbers, which is what comparing two `Date`
  objects at logic.ts:51 amounts to. An Invalid Date is `None`.
- **Files:**
  - `Types.dfy` holds the records of types.ts.
  - `Dates.dfy` holds the calendar, the `YYYY-MM-DD` text, `parseLocalDate` and
    `getDaysBetween`.
  - `Logic.dfy` holds the engine.
  - `ReportFacts.dfy` holds what the engine's output satisfies.
  - `App.dfy` holds the App component's logic and the `Roster` class of its
    state fields.
- **The engine** is specified by `Logic.TotalsThrough` (the two accumulators
  after a given day) and `Logic.Reports` (the returned list).
  `Logic.GenerateUserReports` is the nested loop of the source, and it is
  proved to return `Reports`. Everything in `ReportFacts` is proved about
  `Reports`, so it holds of the loop's result too.
- **The roster updates** are pure functions. The `App.Roster` class holds
  `users`, `selectedUserId`, `addRunUser`, `addRunDate` and `editingLogId`, and
  its methods replace them the way the handlers' `set…` calls do.
- **Inputs the component reads from outside:**
  - the clock reading behind the `Date.now()` ids is a parameter `now`;
  - the distance typed into the form is passed already parsed, as
    `Option<int>` with `None` for NaN.

### Design choices the code makes

- **The join date also gates the run.** Run volume could have been counted from
  January 1 whatever the join date. The code instead adds the run only inside
  the same join/simulation window as the target (logic.ts:51-54). The model
  does the same: `Logic.TotalsThrough` gates both totals, and
  `ReportFacts.ReportsBeforeJoin` shows a runner who has not joined yet has a
  cumulative run of zero.
- **No consistency ratio.** A consistency figure, the share of days since
  joining on which a run was logged, could have been part of each summary. The
  summaries built at App.tsx:71-86 carry only the runner's id and name, total
  run, current debt, status and reports, so the model has no such figure either.

## Model

| member | source | states |
|---|---|---|
| Types.Max0 | logic.ts:56 | `Math.max(0, x)` is non-negative, at least x, and equals x or 0 |
| Dates.DaysInMonth | logic.ts:39 | a month has 28 to 31 days, and February has 29 days in leap years and 28 otherwise |
| Dates.YearLength | logic.ts:19-23 | a year adds 366 days to the day count in leap years and 365 otherwise |
| Dates.MonthLength | logic.ts:19-23 | a month adds its own length to the day count |
| Dates.DayNumberWithinYear | logic.ts:19-23 | a date's day number lies inside its year's span |
| Dates.NextDayNumber | logic.ts:38-41 | the day after a calendar date is a calendar date, one day number later and strictly later in the triple order |
| Dates.LexOrderIsDayOrder | logic.ts:51 | comparing triples lexicographically is comparing the instants of their dates; equal triples are equal days |
| Dates.EarlierDayNumber | logic.ts:51 | a strictly earlier calendar date has a smaller day number |
| Dates.DecimalStringDigits | logic.ts:42 | `String(n)` is a run of digits without a dash that `Number()` reads back as n, a single digit exactly when n < 10, and with no leading zero |
| Dates.Pad2Digits | logic.ts:42 | `padStart(2, '0')` gives at least two digits, no dash, worth n, and exactly two digits for n < 100 |
| Dates.Split | logic.ts:15 | `split('-')` always gives at least one field |
| Dates.SplitJoin | logic.ts:15 | the fields of `split('-')` contain no dash, and joining them with '-' gives the text back |
| Dates.SplitField | logic.ts:15 | a dash-free field followed by '-' splits off as the first field |
| Dates.ParseLocalDate | logic.ts:14-17 | a parse that succeeds gives a real calendar date; which text gives which date is stated by `Dates.ParseFields` |
| Dates.ParseFields | logic.ts:14-17 | text whose first three dash-separated fields are y, m and d (padded or not, with anything after a third dash) is a date exactly when the three fields are digits naming a calendar date, and then it is that date, a year below 100 counting from 1900 |
| Dates.SplitThree | logic.ts:15 | the first three fields of `split('-')` on such text are y, m and d |
| Dates.SplitCount | logic.ts:15 | `split('-')` gives one field more than the text has dashes |
| Dates.ParseNeedsTwoDashes | logic.ts:15-16 | text with fewer than two dashes lacks a field and is an Invalid Date |
| Dates.FullYear | logic.ts:16 | the year rule of the local `Date` constructor: a year 0..99 is 1900 + y, every other year is kept (used by `Dates.ParseFields`) |
| Logic.DayText | logic.ts:42 | a day's `2026-MM-DD` text; no lemma of its own: `ReportFacts.ReportDates` shows it parses back to its day, and `Dates.Pad2Digits` that month and day are two digits |
| Dates.FormatDate | logic.ts:42 | the engine's `YYYY-MM-DD` text; `Dates.ParseFormat` reads it back and `Dates.FormatInjective` shows distinct dates get distinct texts |
| Dates.ParseFormat | logic.ts:14-17 | parsing the `YYYY-MM-DD` text built for a calendar date gives that date back |
| Dates.FormatInjective | logic.ts:42 | two calendar dates get the same text only if they are the same date |
| Dates.GetDaysBetween | logic.ts:19-23 | a number of days comes out exactly when both texts parse |
| Dates.DaysBetweenSelf | logic.ts:19-23 | a date is 0 days from itself |
| Dates.DaysBetweenAntisymmetric | logic.ts:19-23 | swapping the two dates negates the count, and one order is defined exactly when the other is |
| Dates.DaysBetweenNextDay | logic.ts:19-23 | the texts of consecutive calendar days are 1 day apart |
| Dates.DaysBetweenSign | logic.ts:19-23 | the count is non-negative exactly when the first date is on or before the second |
| Logic.DaysIn2026 | logic.ts:39 | the length of each month of 2026; `Dates.DaysInMonth` bounds it and gives February 28 days, and `App.MonthlyTargetsAreMonthSums` checks all twelve against the table |
| Logic.DailyTarget | logic.ts:10-12 | the day's target in hundredths of a km; its values, range and steps are proved in `Logic.DailyTargetRange` |
| Logic.DailyTargetRange | logic.ts:4-12 | Jan 1 is 1.1 km, Feb 1 is 2.1 km and Dec 31 is 15.1 km; every target lies between those bounds and grows 0.1 km a day and 1 km a month |
| Logic.LogsOn | logic.ts:45 | the entries logged on a day; which ones is stated by `Logic.LogsOnMembers` |
| Logic.TotalDistance | logic.ts:46 | the sum of the distances of a list of entries, 0 for none |
| Logic.DayRun | logic.ts:45-46 | a day's run; `Logic.DayRunAppend`, `Logic.DayRunCons`, `Logic.DayRunPermutation` and `Logic.DayRunNonNegative` state its properties |
| Logic.LogsOnMembers | logic.ts:45 | the filter keeps exactly the entries dated that day |
| Logic.DayRunAppend | logic.ts:45-46 | a day's run over two lists of entries is the sum of their runs |
| Logic.DayRunCons | logic.ts:45-46 | each entry dated that day adds its distance, so same-day entries are summed |
| Logic.DayRunPermutation | logic.ts:45-46 | reordering the log does not change any day's run |
| Logic.DayRunNonNegative | logic.ts:46 | with no negative distance logged, a day's run is not negative |
| Logic.JoinDateOf | logic.ts:49 | the parsed join date with the fallback; `Logic.JoinDateFallback` ties it to the source's fallback text |
| Logic.Gated | logic.ts:51 | a day accrues when it lies between the join date and the simulation date, both included, and both are valid; `ReportFacts.NothingAccrues`, `ReportFacts.AccruesInWindow` and `ReportFacts.AccruesFromYearStart` state what that window adds up to |
| Logic.TotalsThrough | logic.ts:31-54 | the two accumulators after a given day, the reference for the loop; its values are stated by the `ReportFacts` accrual lemmas |
| Logic.ReportFor | logic.ts:56-68 | the report of one day; `ReportFacts.ReportDebts` states its debt fields |
| Logic.Reports | logic.ts:25-75 | the list the engine returns; `ReportFacts.ReportsShape` states its length, dates and fields |
| Logic.JoinDateFallback | logic.ts:49 | an empty join date is read as `2026-01-01` |
| Logic.MonthReports | logic.ts:58-70 | a month of n days gives n reports |
| Logic.HandleDay | logic.ts:41-70 | one iteration of the inner loop advances the totals to `TotalsThrough` of that day, and pushes that day's report exactly when the day is in the simulation month |
| Logic.GenerateUserReports | logic.ts:25-75 | the loop returns `Reports(user, simDate)` |
| ReportFacts.MonthReportsAt | logic.ts:58-70 | the i-th report is the report of day i + 1 |
| ReportFacts.ReportsShape | logic.ts:38-70 | no report for an invalid simulation date; otherwise one report per day of the simulation month, dated `2026-MM-DD`, with the day's target and run and the totals through that day |
| ReportFacts.ReportDebts | logic.ts:56-66 | `debtAdded` and `debtCleared` are non-negative, at most one is positive, and their difference is target minus run; the cumulative debt is max(0, cumulative target − cumulative run) |
| ReportFacts.ReportDates | logic.ts:41-42 | each report's date parses back to its day of 2026, and consecutive reports are 1 day apart |
| ReportFacts.NothingAccrues | logic.ts:51-54 | with the join date after the day, or after the simulation date, or invalid, nothing has accrued |
| ReportFacts.AccruesInWindow | logic.ts:51-53 | inside the window, the totals are the sums of the daily targets and runs from the join day to that day |
| ReportFacts.AccruesFromYearStart | logic.ts:49-54 | with a join date on or before January 1, 2026, every day from January 1 to the simulation date counts: the totals are the year-to-date sums |
| ReportFacts.FrozenAfterSim | logic.ts:51-54 | on the days after the simulation date the totals stay those of the simulation date |
| ReportFacts.TotalsGrow | logic.ts:51-54 | with no negative distance, both totals are non-decreasing within a month |
| ReportFacts.TotalsGrowWithSim | logic.ts:51-54 | with no negative distance, a later simulation date never gives lower totals on any day |
| ReportFacts.ReportsGrow | logic.ts:51-68 | with no negative distance, cumulative target and run never decrease along the reports |
| ReportFacts.MonthReportsGrow | logic.ts:51-68 | with no negative distance, a month's reports never decrease in cumulative target or run |
| ReportFacts.ReportsBeforeJoin | logic.ts:49-56 | when the join date is after the simulation date or invalid, every report has zero cumulative target, run and debt |
| ReportFacts.TotalsCongruent | logic.ts:45-53 | the totals depend on the log only through each day's run |
| ReportFacts.MonthReportsCongruent | logic.ts:44-70 | the reports depend on the log only through each day's run |
| ReportFacts.ReportsCongruent | logic.ts:25-75 | two runners with the same id, name, join date and daily runs get the same reports |
| ReportFacts.ReportsPermutation | logic.ts:45-46 | reordering a runner's log does not change the reports |
| ReportFacts.ReportsIgnoreOffYearLog | logic.ts:42-46 | an entry whose date is not a 2026 date changes no report |
| App.MonthlyTargets | App.tsx:36-49 | the table of twelve monthly targets in hundredths; `App.MonthlyTargetsAreMonthSums` shows each is its month's sum of daily targets |
| App.MonthTargetSumClosed | logic.ts:10-12 | the targets of days 1..n of month m add up to 100·m·n + 5·n·(n+1) hundredths |
| App.MonthlyTargetsAreMonthSums | App.tsx:36-49 | every `MONTHLY_TARGETS` entry is the sum of its month's daily targets in 2026 (Jan 80.6 km, Feb 96.6 km) |
| App.MonthlyTargetClosed | App.tsx:36-49 | the table entries agree with the closed form of a month's sum |
| App.MonthTargetAccrues | logic.ts:44-53 | while a month is inside the window, its first d days add the sum of their daily targets to the cumulative target |
| App.MonthChargesTableTarget | App.tsx:36-49 | a month lying wholly inside the window adds exactly its table entry to the cumulative target |
| App.FindReportIndex | App.tsx:73 | `findIndex` gives the first report with that date, or none when no report has it |
| App.LatestIndex | App.tsx:73-74 | `latest` is undefined exactly when there are no reports; otherwise it is the report dated `simDate`, or the last report when none is |
| App.Summarize | App.tsx:72-84 | the summary exists exactly when `simDate` parses; it keeps the runner's id and name and the engine's reports; its debt is non-negative; its status is DEBT exactly when the debt exceeds 0.05 km |
| App.SummaryAsOfSimDate | App.tsx:73-80 | for a 2026 simulation date the summary shows the run and debt accumulated through the simulation date, whether or not a report has its exact text |
| App.LatestDay | App.tsx:73-74 | `latest` is the report of the simulation day, or of the month's last day |
| App.SimDayTotals | logic.ts:51-54 | the month's last day carries the totals of the simulation day |
| App.SummaryRunGrows | App.tsx:72-80 | with no negative distance, a later 2026 simulation date never shows a runner a smaller total run |
| App.SummaryOffYear | App.tsx:73-80 | for a simulation date of another year no report has its text, so the summary shows the run and debt accumulated through the last day of its month of 2026 |
| App.SummaryBeforeJoin | App.tsx:72-82 | a runner who has not joined by the simulation date shows zero run and zero debt, and the status CLEAR |
| App.UserSummaries | App.tsx:71-86 | one summary per runner, in roster order; it fails (the TypeError on `latest`) exactly when the roster is non-empty and `simDate` does not parse |
| App.TeamTotalDebt | App.tsx:88 | the sum of the summaries' debts; `App.TeamTotalDebtBounds` and `App.RosterTeamDebt` state its bounds |
| App.TeamTotalDebtBounds | App.tsx:88 | with no negative debt, the team total is at least each runner's debt, and it is 0 exactly when nobody owes anything |
| App.RosterTeamDebt | App.tsx:88 | for any roster's summaries the team total is at least each debt, and it is 0 exactly when every debt is 0 |
| App.HighestDebtorIndex | App.tsx:89-91 | the head of the stable descending sort: a runner whose debt is at least everyone's, and no one before them has as much |
| App.HighestDebtor | App.tsx:89-91 | undefined exactly for an empty roster; otherwise a member of the summaries with the largest debt |
| App.UpdateLogs | App.tsx:104-112 | `prev.map`: the runner with that id gets its logs transformed and every other runner is unchanged |
| App.EditLogs | App.tsx:106-107 | the log keeps its length |
| App.EditLogsShape | App.tsx:106-107 | only entries with the edited id change, and only in date and distance; every id and the order are kept |
| App.DeleteLogs | App.tsx:254 | the filter never lengthens the log |
| App.DeleteLogsMembers | App.tsx:254 | the filter keeps exactly the entries with another id and removes one entry for each entry with that id |
| App.DeleteLogsAppend | App.tsx:254 | the filter keeps the order of what it keeps |
| App.DeleteLogsAbsent | App.tsx:254 | deleting an id no entry has changes nothing |
| App.EditLogsAbsent | App.tsx:106-107 | editing an id no entry has changes nothing |
| App.AddRun | App.tsx:104-110 | add mode appends exactly the new entry to the chosen runner's log; every other runner and all of the chosen runner's other fields are unchanged |
| App.EditRun | App.tsx:104-108 | edit mode touches only the chosen runner's log |
| App.DeleteRun | App.tsx:254 | the delete touches only the selected runner's log |
| App.AddThenDelete | App.tsx:109 | adding a run under a fresh id and then deleting that id gives the roster back |
| App.AddRunRaisesDayRun | App.tsx:109 | the added run raises the chosen runner's run on its date by its distance; no other day or runner changes |
| App.EditLogsMovesRun | App.tsx:107 | an edit takes the edited entries off their old days and puts the new distance on the new date, once per entry |
| App.LogIdAt | App.tsx:109 | the id of a new entry, the clock reading in decimal; `App.AddThenDelete` shows deleting an id no entry had undoes the add |
| App.UserIdAt | App.tsx:123 | the id of a new runner, `user-` and the clock reading; `App.CreatedUser` and `App.Roster.CreateNewUser` show the new runner gets it and is selected |
| App.IsEditing | App.tsx:106 | an edit is in progress when `editingLogId` is truthy, neither null nor empty; `App.Roster.AddOrUpdate` states what each case does |
| App.AcceptedDistance | App.tsx:102 | the guard: a distance is used only when it is a number and not negative; `App.AddOrUpdateRunKeepsNonNegative` shows no negative distance gets in |
| App.AddOrUpdateRun | App.tsx:99-113 | the roster after the handler: unchanged for NaN or a negative distance, else `App.EditRun` when an edit is in progress and `App.AddRun` with a new entry otherwise; `App.AddOrUpdateRunKeepsNonNegative` states what it keeps |
| App.AddOrUpdateRunKeepsNonNegative | App.tsx:101-113 | since negative distances are refused, no update introduces one |
| App.DeleteRunKeepsNonNegative | App.tsx:254 | deleting never introduces a negative distance |
| App.Trim | App.tsx:120-124 | `trim()`: both ends stripped; `App.TrimBlank` and `App.TrimIdempotent` state its result |
| App.TrimStart | App.tsx:120 | `trim` takes a prefix of whitespace off the start and stops at the first other character |
| App.TrimEnd | App.tsx:120 | `trim` takes a suffix of whitespace off the end and stops at the last other character |
| App.TrimBlank | App.tsx:120 | `trim()` leaves nothing exactly when the name is blank |
| App.TrimIdempotent | App.tsx:124 | a trimmed name has no whitespace at either end, so trimming it again changes nothing |
| App.CreateUser | App.tsx:118-129 | the roster after creating a runner; `App.CreatedUser` states the appended runner field by field |
| App.CreatedUser | App.tsx:118-129 | a blank name changes nothing; any other name appends one runner with the new id, the join date, no logs and the name `trim()` gives, which is non-empty with no whitespace at either end, and keeps every existing runner |
| App.InitialUsers | App.tsx:15-34 | the three runners the dashboard starts with; `App.Roster.constructor` loads them and establishes that no distance is negative |
| App.Roster.constructor | App.tsx:52-59 | the initial state: the three runners, 'all' selected, the first runner chosen, the initial date, no edit in progress |
| App.Roster.AddOrUpdate | App.tsx:99-116 | the roster becomes the add or edit result, or stays as it is for NaN or a negative distance; after an accepted distance no edit is in progress; no distance is ever negative |
| App.Roster.CreateNewUser | App.tsx:118-134 | the roster gains the new runner unless the name is blank, and the new runner becomes both the selected and the chosen runner |
| App.Roster.BeginEdit | App.tsx:253 | the form is loaded with the selected runner, the entry's date and its id |
| App.Roster.DeleteLog | App.tsx:254 | the selected runner loses the entries with that id; nothing else changes |

## Left out

- **Rendering and hooks.** This covers the JSX, `useMemo`, the charts and the components. The `useEffect` at App.tsx:67-69, which puts `simDate` back into the form's date field when no edit is in progress, is not modelled, so `App.Roster` never resets `addRunDate` by itself.
- **Form text fields and clicks.**
  - `addRunDist`, `newUserName` and the add-runner dialog are form text and a flag (App.tsx:114, 130-131).
  - The selection clicks (App.tsx:218, 226) and the form's own runner and date inputs (App.tsx:161, 171) are plain field assignments.
  - None of these is a method of `App.Roster`.
- **`parseFloat` and the decimal comma (App.tsx:101).** The distance arrives already parsed, in hundredths, as `Option<int>`. A distance with more than two decimals cannot be represented, so the rounding of such values at logic.ts:52-53 is not modelled.
- **Floating point.** The source computes in binary floating point, so the unrounded day run, `debtAdded` and `debtCleared` (logic.ts:46, 63-65) and the team's debt sum (App.tsx:88) can carry noise such as 0.1 + 0.2 = 0.30000000000000004. The model counts exact hundredths, so it drops that noise, and `toFixed(2)` becomes the identity.
- **The clock.** `Date.now()` is the parameter `now`. The model does not assume two readings differ, so it can express two entries sharing an id; `App.EditLogsMovesRun` and `App.DeleteLogsMembers` cover that case.
- Dates.ParseLocalDate: the JavaScript `Date` constructor normalises out-of-range fields (`2026-02-30` becomes March 2). The model treats such a triple as an Invalid Date. Likewise `Number()` accepts signs, spaces, decimal points and exponents in a field, but the model accepts only plain digits. The `Date` constructor also gives an Invalid Date for a year beyond ±275760, where the model returns the date; no date text of the dashboard reaches such a year. Daylight-saving shifts are not modelled; `Math.round` absorbs them in `getDaysBetween`.
- App.HighestDebtorIndex: only the head of the sorted copy is modelled, since `highestDebtor` reads nothing else. The rest of the sorted order is left out.
- App.Summarize: the TypeError raised when there are no reports (an unparsable `simDate`) is modelled as `None`, not as an exception.
