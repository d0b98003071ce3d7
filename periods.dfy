/** Resolving a period token into the start of a lookback window.
    Instants are milliseconds since the epoch. */
module Periods {
  import opened JsValues

  const DAY_MS: int := 24 * 60 * 60 * 1000

  /** The `switch (period)` of the business overview: 7, 30, 90 or 365 days,
      anything else 30. */
  function OverviewLookbackDays(period: string): (days: nat)
    ensures days == 7 <==> period == "7d"
    ensures days == 90 <==> period == "90d"
    ensures days == 365 <==> period == "12m"
    ensures days == 30 <==> period !in {"7d", "90d", "12m"}
  {
    match period
    case "7d" => 7
    case "30d" => 30
    case "90d" => 90
    case "12m" => 365
    case _ => 30
  }

  /** The `switch (period)` of the user-activity report and the conversion
      funnel as written: it has no `12m` case. */
  function ActivityLookbackDaysAsWritten(period: string): (days: nat)
    ensures days == 7 <==> period == "7d"
    ensures days == 90 <==> period == "90d"
    ensures days == 30 <==> period !in {"7d", "90d"}
  {
    match period
    case "7d" => 7
    case "30d" => 30
    case "90d" => 90
    case _ => 30
  }

  /** The reports page offers `12m`; the user-activity and funnel switches
      resolve it to 30 days where the overview resolves it to 365. */
  lemma TwelveMonthsIgnoredByActivity()
    ensures ActivityLookbackDaysAsWritten("12m") == 30
    ensures OverviewLookbackDays("12m") == 365
  {
  }

  /** The two switches agree on every token but `12m`. */
  lemma ActivityAgreesWithOverviewExceptTwelveMonths(period: string)
    ensures period != "12m" <==> ActivityLookbackDaysAsWritten(period) == OverviewLookbackDays(period)
  {
  }

  /** Start of a report's window: `period` defaults to `30d` when the query
      leaves it undefined. This is the business overview's switch; the
      activity and funnel reports of the model use it too, as the corrected
      form of their own switch (`ActivityLookbackDaysAsWritten`). */
  function ReportStart(period: Option<string>, now: int): (start: int)
    ensures start == now - OverviewLookbackDays(period.GetOr("30d")) * DAY_MS
    ensures now - 365 * DAY_MS <= start <= now - 7 * DAY_MS
    ensures period.None? ==> start == now - 30 * DAY_MS
  {
    now - OverviewLookbackDays(period.GetOr("30d")) * DAY_MS
  }

  datatype DateRange = DateRange(startDate: int, endDate: int)

  /** `getDateRange`: the helper's own switch, which spells a year `1y`. */
  function GetDateRange(period: Option<string>, now: int): (r: DateRange)
    ensures r.endDate == now
    ensures r.startDate < r.endDate
    ensures var p := period.GetOr("30d");
      r.startDate == now - (if p == "7d" then 7 else if p == "90d" then 90 else if p == "1y" then 365 else 30) * DAY_MS
  {
    var days :=
      match period.GetOr("30d")
      case "7d" => 7
      case "30d" => 30
      case "90d" => 90
      case "1y" => 365
      case _ => 30;
    DateRange(now - days * DAY_MS, now)
  }

  /** The periods `getUserMetrics` accepts. */
  datatype MetricsPeriod = Day | Week | Month | Year

  /** The `if`/`else if` chain of `getUserMetrics`; `week` when undefined,
      `None` for anything else (answered with 400). */
  function ParseMetricsPeriod(period: Option<string>): (p: Option<MetricsPeriod>)
    ensures p.Some? <==> period.GetOr("week") in {"day", "week", "month", "year"}
    ensures period.None? ==> p == Some(Week)
  {
    match period.GetOr("week")
    case "day" => Some(Day)
    case "week" => Some(Week)
    case "month" => Some(Month)
    case "year" => Some(Year)
    case _ => None
  }

  /** A calendar month, as `$month` numbers them. */
  type MonthNumber = m: int | 1 <= m <= 12 witness 1

  /** The `{year, month}` key the monthly aggregations group by. */
  datatype YearMonth = YearMonth(year: int, month: MonthNumber)

  /** Position of a month on the time line: `$sort: {'_id.year': 1, '_id.month': 1}`
      orders months by it. */
  function MonthIndex(ym: YearMonth): int {
    ym.year * 12 + ym.month - 1
  }

  /** Ordering by index is ordering by year, then by month. */
  lemma MonthIndexOrder(a: YearMonth, b: YearMonth)
    ensures MonthIndex(a) < MonthIndex(b) <==> a.year < b.year || (a.year == b.year && a.month < b.month)
    ensures MonthIndex(a) == MonthIndex(b) <==> a == b
  {
    if a.year < b.year {
      assert MonthIndex(a) <= a.year * 12 + 11 < b.year * 12 <= MonthIndex(b);
    } else if a.year > b.year {
      assert MonthIndex(b) <= b.year * 12 + 11 < a.year * 12 <= MonthIndex(a);
    }
  }

  /** The `$switch` that labels a month number with its English abbreviation. */
  function MonthName(m: MonthNumber): (name: string)
    ensures |name| == 3
  {
    match m
    case 1 => "Jan" case 2 => "Feb" case 3 => "Mar" case 4 => "Apr"
    case 5 => "May" case 6 => "Jun" case 7 => "Jul" case 8 => "Aug"
    case 9 => "Sep" case 10 => "Oct" case 11 => "Nov" case _ => "Dec"
  }

  /** Distinct months get distinct labels. */
  lemma MonthNameInjective(a: MonthNumber, b: MonthNumber)
    ensures MonthName(a) == MonthName(b) <==> a == b
  {
  }
}
