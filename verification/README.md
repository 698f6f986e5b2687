# Account-table KPI arithmetic of the dashboard API, in Dafny

This project models the arithmetic behind two dashboard endpoints of the
sales-analytics API: the live account table and the account metrics. Both
live in `app/api/dashboard.py`.

- **Period resolver** (`get_month_name_and_range`, module `Period`). A
  period token and the current date become an inclusive date window. The
  tokens are `ytd`, the four 2025 quarter literals, and `<month>_<year>`.
  Every other token gives the current month to date.
- **Collection-rate estimator** (`calculate_average_collection_pct`,
  module `Estimator`). It skips the three most recent months. It then takes
  as anchor the first month further back that has both charges and
  payments, searching up to twelve months back. The estimate is the
  unweighted mean of collected/placed over the anchor and the usable months
  among the next five older months. It reports `(None, 0)` when no anchor
  exists.
- **Territory fallback rate** (module `Territory`). The first pass of the
  account table sums placed × rate and placed per territory, over the
  practices that have their own estimate. The placed-weighted quotient is
  the rate charged to the territory's other practices. It is 0.6 when
  those practices placed nothing, and 0.9 when the territory has no
  estimated practice. The baseline expense per sample is also defined
  here.
- **Per-practice rows and the totals row** (module `AccountTable`):
  - revenue = placed × rate;
  - COGS and sales expense are allocated from the territory entries by
    sample count;
  - profit, net income and the per-sample figures follow from those;
  - EPS is the baseline EPS plus the practice's own collector cost per
    sample;
  - the totals row sums the columns and recomputes the averages.
- **Account metrics** (module `AccountMetrics`). This endpoint re-runs the
  estimator per practice, optionally for one territory. It counts:
  - new accounts: practices without their own estimate, charged a flat
    0.6;
  - accounts with positive net income, and the others;
  - the summed net income and sales expense.

The modules `Base`, `Calendar`, `Text` and `Dict` model what the code
borrows from Python and its libraries:
- `Calendar`: `datetime` dates in years 1–9999, `relativedelta(months=k)`
  and `timedelta(days=1)`;
- `Text`: `str.split`, `str.lower` and `int()` on the period token;
- `Dict`: dictionaries keyed by territory, including `get` with a default
  and a dict comprehension over query rows.

All amounts are exact rationals (`real`).

The database is an input:
- the billing ledger is a function from (practice, calendar month) to the
  charged and paid totals;
- the grouped period query and the per-territory sample counts are
  functions of the window;
- the `cogs_expense` rows are a function of the month;
- the collector lookup is a function of the practice.

"Today" is a parameter.

## Behaviour worth knowing

- An unknown or malformed period token is not rejected. It silently
  resolves to the current month to date.
  - So `month` and `qtd` mean "this month to date".
  - So the `Invalid period_type` 400 branches (`app/api/dashboard.py:408-409`
    and `:686-687`) can never be taken. `Period.Resolve` always returns a
    valid, ordered window.
- The trailing window behind the anchor is fixed: the next five months,
  whether or not they are usable. The code does not keep scanning until
  six usable months are found. The rate is not capped and exceeds 1 when a
  month collected more than was placed (`Estimator.RatioAboveOne`).
- A month token whose year is 0 falls back to the default (`0` is falsy).
  So does `december_9999`, whose month end overflows `datetime`. So does a
  negative year.
- The fallback rate differs between the two endpoints. The table uses the
  territory's weighted rate, or 0.9. The metrics use a flat 0.6. So the two
  endpoints' net incomes differ by placed × (0.6 − fallback rate) on each
  such practice (`AccountMetrics.MetricsAgreeWithTable`).
- Per-practice sample counts are `COUNT(DISTINCT account)`, but territory
  sample counts are `COUNT(account)`. Allocated COGS and expenses add up to
  the territory's entry when the two counts agree
  (`AccountTable.AllocationConserved` proves it under that condition).
- Expense and COGS rows are looked up by the `"%B %Y"` of the window's
  start month. For `ytd` and the quarters, only the first month's rows are
  allocated.
- The totals row:
  - its EPS subtracts the collector cost of every territory, including
    territories without expenses;
  - its average collector cost averages every row's looked-up cost, whether
    or not the practice is flagged as a collector;
  - its net income is recomputed from the summed columns. It equals the sum
    of the rows' net incomes (`AccountTable.TotalsAgreeWithRows`).

## Model

| member | source | states |
|---|---|---|
| Calendar.DaysInMonth | app/api/dashboard.py:346-349 | Month lengths lie in 28..31. February has 29 days exactly in leap years. Another month has 30 days exactly when it is April, June, September or November. |
| Calendar.ShiftMonth | app/api/dashboard.py:344 | Shifting by k months lands on a month 1..12 whose month index is the original index plus k. |
| Calendar.AddMonths | app/api/dashboard.py:344 | `relativedelta(months=k)` succeeds exactly when the target month is in years 1..9999. The result is valid, k months on, and on the same day or on the target month's last day when that is shorter. |
| Calendar.PrevDay | app/api/dashboard.py:349 | Subtracting one day fails only on 1 January of year 1. Otherwise the result is the latest valid date strictly before the input. |
| Calendar.LastDayByRollover | app/api/dashboard.py:346-349 | The first of the month plus one month minus one day is the month's last day. |
| Calendar.ShiftBackInRange | app/api/dashboard.py:344 | Going k months back stays representable exactly when the month index minus k is at least that of January of year 1. |
| Text.Split | app/api/dashboard.py:919 | `split('_')` always yields at least one part. |
| Text.SplitShape | app/api/dashboard.py:919 | The number of parts is the number of separators plus one, and no part contains the separator. |
| Text.SplitJoin | app/api/dashboard.py:919 | Joining the parts back with the separator gives the original token (inverse of the split). |
| Text.SplitNoSeparator | app/api/dashboard.py:919 | A token without an underscore splits into itself alone. |
| Text.SplitAtSeparator | app/api/dashboard.py:919 | `a_b` with underscore-free `a` and `b` splits into exactly `[a, b]`. |
| Text.Lower | app/api/dashboard.py:925 | Lower-casing keeps the length and leaves no ASCII capital; a character changes exactly when it is an ASCII capital, which becomes its lower-case letter. |
| Text.LowerIdempotent | app/api/dashboard.py:925 | Lower-casing twice is lower-casing once, and text without capitals is unchanged. |
| Text.Strip | app/api/dashboard.py:926 | Stripping for `int()` never lengthens the text and leaves no whitespace at either end (that it is the input with only whitespace cut away is `Text.StripTrims`). |
| Text.StripTrims | app/api/dashboard.py:926 | The stripped text is a contiguous slice of the original with only whitespace cut from either side. |
| Text.TrimUnique | app/api/dashboard.py:926 | Two such trimmings with no whitespace at their ends are the same text, so the stripped text is determined. |
| Text.ParseInt | app/api/dashboard.py:926 | `int()` of a run of ASCII digits is its decimal value, and blank text raises. |
| Text.ParseIntCharacterised | app/api/dashboard.py:926 | `int(s)` gives n exactly when s is whitespace, an optionally signed run of digits with value n, and whitespace. |
| Text.ParseIntSeparators | app/api/dashboard.py:926 | The information separators U+001C–U+001F are not stripped, so digits next to one raise. |
| Text.ParseIntWideSpaces | app/api/dashboard.py:926 | Non-ASCII whitespace such as U+00A0 and U+3000 around a signed run of digits is ignored. |
| Text.NatToString | app/api/dashboard.py:926 | The decimal rendering of a natural number is non-empty and all digits. |
| Text.DigitsRoundTrip | app/api/dashboard.py:926 | Reading digits back from the rendering of n gives n. |
| Text.ParseIntRoundTrip | app/api/dashboard.py:926 | `int()` of the rendering of n is n, also with surrounding blanks. |
| Text.ParseIntNegative | app/api/dashboard.py:926 | A minus sign before a run of digits negates its value. |
| Period.MonthNumber | app/api/dashboard.py:920-925 | The month-map lookup gives m exactly for the m-th lower-case month name, and nothing for any other text. |
| Period.MonthNumberFrom | app/api/dashboard.py:920-925 | The lookup from position i finds a name only at or after i. A miss means no name from i on matches. |
| Period.MonthNumberOfName | app/api/dashboard.py:920-925 | Every month name maps back to its own number. |
| Period.MonthYearWindow | app/api/dashboard.py:918-938 | The `try` block yields a window only for a token made of a month name (any case), one underscore and a year text that `int()` reads, whose month and following month `datetime` can hold; for every such token it yields exactly that whole month. |
| Period.Resolve | app/api/dashboard.py:896-940 | Every token resolves to a window of valid dates with start ≤ end, so the callers' "invalid period" branch is unreachable. |
| Period.ResolveMonthYear | app/api/dashboard.py:918-930 | `<month>_<year>` (month in any case, year in 1..9999 and not December 9999) resolves to the whole calendar month, first day through last day. |
| Period.ResolveByWindow | app/api/dashboard.py:901-930 | A token the month-year parse accepts resolves to the parsed window, because no fixed token parses as a month and year. |
| Period.FixedTokenNamesNoMonth | app/api/dashboard.py:901-925 | Neither `ytd` nor a 2025 quarter token reads as a month name and a year. |
| Period.ResolveFallback | app/api/dashboard.py:931-938 | A token that is neither a fixed token nor a parsable month name and year resolves to the first of the current month through today. |
| Period.ResolveLeapFebruary | app/api/dashboard.py:928-930 | `february_2024` ends on 29 February 2024. |
| Period.ResolveCapitalisedCenturyFebruary | app/api/dashboard.py:925-930 | `February_1900` is accepted despite its capital and ends on 28 February 1900. |
| Period.ResolveDecember | app/api/dashboard.py:928-930 | `december_2025` ends on 31 December 2025. |
| Period.ResolveFixedTokens | app/api/dashboard.py:901-915 | `ytd` is 1 January through today. `q1_2025` to `q4_2025` are their fixed quarters: 1 January–31 March, 1 April–30 June, 1 July–30 September and 1 October–31 December 2025. |
| Period.ResolveLegacyTokensFallBack | app/api/dashboard.py:931-938 | `month` and `qtd` are not recognised and give the current month to date. |
| Period.ResolveYearZeroFallsBack | app/api/dashboard.py:928-934 | A year of 0 is falsy, so `june_0` gives the current month to date. |
| Period.ResolveLastDecemberFallsBack | app/api/dashboard.py:929-938 | `december_9999` raises on its month end and gives the current month to date. |
| Dict.PutKeys | app/api/dashboard.py:446-454 | Assigning to a key adds exactly that key and keeps the keys distinct. |
| Dict.PutGet | app/api/dashboard.py:446-454 | After assignment the key reads the new value and every other key reads as before. |
| Dict.GetAbsent | app/api/dashboard.py:530 | `get` on a missing key gives the default. |
| Dict.GetPresent | app/api/dashboard.py:530 | `get` on a present key does not depend on the default. |
| Dict.FromRows | app/api/dashboard.py:474 | The dict comprehension over query rows has distinct keys, namely those of the rows. |
| Dict.FromRowsLastWins | app/api/dashboard.py:474 | For a repeated key the comprehension keeps the value of its last row. |
| Dict.SumOfPut | app/api/dashboard.py:628-629 | Overwriting one entry changes the sum of the values by the new value minus the old one. |
| Dict.GetMap | app/api/dashboard.py:457-463 | Looking up a mapped dict gives the mapped value of the original entry, or the default for an absent key. |
| Estimator.Ratio | app/api/dashboard.py:362-363 | A usable month's collected/placed is positive. |
| Estimator.RatioAboveOne | app/api/dashboard.py:362-363 | That ratio exceeds 1 exactly when more was collected than placed. |
| Estimator.MonthWindow | app/api/dashboard.py:344-349 | The queried range fails exactly when the month falls before year 1. Otherwise it is the whole month i months back, first through last day, for December as for the other months. |
| Estimator.ProbeQueriesMonthWindow | app/api/dashboard.py:344-358 | Each query succeeds exactly when its date arithmetic does, and sums the ledger of the calendar month whose first and last day that arithmetic produces. |
| Estimator.FindAnchor | app/api/dashboard.py:343-367 | A found anchor lies in the searched range and is usable, and its recorded ratio is that month's ratio. |
| Estimator.FindAnchorNone | app/api/dashboard.py:343-367 | The search finds nothing exactly when every offset in range was queried successfully and none was usable. |
| Estimator.FindAnchorIsFirstUsable | app/api/dashboard.py:343-367 | The search reports offset a exactly when a is the smallest usable offset in range. |
| Estimator.FindAnchorAllOffsets | app/api/dashboard.py:343-367 | The previous statement, for every offset at once. |
| Estimator.UsableRatiosBounds | app/api/dashboard.py:386-390 | A range of months contributes at most one ratio per month, and every contributed ratio is positive. |
| Estimator.UsableRatiosAllUsable | app/api/dashboard.py:386-390 | A range of usable months contributes exactly one ratio per month. |
| Estimator.UsableRatiosNoneUsable | app/api/dashboard.py:386-390 | A range without usable months contributes nothing. |
| Estimator.TrailingScan | app/api/dashboard.py:370-392 | The scan counts exactly the ratios it keeps. When the early exit cannot trigger, it succeeds exactly when every month in range can be queried, and it keeps exactly the usable months' ratios in order. |
| Estimator.TrailingScanResult | app/api/dashboard.py:370-392 | From the anchor, the scan yields the anchor's ratio followed by the usable ratios of the next `max_periods - 1` months: between 1 and `max_periods` ratios with a positive mean. |
| Estimator.AverageCollectionPct | app/api/dashboard.py:331-396 | An estimate is positive and uses 1..`max_periods` periods. "No estimate" reports 0 periods. |
| Estimator.EstimateAfterAnchor | app/api/dashboard.py:369-394 | After an anchor the result is an estimate, positive, over 1..`max_periods` periods. |
| Estimator.EstimateAfterAnchorValue | app/api/dashboard.py:369-394 | After anchor a, the call succeeds exactly when the trailing months are representable. It is then the mean of the used ratios, with their count as the periods. |
| Estimator.EstimateWithoutAnchor | app/api/dashboard.py:395-396 | The result is `(None, 0)` exactly when no month 3..12 back is usable and all of them could be queried. |
| Estimator.EstimateFromAnchor | app/api/dashboard.py:369-394 | With smallest usable offset a, the call succeeds exactly when the trailing months are representable. It is then the unweighted mean of the anchor's ratio and the usable ratios of the next five months, with their count as the periods. |
| Estimator.CollectionEstimate | app/api/dashboard.py:331 | With the defaults (12 months back, 6 periods) an estimate is positive over 1..6 periods, and "no estimate" has 0 periods. |
| Estimator.FullHistoryUsesAllPeriods | app/api/dashboard.py:370-394 | With every month behind the anchor usable, the estimate uses exactly `max_periods` periods. |
| Estimator.LoneAnchorEstimate | app/api/dashboard.py:369-394 | An anchor with no usable month behind it is the estimate on its own, over one period, and it exceeds 1 exactly when that month collected more than was placed. |
| Estimator.EarlyYearOneRaises | app/api/dashboard.py:343-345 | A start in January to March of year 1 makes the first query's date arithmetic raise. |
| Estimator.EstimateIgnoresOtherMonths | app/api/dashboard.py:343-392 | Two histories that agree on the months 3 through `max_lookback + max_periods - 1` back give the same estimate. In particular the three most recent months never matter. |
| Estimator.EstimateAfterAnchorLocal | app/api/dashboard.py:369-394 | After an anchor, only the anchor's month and the trailing months matter. |
| Estimator.FindAnchorLocal | app/api/dashboard.py:343-367 | The anchor search only depends on the months it searches. |
| Estimator.UsableRatiosLocal | app/api/dashboard.py:386-390 | The trailing ratios only depend on the months in the window. |
| Territory.AccumulateActuals | app/api/dashboard.py:441-454 | The first pass builds a dictionary with distinct territory keys. |
| Territory.AddActual | app/api/dashboard.py:445-454 | One iteration keeps the keys distinct. |
| Territory.Credit | app/api/dashboard.py:446-454 | Creating-or-incrementing an entry keeps the keys distinct. |
| Territory.AccumulateActualsSums | app/api/dashboard.py:441-454 | A territory has an entry exactly when one of its practices has an estimate. Its entry holds Σ placed × rate and Σ placed over those practices. |
| Territory.HasEstimateStep | app/api/dashboard.py:441-454 | A territory has an estimated practice among n+1 rows exactly when it has one among the first n, or the last row is of the territory and estimated. |
| Territory.AccumulateActualsTotals | app/api/dashboard.py:628-629 | Summed over territories, the entries hold every estimated practice's revenue and placed amount exactly once. |
| Territory.AddActualAccumulates | app/api/dashboard.py:450-454 | One estimated practice raises the summed revenue by placed × rate and the summed placed by placed. |
| Territory.AddActualGet | app/api/dashboard.py:445-454 | One iteration adds the practice's territory as a key exactly when the practice is estimated, and increments only that entry. |
| Territory.AddActualIsCredit | app/api/dashboard.py:450-454 | An estimated practice credits its territory with placed × rate and placed. |
| Territory.CreditTotals | app/api/dashboard.py:453-454 | A credit raises the summed revenue and placed amount by exactly the credited amounts. |
| Territory.TerritoryRate | app/api/dashboard.py:457-461 | A territory's rate earns its accumulated revenue on its accumulated placed amount, and is 0.6 when that amount is not positive. |
| Territory.TerritoryRates | app/api/dashboard.py:456-461 | The rate dictionary has exactly the accumulated territories as keys, and looking one up gives its rate, or 0.9 for any other territory. |
| Territory.FallbackRate | app/api/dashboard.py:457-463 | `avg_territory_collection_pct.get(t, 0.9)` is 0.9 when t has no estimated practice. Otherwise it is their Σ placed × rate / Σ placed, or 0.6 when that placed sum is not positive. |
| Territory.WeightedLowerBound | app/api/dashboard.py:441-454 | If every estimated practice of t has rate ≥ lo and placed ≥ 0, the accumulated revenue is at least lo × the accumulated placed amount. |
| Territory.WeightedUpperBound | app/api/dashboard.py:441-454 | The same bound from above, for rates ≤ hi. |
| Territory.FallbackWithinBounds | app/api/dashboard.py:457-460 | If every estimated practice of t placed a non-negative amount at a rate in [lo, hi], and their placed sum is positive, the territory rate lies in [lo, hi]. |
| Territory.ZeroWithoutEstimate | app/api/dashboard.py:441-454 | A territory without estimated practices accumulates nothing. |
| Territory.FallbackExample | app/api/dashboard.py:457-463 | Practices placing 1000 at 0.8 and 3000 at 0.9 give their territory 0.875. A territory with no estimated practice gets 0.9. |
| Territory.BaselineEpsOf | app/api/dashboard.py:501-509 | One territory's baseline EPS times its samples is its expenses less its collector costs (0 collector cost when absent), and the baseline is 0 without samples. |
| Territory.BaselineEps | app/api/dashboard.py:499-511 | The baseline dictionary has exactly the territories with expenses as keys, and each entry is that territory's baseline; any other territory reads 0. |
| Territory.BaselineEpsInverse | app/api/dashboard.py:499-511 | Baseline EPS times the territory's samples is its expenses less its collector costs. A territory without expenses or samples has baseline 0. |
| AccountTable.Per | app/api/dashboard.py:537 | A per-sample figure times the sample count is the total, and 0 without samples. |
| AccountTable.Percent | app/api/dashboard.py:599 | A percentage times the whole is 100 × the part, and 0 unless the whole is positive. |
| AccountTable.Allocate | app/api/dashboard.py:541-544 | An allocated share times the territory's samples is the territory total times the practice's samples, and 0 without territory samples. |
| AccountTable.EstimateAll | app/api/dashboard.py:441-443 | Estimating every practice succeeds exactly when each estimate succeeds, and yields them in row order. |
| AccountTable.PeriodToken | app/api/dashboard.py:402-404 | A missing or empty `period_type` becomes `month`; any other value is used as given, so the token is never empty. |
| AccountTable.ContextOf | app/api/dashboard.py:466-497 | Each per-territory dictionary has distinct keys, exactly the territories its query rows name. |
| AccountTable.FiguresOf | app/api/dashboard.py:530-571 | A territory without an entry reads the code's defaults: rate 0.9, and 0 COGS, samples, expenses and baseline. With expenses and samples, baseline × samples = expenses − collector costs. |
| AccountTable.ComposeRow | app/api/dashboard.py:523-610 | A row carries its group's practice, territory, placed and samples, and its own rate and periods or the fallback rate and 0 periods. Revenue is placed × rate. COGS and sales expense are territory shares by samples. Profit and net income follow from those, and rps, bps, gpps and nips are per sample. EPS is the baseline plus the collector cost per sample for a collector, else the baseline. ROS is net income as a percentage of sales expense. |
| AccountTable.Rows | app/api/dashboard.py:522-574 | One row per group, in query order. Each row keeps its group's practice, territory, placed amount and samples. It is charged its own rate and periods when it has an estimate, else its territory's entry of the rates (0.9 when absent) and 0 periods. Its revenue is placed × rate, its COGS and sales expense are its sample share of its territory's entries (0 when the territory has no samples), and its net income is revenue − COGS − sales expense. |
| AccountTable.Totals | app/api/dashboard.py:612-656 | The totals are the sums of the row columns. Net income is recomputed as revenue − COGS − sales expense. rps, bps, gpps and nips are per total sample. EPS is (all expenses − all collector costs) per sample, the collector cost is averaged per row, and ROS and the collection percentage are percentages. |
| AccountTable.BuildTable | app/api/dashboard.py:441-656 | The built table covers its window and has one row per group, in order; each row is the row of its group and estimate (as stated for `Rows`) under the table's territory rates. |
| AccountTable.AccountTableLive | app/api/dashboard.py:399-669 | The table fails exactly when some practice's estimate raises. Otherwise it covers the resolved window and has one row per group. |
| AccountTable.TotalsAgreeWithRows | app/api/dashboard.py:580-635 | The totals' profit is their revenue less their COGS. The recomputed net income equals the sum of the rows' net incomes. |
| AccountTable.BuildTableTotals | app/api/dashboard.py:627-630 | Besides those identities, the total collection percentage is the placed-weighted rate of exactly the practices with their own estimate. |
| AccountTable.AllocationsAddUp | app/api/dashboard.py:541-544 | A territory's allocated shares, times its sample count, equal its total times its rows' samples. |
| AccountTable.AllocationStep | app/api/dashboard.py:541-544 | That sum property extends by one row. |
| AccountTable.AllocationConserved | app/api/dashboard.py:541-572 | When the territory's sample count equals its rows' samples, the rows' COGS and sales expense add up to exactly the territory's COGS and expense entries. |
| AccountTable.TableFallbackRate | app/api/dashboard.py:526-533 | In the built table a practice without its own estimate shows 0 periods and its territory's weighted fallback rate. |
| AccountTable.ConservedShares | app/api/dashboard.py:541-572 | Shares whose sample counts add up to the territory's count add up to the territory's total. |
| AccountTable.DefaultPeriodIsMonthToDate | app/api/dashboard.py:402-407 | Without a `period_type`, or with an empty one, the table covers the current month to date. |
| AccountMetrics.OfTerritory | app/api/dashboard.py:704-713 | The territory filter keeps every group of that territory exactly as often as the query returns it, and no other group. |
| AccountMetrics.Selected | app/api/dashboard.py:693-713 | `all` selects every group. Any other value selects every group of that territory, each as often as it occurs, and no other. |
| AccountMetrics.PracticeFigures | app/api/dashboard.py:746-772 | A practice is new exactly when it has no estimate. Its revenue is placed × its own rate, or placed × 0.6. COGS and sales expense are territory shares by samples, and net income + COGS + sales expense = revenue. |
| AccountMetrics.Results | app/api/dashboard.py:746-772 | One result per selected practice, in query order. A result is new exactly when its practice has no estimate. Its revenue is earned at the own rate, or at the flat 0.6. Its COGS and sales expense are its sample share of its territory's entries, and net income + COGS + sales expense = revenue. |
| AccountMetrics.TerritoryArg | app/api/dashboard.py:680 | A missing `territory` argument means `all`; a given one is used as given. |
| AccountMetrics.MetricsOf | app/api/dashboard.py:746-788 | Every practice is counted once, as positive or as negative; the new accounts never exceed the total, and equal it exactly when no practice has its own estimate. |
| AccountMetrics.PositiveNegativePartition | app/api/dashboard.py:774-777 | Every practice is counted as positive or as negative, never both. |
| AccountMetrics.CountWhereBound | app/api/dashboard.py:750-751 | A count never exceeds the number of practices, and reaches it exactly when every practice qualifies. |
| AccountMetrics.Tally | app/api/dashboard.py:746-788 | The loop's counters are the whole-list counts: new, positive and non-positive, plus the net-income and sales-expense sums. Positive and negative add up to the total, and new never exceeds it. |
| AccountMetrics.PrefixStep | app/api/dashboard.py:746-777 | One more practice raises each counter and sum by its own contribution. |
| AccountMetrics.AccountMetricsLive | app/api/dashboard.py:676-790 | The metrics fail exactly when some selected practice's estimate raises. Otherwise they count every selected practice once, positive or negative. |
| AccountMetrics.PracticeVersusRow | app/api/dashboard.py:750-772 | A practice has the same COGS and sales expense on both endpoints, and is new exactly when its table row shows 0 periods. Its net income exceeds the table's by placed × (0.6 − the table's rate) when it has no estimate, and matches it otherwise. |
| AccountMetrics.ResultVersusRow | app/api/dashboard.py:750-772 | For one practice, a metrics result and a table row built from the same group and estimate have equal COGS and sales expense, agree on "new" versus 0 periods, and differ in net income by the rate gap. |
| AccountMetrics.NewCountsFallbackRows | app/api/dashboard.py:750-751 | The new-account count equals the number of table rows without revenue periods. |
| AccountMetrics.TallyVersusTable | app/api/dashboard.py:746-788 | For one window and its estimates, the two endpoints compare as follows. Total accounts = table rows, and new accounts = rows with 0 periods. Total sales expense = the table's. Total net income = the table's plus the rows' rate gaps. |
| AccountMetrics.MetricsAgreeWithTable | app/api/dashboard.py:676-790 | Over all territories the two endpoints fail together, and when they succeed they compare as `TallyVersusTable` states. |
| AccountMetrics.BreakEvenCountsAsNegative | app/api/dashboard.py:774-777 | Adding a practice with net income exactly 0 to any list of practices adds one negative account and no positive one. |

## Left out

- Rounding and number types: `Decimal` and `float` arithmetic, `round(…, 2)`, and the `"NN%"` strings are not modelled. Every amount is an exact rational and every row shows its unrounded figures. The collection percentage is shown as its rate.
- Database and HTTP: the SQL queries, connections, cursors and the Flask request/response plumbing are not modelled. Query results are inputs, as described above. So is the collector lookup by `LIKE '%practice%' LIMIT 1`, which is taken to return one collector flag and cost per practice.
- Exceptions other than date overflow: any exception inside the endpoints becomes a 500. The model keeps only the one its arithmetic can raise, a date before year 1 in the estimator (`Error.DateOutOfRange`).
- The current time: `datetime.now()` carries a time of day. The model takes "today" as a date parameter, so an end date "today" stands for the current instant.
- The estimator runs twice per row in the table, once in each pass. It is deterministic over the same inputs, so it is modelled once and the result reused.
- `territory_account_counts` is computed by the table endpoint but never used, so it is not modelled.
- `months_checked` and `anchor_found` are bookkeeping variables that affect no output.
- The other endpoints of `app/api/dashboard.py` (summaries, charts, collector-cost updates, AI summary) are not part of this model.
- `int()` of the year also accepts non-ASCII Unicode digits and underscores between digits. The model accepts only ASCII digits. An underscore cannot reach that call (the token has already been split on it), and non-ASCII digits do not occur in period tokens.
- AccountTable.AllocationConserved: stated only for territories whose `COUNT` sample total equals the `COUNT DISTINCT` totals of their rows, because the code's two counts can differ, and then the shares need not add up to the entry.
- AccountMetrics.PracticeVersusRow: requires an estimate to report at least one period, which `Estimator.CollectionEstimate` guarantees. `AccountMetrics.MetricsAgreeWithTable` discharges it for the endpoints.
- Text.Strip: its own contract states only the length bound and the clean ends. That the result is the input with whitespace cut from both sides is the separate lemma `Text.StripTrims`, and `Text.TrimUnique` shows that this determines it; an existential on `Strip` itself would be instantiated in every proof that parses a year.
- Territory.FallbackWithinBounds: requires every estimated practice of the territory to have placed a non-negative amount. The placed amount is a `SUM` of `initial_balance` with no sign constraint, and with a negative one the weighted rate can leave [lo, hi] (2.0 placed at 0.5 and −1.0 at 1.0 give 0.0).
- Text.Lower: maps only the ASCII capitals. Python's `str.lower` also lowers non-ASCII letters, but the only ones that lower to text containing ASCII are U+0130 (to `i` and a combining dot) and U+212A KELVIN SIGN (to `k`), and neither can complete a month name: U+0130 leaves the combining dot behind, and no month name contains `k`. So the month lookup gives the same answer.
