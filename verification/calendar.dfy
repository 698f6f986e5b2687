/** Proleptic Gregorian dates as Python's `datetime` handles them: years
    1..9999, `relativedelta(months=k)` arithmetic that clamps the day to the
    length of the target month, and subtraction of one day. Time of day is
    not modelled. */
module Calendar {
  import opened Base

  const MinYear: int := 1
  const MaxYear: int := 9999

  datatype Date = Date(year: int, month: int, day: int)

  /** A calendar month, identified by year and month number 1..12. */
  datatype Month = Month(year: int, month: int)

  predicate IsLeapYear(y: int)
  {
    y % 4 == 0 && (y % 100 != 0 || y % 400 == 0)
  }

  function DaysInMonth(y: int, m: int): (n: int)
    requires 1 <= m <= 12
    ensures 28 <= n <= 31
    ensures m == 2 ==> (n == 29 <==> IsLeapYear(y))
    ensures m != 2 ==> (n == 30 <==> m in {4, 6, 9, 11})
  {
    if m == 2 then (if IsLeapYear(y) then 29 else 28)
    else if m == 4 || m == 6 || m == 9 || m == 11 then 30
    else 31
  }

  /** A value a Python `datetime` can hold. */
  predicate ValidDate(d: Date)
  {
    && MinYear <= d.year <= MaxYear
    && 1 <= d.month <= 12
    && 1 <= d.day <= DaysInMonth(d.year, d.month)
  }

  /** Chronological order, `a <= b`. */
  predicate DateLe(a: Date, b: Date)
  {
    a.year < b.year
    || (a.year == b.year && (a.month < b.month || (a.month == b.month && a.day <= b.day)))
  }

  /** Number of whole months from January of year 0 to month `m` of year `y`. */
  function MonthIndex(y: int, m: int): int
  {
    y * 12 + (m - 1)
  }

  /** The calendar month `k` months after month `m` of year `y` (before, when `k < 0`). */
  function ShiftMonth(y: int, m: int, k: int): (r: Month)
    ensures 1 <= r.month <= 12
    ensures MonthIndex(r.year, r.month) == MonthIndex(y, m) + k
  {
    var idx := MonthIndex(y, m) + k;
    Month(idx / 12, idx % 12 + 1)
  }

  /** A month lies in the range `datetime` supports. */
  predicate InRange(mo: Month)
  {
    MinYear <= mo.year <= MaxYear
  }

  function FirstDay(mo: Month): Date
  {
    Date(mo.year, mo.month, 1)
  }

  function LastDay(mo: Month): Date
    requires 1 <= mo.month <= 12
  {
    Date(mo.year, mo.month, DaysInMonth(mo.year, mo.month))
  }

  /** `d + relativedelta(months=k)`: the same day in the month `k` months
      away, clamped to that month's last day; `datetime.replace` raises when
      the target year leaves 1..9999. */
  function AddMonths(d: Date, k: int): (r: Result<Date>)
    requires ValidDate(d)
    ensures r.Ok? <==> InRange(ShiftMonth(d.year, d.month, k))
    ensures r.Ok? ==> ValidDate(r.value)
    ensures r.Ok? ==> MonthIndex(r.value.year, r.value.month) == MonthIndex(d.year, d.month) + k
    ensures r.Ok? ==> r.value.day <= d.day
    ensures r.Ok? ==> (r.value.day == d.day || r.value.day == DaysInMonth(r.value.year, r.value.month))
  {
    var target := ShiftMonth(d.year, d.month, k);
    if !InRange(target) then Err(DateOutOfRange)
    else
      var last := DaysInMonth(target.year, target.month);
      Ok(Date(target.year, target.month, if d.day < last then d.day else last))
  }

  /** `d - timedelta(days=1)`; raises below 0001-01-01. The result is the
      latest valid date strictly before `d`. */
  function PrevDay(d: Date): (r: Result<Date>)
    requires ValidDate(d)
    ensures r.Ok? <==> d != Date(MinYear, 1, 1)
    ensures r.Ok? ==> ValidDate(r.value) && DateLe(r.value, d) && r.value != d
    ensures r.Ok? ==> forall x :: ValidDate(x) && DateLe(x, d) && x != d ==> DateLe(x, r.value)
  {
    if d.day > 1 then Ok(Date(d.year, d.month, d.day - 1))
    else if d.month > 1 then Ok(LastDay(Month(d.year, d.month - 1)))
    else if d.year > MinYear then Ok(Date(d.year - 1, 12, 31))
    else Err(DateOutOfRange)
  }

  /** The first day of the following month minus one day is the last day of
      the month: the rollover the source uses to find a month's end. */
  lemma LastDayByRollover(mo: Month)
    requires InRange(mo) && 1 <= mo.month <= 12
    requires InRange(ShiftMonth(mo.year, mo.month, 1))
    ensures ValidDate(FirstDay(mo))
    ensures AddMonths(FirstDay(mo), 1).Ok?
    ensures PrevDay(AddMonths(FirstDay(mo), 1).value) == Ok(LastDay(mo))
  {
    var next := AddMonths(FirstDay(mo), 1).value;
    if mo.month < 12 {
      assert next == Date(mo.year, mo.month + 1, 1);
    } else {
      assert next == Date(mo.year + 1, 1, 1);
    }
  }

  /** The month `k` months before month `m` of year `y` is in range exactly when its index
      stays at or above January of year 1 (going back never exceeds 9999). */
  lemma ShiftBackInRange(y: int, m: int, k: int)
    requires MinYear <= y <= MaxYear && 1 <= m <= 12 && k >= 0
    ensures InRange(ShiftMonth(y, m, -k)) <==> MonthIndex(y, m) - k >= 12
  {
  }
}
