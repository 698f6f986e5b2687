/** The billing-period resolver (`get_month_name_and_range`): a period token
    and the current date become an inclusive (start, end) date window. */
module Period {
  import opened Base
  import opened Calendar
  import opened Text

  datatype Window = Window(start: Date, end: Date)

  const MonthNames: seq<string> := [
    "january", "february", "march", "april", "may", "june",
    "july", "august", "september", "october", "november", "december"
  ]

  /** `month_map.get(name)`: the month number of a lower-case English month name. */
  function MonthNumber(name: string): (r: Option<int>)
    ensures r.Some? ==> 1 <= r.value <= 12 && MonthNames[r.value - 1] == name
    ensures r.None? ==> name !in MonthNames
  {
    MonthNumberFrom(name, 0)
  }

  function MonthNumberFrom(name: string, i: nat): (r: Option<int>)
    requires i <= 12
    ensures r.Some? ==> i < r.value <= 12 && MonthNames[r.value - 1] == name
    ensures r.None? ==> forall j :: i <= j < 12 ==> MonthNames[j] != name
    decreases 12 - i
  {
    if i == 12 then None
    else if MonthNames[i] == name then Some(i + 1)
    else MonthNumberFrom(name, i + 1)
  }

  /** Every month name maps back to its own number. */
  lemma MonthNumberOfName(m: int)
    requires 1 <= m <= 12
    ensures MonthNumber(MonthNames[m - 1]) == Some(m)
  {
    assert MonthNames[m - 1] in MonthNames;
  }

  /** The full calendar month, first day through last day. */
  function MonthRange(y: int, m: int): Window
    requires 1 <= m <= 12
  {
    Window(FirstDay(Month(y, m)), LastDay(Month(y, m)))
  }

  /** The silent default: first of the current month through today. */
  function MonthToDate(today: Date): Window
  {
    Window(Date(today.year, today.month, 1), today)
  }

  /** Quarter literals recognised for 2025 only. */
  function QuarterOf2025(token: string): Option<Window>
  {
    if token == "q1_2025" then Some(Window(Date(2025, 1, 1), Date(2025, 3, 31)))
    else if token == "q2_2025" then Some(Window(Date(2025, 4, 1), Date(2025, 6, 30)))
    else if token == "q3_2025" then Some(Window(Date(2025, 7, 1), Date(2025, 9, 30)))
    else if token == "q4_2025" then Some(Window(Date(2025, 10, 1), Date(2025, 12, 31)))
    else None
  }

  /** `token` is one underscore between a month name (any case) and a year
      text that `int()` reads as `y`. */
  predicate NamesMonthYear(token: string, m: int, y: int)
  {
    var parts := Split(token, '_');
    && |parts| == 2
    && MonthNumber(Lower(parts[0])) == Some(m)
    && ParseInt(parts[1]) == Some(y)
  }

  /** A month `datetime` can hold together with the first day after it. */
  predicate Representable(m: int, y: int)
  {
    1 <= m <= 12 && MinYear <= y <= MaxYear && !(m == 12 && y == MaxYear)
  }

  /** The `try` block for `<month>_<year>` tokens: `None` whenever it raises
      or reaches its own `else`, both of which fall back to the default.
      It gives a window exactly for a month name and a year whose month
      (and the day after it) the calendar can hold, and that window is the
      whole month. */
  function MonthYearWindow(token: string): (r: Option<Window>)
    ensures r.Some? ==>
      && NamesMonthYear(token, r.value.start.month, r.value.start.year)
      && Representable(r.value.start.month, r.value.start.year)
      && r.value == MonthRange(r.value.start.year, r.value.start.month)
    ensures forall m, y :: NamesMonthYear(token, m, y) && Representable(m, y) ==> r == Some(MonthRange(y, m))
  {
    var parts := Split(token, '_');
    if |parts| != 2 then None
    else
      var month := MonthNumber(Lower(parts[0]));
      var year := ParseInt(parts[1]);
      if year.None? || month.None? || year.value == 0 then None
      else if !(MinYear <= year.value <= MaxYear) then None
      else
        var start := Date(year.value, month.value, 1);
        match AddMonths(start, 1)
        case Err(_) => None
        case Ok(next) =>
          LastDayByRollover(Month(year.value, month.value));
          match PrevDay(next)
          case Err(_) => None
          case Ok(end) => Some(Window(start, end))
  }

  /** `get_month_name_and_range(token, today)`. It never fails: every token
      it does not recognise gives the current month to date, so callers
      always receive a valid, ordered window. */
  function Resolve(token: string, today: Date): (w: Window)
    requires ValidDate(today)
    ensures ValidDate(w.start) && ValidDate(w.end)
    ensures DateLe(w.start, w.end)
  {
    if token == "ytd" then Window(Date(today.year, 1, 1), today)
    else if QuarterOf2025(token).Some? then QuarterOf2025(token).value
    else match MonthYearWindow(token)
      case Some(w) => w
      case None => MonthToDate(today)
  }

  /** The tokens matched by equality before the month-name parse. */
  predicate IsFixedToken(token: string)
  {
    token == "ytd" || QuarterOf2025(token).Some?
  }

  /** `token` has its only underscore at `k`, a month name (any case)
      before it, and after it a year text naming a month `datetime` can
      hold together with the month that follows it. */
  predicate NamesMonthAt(token: string, k: int)
  {
    && 0 <= k < |token| && token[k] == '_'
    && '_' !in token[..k] && '_' !in token[k + 1..]
    && MonthNumber(Lower(token[..k])).Some?
    && ParseInt(token[k + 1..]).Some?
    && MinYear <= ParseInt(token[k + 1..]).value <= MaxYear
    && !(MonthNumber(Lower(token[..k])).value == 12 && ParseInt(token[k + 1..]).value == MaxYear)
  }

  /** No fixed token reads as a month name and a year. */
  lemma FixedTokenNamesNoMonth(token: string)
    requires IsFixedToken(token)
    ensures MonthYearWindow(token).None?
  {
    if token == "ytd" {
      SplitNoSeparator(token, '_');
    } else if token == "q1_2025" {
      NoMonthBefore("q1", "2025", token);
    } else if token == "q2_2025" {
      NoMonthBefore("q2", "2025", token);
    } else if token == "q3_2025" {
      NoMonthBefore("q3", "2025", token);
    } else {
      NoMonthBefore("q4", "2025", token);
    }
  }

  lemma NoMonthBefore(head: string, tail: string, token: string)
    requires '_' !in head && '_' !in tail && |head| == 2 && head[0] == 'q' && IsDigit(head[1])
    requires token == head + "_" + tail
    ensures MonthYearWindow(token).None?
  {
    SplitAtSeparator(head, tail, '_');
    assert Lower(head) == head;
    assert head !in MonthNames;
  }

  /** `<month>_<year>` tokens resolve to the whole calendar month, ending on
      its true last day (29 February in leap years). */
  lemma ResolveMonthYear(month: string, year: string, m: int, y: int, today: Date)
    requires ValidDate(today)
    requires '_' !in month && '_' !in year
    requires MonthNumber(Lower(month)) == Some(m)
    requires ParseInt(year) == Some(y)
    requires MinYear <= y <= MaxYear && !(m == 12 && y == MaxYear)
    ensures Resolve(month + "_" + year, today) == MonthRange(y, m)
  {
    var token := month + "_" + year;
    SplitAtSeparator(month, year, '_');
    assert NamesMonthYear(token, m, y);
    ResolveByWindow(token, today);
  }

  /** A token the month-name parse accepts is not one of the fixed tokens,
      so it resolves to the parsed window. */
  lemma ResolveByWindow(token: string, today: Date)
    requires ValidDate(today) && MonthYearWindow(token).Some?
    ensures Resolve(token, today) == MonthYearWindow(token).value
  {
    if IsFixedToken(token) {
      FixedTokenNamesNoMonth(token);
      assert false;
    }
  }

  /** Every token that is neither `ytd`, a 2025 quarter, nor a valid
      `<month>_<year>` resolves to the current month to date: `month`,
      `qtd`, year 0, unknown names, extra underscores alike. */
  lemma ResolveFallback(token: string, today: Date)
    requires ValidDate(today)
    requires !IsFixedToken(token)
    requires forall k :: 0 <= k < |token| ==> !NamesMonthAt(token, k)
    ensures Resolve(token, today) == MonthToDate(today)
  {
    if MonthYearWindow(token).Some? {
      var parts := Split(token, '_');
      SplitShape(token, '_');
      SplitJoin(token, '_');
      assert |parts| == 2;
      var k := |parts[0]|;
      assert token == parts[0] + "_" + parts[1];
      assert token[k] == '_';
      assert token[..k] == parts[0];
      assert token[k + 1..] == parts[1];
      assert NamesMonthAt(token, k);
      assert false;
    }
  }

  /** Worked resolutions: leap and non-leap February, case-insensitive month
      names, December, the fixed tokens, and tokens that silently fall back.
      Tokens are passed as parameters so that the verifier reasons from the
      lemmas above instead of evaluating the parse character by character. */
  lemma ResolveLeapFebruary(token: string, today: Date)
    requires ValidDate(today) && token == "february_2024"
    ensures Resolve(token, today) == Window(Date(2024, 2, 1), Date(2024, 2, 29))
  {
    MonthNumberOfName(2);
    assert Lower("february") == "february";
    DigitsRoundTrip(2024);
    assert NatToString(2024) == "2024";
    assert "february" + "_" + "2024" == token;
    assert MonthRange(2024, 2) == Window(Date(2024, 2, 1), Date(2024, 2, 29));
    ResolveMonthYear("february", "2024", 2, 2024, today);
  }

  lemma ResolveCapitalisedCenturyFebruary(token: string, today: Date)
    requires ValidDate(today) && token == "February_1900"
    ensures Resolve(token, today) == Window(Date(1900, 2, 1), Date(1900, 2, 28))
  {
    MonthNumberOfName(2);
    assert Lower("February") == "february";
    DigitsRoundTrip(1900);
    assert NatToString(1900) == "1900";
    assert "February" + "_" + "1900" == token;
    assert MonthRange(1900, 2) == Window(Date(1900, 2, 1), Date(1900, 2, 28));
    ResolveMonthYear("February", "1900", 2, 1900, today);
  }

  lemma ResolveDecember(token: string, today: Date)
    requires ValidDate(today) && token == "december_2025"
    ensures Resolve(token, today) == Window(Date(2025, 12, 1), Date(2025, 12, 31))
  {
    MonthNumberOfName(12);
    assert Lower("december") == "december";
    DigitsRoundTrip(2025);
    assert NatToString(2025) == "2025";
    assert "december" + "_" + "2025" == token;
    ResolveMonthYear("december", "2025", 12, 2025, today);
  }

  lemma ResolveFixedTokens(today: Date)
    requires ValidDate(today)
    ensures Resolve("ytd", today) == Window(Date(today.year, 1, 1), today)
    ensures Resolve("q1_2025", today) == Window(Date(2025, 1, 1), Date(2025, 3, 31))
    ensures Resolve("q2_2025", today) == Window(Date(2025, 4, 1), Date(2025, 6, 30))
    ensures Resolve("q3_2025", today) == Window(Date(2025, 7, 1), Date(2025, 9, 30))
    ensures Resolve("q4_2025", today) == Window(Date(2025, 10, 1), Date(2025, 12, 31))
  {
  }

  lemma ResolveLegacyTokensFallBack(today: Date)
    requires ValidDate(today)
    ensures Resolve("month", today) == MonthToDate(today)
    ensures Resolve("qtd", today) == MonthToDate(today)
  {
    SplitNoSeparator("month", '_');
    SplitNoSeparator("qtd", '_');
  }

  lemma ResolveYearZeroFallsBack(token: string, today: Date)
    requires ValidDate(today) && token == "june_0"
    ensures Resolve(token, today) == MonthToDate(today)
  {
    assert "june" + "_" + "0" == token;
    SplitAtSeparator("june", "0", '_');
    assert DigitsValue("0") == 0;
    assert ParseInt("0") == Some(0);
    assert MonthYearWindow(token).None?;
    assert !IsFixedToken(token);
  }

  /** December 9999 has no following month to roll over to, so the bare
      `except` turns it into the default window as well. */
  lemma ResolveLastDecemberFallsBack(token: string, today: Date)
    requires ValidDate(today) && token == "december_9999"
    ensures Resolve(token, today) == MonthToDate(today)
  {
    MonthNumberOfName(12);
    assert Lower("december") == "december";
    DigitsRoundTrip(9999);
    assert NatToString(9999) == "9999";
    assert "december" + "_" + "9999" == token;
    SplitAtSeparator("december", "9999", '_');
  }
}
