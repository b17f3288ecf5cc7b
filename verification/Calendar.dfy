/** The Gregorian calendar as Go's time package counts it: days in one sequence, and AddDate, which normalises a day
    that its month does not have into the following months. */
module Calendar {
  /** Days, counted from 1 January of year 1. */
  type Day = int

  datatype Date = Date(year: int, month: int, day: int)

  predicate IsLeap(year: int) {
    year % 4 == 0 && (year % 100 != 0 || year % 400 == 0)
  }

  function MonthDays(year: int, month: int): int
    requires 1 <= month <= 12
  {
    if month == 2 then (if IsLeap(year) then 29 else 28)
    else if month == 4 || month == 6 || month == 9 || month == 11 then 30
    else 31
  }

  function YearDays(year: int): int {
    if IsLeap(year) then 366 else 365
  }

  /** Days of all the years before a year. */
  function DaysBeforeYear(year: int): int {
    var y := year - 1;
    365 * y + y / 4 - y / 100 + y / 400
  }

  /** Days of all the months of a year before a month. */
  function DaysBeforeMonth(year: int, month: int): int
    requires 1 <= month <= 13
    decreases month
  {
    if month == 1 then 0 else DaysBeforeMonth(year, month - 1) + MonthDays(year, month - 1)
  }

  predicate Valid(date: Date) {
    1 <= date.month <= 12 && 1 <= date.day <= MonthDays(date.year, date.month)
  }

  /** The day of a date; a day of the month that is out of range counts on into the neighbouring months. */
  function DayOf(date: Date): Day
    requires 1 <= date.month <= 12
  {
    DaysBeforeYear(date.year) + DaysBeforeMonth(date.year, date.month) + date.day - 1
  }

  // ---- From a day back to its date ----

  /** The year of a day, by cycles of 400, 100, 4 and 1 years. */
  function YearOf(day: Day): int {
    var n400, in400 := day / 146097, day % 146097;
    var n100 := in400 / 36524 - in400 / 36524 / 4;
    var in100 := in400 - 36524 * n100;
    var n4, in4 := in100 / 1461, in100 % 1461;
    var n1 := in4 / 365 - in4 / 365 / 4;
    400 * n400 + 100 * n100 + 4 * n4 + n1 + 1
  }

  function MonthFrom(year: int, month: int, dayOfYear: int): int
    requires 1 <= month <= 12
    decreases 12 - month
  {
    if month == 12 || dayOfYear < DaysBeforeMonth(year, month + 1) then month else MonthFrom(year, month + 1, dayOfYear)
  }

  function DateOf(day: Day): Date {
    var year := YearOf(day);
    var dayOfYear := day - DaysBeforeYear(year);
    var month := MonthFrom(year, 1, dayOfYear);
    if 1 <= month <= 12 then Date(year, month, dayOfYear - DaysBeforeMonth(year, month) + 1) else Date(year, 1, 1)
  }

  lemma {:induction false} YearMultiples(y: int)
    ensures y / 4 == (y - 1) / 4 + if y % 4 == 0 then 1 else 0
    ensures y / 100 == (y - 1) / 100 + if y % 100 == 0 then 1 else 0
    ensures y / 400 == (y - 1) / 400 + if y % 400 == 0 then 1 else 0
    ensures y % 400 == 0 ==> y % 100 == 0
    ensures y % 100 == 0 ==> y % 4 == 0
  {
  }

  /** The years follow each other without gap, and the months fill each year. */
  lemma {:induction false} YearLength(year: int)
    ensures DaysBeforeYear(year + 1) == DaysBeforeYear(year) + YearDays(year)
  {
    YearMultiples(year);
  }

  lemma {:induction false} MonthTable(year: int)
    ensures var feb := MonthDays(year, 2);
      && DaysBeforeMonth(year, 2) == 31 && DaysBeforeMonth(year, 3) == 31 + feb && DaysBeforeMonth(year, 4) == 62 + feb
      && DaysBeforeMonth(year, 5) == 92 + feb && DaysBeforeMonth(year, 6) == 123 + feb
      && DaysBeforeMonth(year, 7) == 153 + feb
      && DaysBeforeMonth(year, 8) == 184 + feb && DaysBeforeMonth(year, 9) == 215 + feb
      && DaysBeforeMonth(year, 10) == 245 + feb
      && DaysBeforeMonth(year, 11) == 276 + feb && DaysBeforeMonth(year, 12) == 306 + feb
      && DaysBeforeMonth(year, 13) == 337 + feb == YearDays(year)
  {
  }

  lemma {:induction false} By4(q: int, r: int)
    requires 0 <= r < 4
    ensures (4 * q + r) / 4 == q && (4 * q + r) % 4 == r
  {
  }

  lemma {:induction false} By100(q: int, r: int)
    requires 0 <= r < 100
    ensures (100 * q + r) / 100 == q && (100 * q + r) % 100 == r
  {
  }

  lemma {:induction false} By400(q: int, r: int)
    requires 0 <= r < 400
    ensures (400 * q + r) / 400 == q && (400 * q + r) % 400 == r
  {
  }

  /** A year count in cycles of 400, 100, 4 and 1 years. */
  function Cycles(a: int, b: int, c: int, d: int): int {
    400 * a + 100 * b + 4 * c + d
  }

  lemma {:induction false} CyclesDays(a: int, b: int, c: int, d: int)
    requires 0 <= b <= 3 && 0 <= c <= 24 && 0 <= d <= 3
    ensures DaysBeforeYear(Cycles(a, b, c, d) + 1) == 146097 * a + 36524 * b + 1461 * c + 365 * d
  {
    By4(100 * a + 25 * b + c, d);
    By100(4 * a + b, 4 * c + d);
    By400(a, 100 * b + 4 * c + d);
  }

  lemma {:induction false} CyclesLeap(a: int, b: int, c: int, d: int)
    requires 0 <= b <= 3 && 0 <= c <= 24 && 0 <= d <= 3
    ensures IsLeap(Cycles(a, b, c, d) + 1) <==> d == 3 && (c < 24 || b == 3)
  {
    if d < 3 {
      By4(100 * a + 25 * b + c, d + 1);
    } else {
      By4(100 * a + 25 * b + c + 1, 0);
    }
    if d < 3 || c < 24 {
      By100(4 * a + b, 4 * c + d + 1);
    } else {
      By100(4 * a + b + 1, 0);
    }
    if d < 3 || c < 24 || b < 3 {
      By400(a, 100 * b + 4 * c + d + 1);
    } else {
      By400(a + 1, 0);
    }
  }

  lemma {:induction false} CycleOfDay(day: Day) returns (a: int, b: int, c: int, d: int, rest: int)
    ensures 0 <= b <= 3 && 0 <= c <= 24 && 0 <= d <= 3
    ensures YearOf(day) == Cycles(a, b, c, d) + 1
    ensures day == 146097 * a + 36524 * b + 1461 * c + 365 * d + rest
    ensures 0 <= rest < 365 || (rest == 365 && d == 3 && (c < 24 || b == 3))
  {
    a := day / 146097;
    var in400 := day % 146097;
    b := in400 / 36524 - in400 / 36524 / 4;
    var in100 := in400 - 36524 * b;
    assert 0 <= b <= 3 && 0 <= in100 <= 36524 && (b < 3 ==> in100 < 36524);
    c := in100 / 1461;
    var in4 := in100 % 1461;
    assert 0 <= c <= 24 && (b < 3 && c == 24 ==> in4 < 1460);
    d := in4 / 365 - in4 / 365 / 4;
    rest := in4 - 365 * d;
  }

  /** The cycles find the year that a day falls in. */
  lemma {:induction false} YearContains(day: Day)
    ensures var year := YearOf(day); DaysBeforeYear(year) <= day < DaysBeforeYear(year + 1)
  {
    var a, b, c, d, rest := CycleOfDay(day);
    CyclesDays(a, b, c, d);
    CyclesLeap(a, b, c, d);
    YearLength(YearOf(day));
  }

  lemma {:induction false} YearsGrow(y: int, z: int)
    requires y <= z
    ensures DaysBeforeYear(y) <= DaysBeforeYear(z)
    decreases z - y
  {
    if y < z {
      YearsGrow(y, z - 1);
      YearLength(z - 1);
    }
  }

  lemma {:induction false} MonthsGrow(year: int, m: int, n: int)
    requires 1 <= m <= n <= 13
    ensures DaysBeforeMonth(year, m) + 28 * (n - m) <= DaysBeforeMonth(year, n)
    decreases n
  {
    if m < n {
      MonthsGrow(year, m, n - 1);
    }
  }

  lemma {:induction false} MonthContains(year: int, month: int, dayOfYear: int)
    requires 1 <= month <= 12 && DaysBeforeMonth(year, month) <= dayOfYear < YearDays(year)
    ensures var m := MonthFrom(year, month, dayOfYear);
      month <= m <= 12 && DaysBeforeMonth(year, m) <= dayOfYear < DaysBeforeMonth(year, m + 1)
    decreases 12 - month
  {
    if month == 12 {
      MonthTable(year);
    } else if dayOfYear >= DaysBeforeMonth(year, month + 1) {
      MonthContains(year, month + 1, dayOfYear);
    }
  }

  /** Every day has a valid date, of which it is the day ... */
  lemma {:induction false} DayHasDate(day: Day)
    ensures Valid(DateOf(day)) && DayOf(DateOf(day)) == day
  {
    YearContains(day);
    YearLength(YearOf(day));
    MonthContains(YearOf(day), 1, day - DaysBeforeYear(YearOf(day)));
  }

  /** ... and only that one. */
  lemma {:induction false} DateOfDay(date: Date)
    requires Valid(date)
    ensures DateOf(DayOf(date)) == date
  {
    var found := DateOf(DayOf(date));
    DayHasDate(DayOf(date));
    SameDaySameDate(date, found);
  }

  lemma {:induction false} DayWithinYear(date: Date)
    requires Valid(date)
    ensures DaysBeforeYear(date.year) <= DayOf(date) < DaysBeforeYear(date.year + 1)
  {
    MonthTable(date.year);
    MonthsGrow(date.year, 1, date.month);
    MonthsGrow(date.year, date.month + 1, 13);
    YearLength(date.year);
  }

  lemma {:induction false} LaterYearLaterDay(a: Date, b: Date)
    requires Valid(a) && Valid(b) && a.year < b.year
    ensures DayOf(a) < DayOf(b)
  {
    DayWithinYear(a);
    DayWithinYear(b);
    YearsGrow(a.year + 1, b.year);
  }

  lemma {:induction false} LaterMonthLaterDay(a: Date, b: Date)
    requires Valid(a) && Valid(b) && a.year == b.year && a.month < b.month
    ensures DayOf(a) < DayOf(b)
  {
    MonthsGrow(a.year, a.month + 1, b.month);
  }

  lemma {:induction false} SameDaySameDate(a: Date, b: Date)
    requires Valid(a) && Valid(b) && DayOf(a) == DayOf(b)
    ensures a == b
  {
    if a.year < b.year {
      LaterYearLaterDay(a, b);
    } else if b.year < a.year {
      LaterYearLaterDay(b, a);
    } else if a.month < b.month {
      LaterMonthLaterDay(a, b);
    } else if b.month < a.month {
      LaterMonthLaterDay(b, a);
    }
  }

  // ---- AddDate ----

  /** The date k months on, its day of the month unchanged and perhaps out of range. */
  function Shifted(date: Date, k: int): Date {
    var months := 12 * date.year + date.month - 1 + k;
    Date(months / 12, months % 12 + 1, date.day)
  }

  function AddMonths(day: Day, k: int): Day {
    DayOf(Shifted(DateOf(day), k))
  }

  /** How long the k months from a month on are. */
  function Span(year: int, month: int, k: nat): int
    requires 1 <= month <= 12
    decreases k
  {
    if k == 0 then 0 else MonthDays(year, month) + if month == 12 then Span(year + 1, 1, k - 1)
      else Span(year, month + 1, k - 1)
  }

  /** A period of k months lasts exactly as many days as the k calendar months from its first day's month on. */
  lemma {:induction false} AddMonthsSpans(day: Day, k: nat)
    ensures AddMonths(day, k) == day + Span(DateOf(day).year, DateOf(day).month, k)
  {
    DayHasDate(day);
    ShiftedSpans(DateOf(day), k);
  }

  lemma {:induction false} ShiftedSpans(date: Date, k: nat)
    requires 1 <= date.month <= 12
    ensures DayOf(Shifted(date, k)) == DayOf(date) + Span(date.year, date.month, k)
    decreases k
  {
    if k > 0 {
      var next := Shifted(date, 1);
      NextMonth(date);
      ShiftedSpans(next, k - 1);
      assert Shifted(next, k - 1) == Shifted(date, k);
    } else {
      assert Shifted(date, 0) == date;
    }
  }

  lemma {:induction false} NextMonth(date: Date)
    requires 1 <= date.month <= 12
    ensures Shifted(date, 1) == if date.month == 12 then Date(date.year + 1, 1, date.day)
      else Date(date.year, date.month + 1, date.day)
    ensures DayOf(Shifted(date, 1)) == DayOf(date) + MonthDays(date.year, date.month)
  {
    if date.month == 12 {
      MonthTable(date.year);
      YearLength(date.year);
    }
  }

  // ---- How long periods are ----

  lemma {:induction false} SpanFromTable(year: int, month: int, k: nat)
    requires 1 <= month <= 12 && k <= 12
    ensures Span(year, month, k) ==
      if month + k <= 13 then DaysBeforeMonth(year, month + k) - DaysBeforeMonth(year, month)
      else YearDays(year) - DaysBeforeMonth(year, month) + DaysBeforeMonth(year + 1, month + k - 12)
    decreases k
  {
    if k > 0 {
      if month == 12 {
        SpanFromTable(year + 1, 1, k - 1);
        MonthTable(year);
      } else {
        SpanFromTable(year, month + 1, k - 1);
      }
    }
    if month + k > 12 {
      MonthTable(year);
    }
  }

  /** One month is 28 to 31 days, three are 89 to 92, six are 181 to 184, and twelve are a year of 365 or 366. */
  lemma {:induction false} SpanBounds(year: int, month: int)
    requires 1 <= month <= 12
    ensures Span(year, month, 1) == MonthDays(year, month) && 28 <= Span(year, month, 1) <= 31
    ensures 89 <= Span(year, month, 3) <= 92
    ensures 181 <= Span(year, month, 6) <= 184
    ensures Span(year, month, 12) == if month <= 2 then YearDays(year) else YearDays(year + 1)
  {
    MonthTable(year);
    MonthTable(year + 1);
    SpanFromTable(year, month, 1);
    SpanFromTable(year, month, 3);
    SpanFromTable(year, month, 6);
    SpanFromTable(year, month, 12);
  }

  // ---- Twelve monthly periods and one year ----

  /** The end of n monthly periods, each starting where the one before ends. */
  function Chain(day: Day, n: nat): Day {
    if n == 0 then day else AddMonths(Chain(day, n - 1), 1)
  }

  lemma {:induction false} ShiftTwice(date: Date, j: int, k: int)
    requires 1 <= date.month <= 12
    ensures Shifted(Shifted(date, j), k) == Shifted(date, j + k)
  {
  }

  lemma {:induction false} AddToDate(date: Date, k: int)
    requires Valid(date)
    ensures AddMonths(DayOf(date), k) == DayOf(Shifted(date, k))
  {
    DateOfDay(date);
  }

  /** As long as no step but the last leaves its month, the chain keeps pace with the calendar. */
  lemma {:induction false} ChainKeepsPace(date: Date, n: nat)
    requires Valid(date)
    requires forall i :: 1 <= i < n ==> Valid(Shifted(date, i))
    ensures Chain(DayOf(date), n) == DayOf(Shifted(date, n))
  {
    hide AddMonths, DayOf;
    if n == 0 {
      assert Shifted(date, 0) == date;
    } else {
      ChainKeepsPace(date, n - 1);
      AddToDate(if n == 1 then date else Shifted(date, n - 1), 1);
      ShiftTwice(date, n - 1, 1);
    }
  }

  lemma {:induction false} ChainAdds(day: Day, m: nat, n: nat)
    ensures Chain(day, m + n) == Chain(Chain(day, m), n)
  {
    hide AddMonths;
    if n > 0 {
      ChainAdds(day, m, n - 1);
    }
  }

  /** The first step that leaves its month, if any comes before step n. */
  function FirstOverflow(date: Date, i: nat, n: nat): nat
    requires 1 <= date.month <= 12 && i <= n
    decreases n - i
  {
    if i == n || !Valid(Shifted(date, i)) then i else FirstOverflow(date, i + 1, n)
  }

  lemma {:induction false} FirstOverflowIsFirst(date: Date, i: nat, n: nat)
    requires 1 <= date.month <= 12 && i <= n
    ensures i <= FirstOverflow(date, i, n) <= n
    ensures forall j :: i <= j < FirstOverflow(date, i, n) ==> Valid(Shifted(date, j))
    ensures FirstOverflow(date, i, n) < n ==> !Valid(Shifted(date, FirstOverflow(date, i, n)))
    decreases n - i
  {
    if i < n && Valid(Shifted(date, i)) {
      FirstOverflowIsFirst(date, i + 1, n);
    }
  }

  /** The date that a day beyond the end of its month normalises to. */
  lemma {:induction false} Normalised(date: Date)
    requires 1 <= date.month <= 12 && MonthDays(date.year, date.month) < date.day <= 31
    ensures var next := Shifted(date, 1).(day := date.day - MonthDays(date.year, date.month));
      Valid(next) && next.day <= 3 && DayOf(next) == DayOf(date) && DateOf(DayOf(date)) == next
  {
    NextMonth(date);
    DateOfDay(Shifted(date, 1).(day := date.day - MonthDays(date.year, date.month)));
  }

  /** A step that leaves its month makes every later step late: by the days that the month of the overflow is shorter
      than the month where the chain ends. */
  lemma {:induction false} OverflowDelays(date: Date, i: nat, n: nat)
    requires Valid(date) && 1 <= i <= n
    requires forall j :: 1 <= j < i ==> Valid(Shifted(date, j))
    requires !Valid(Shifted(date, i))
    ensures var (at, end) := (Shifted(date, i), Shifted(date, n));
      Chain(DayOf(date), n) == DayOf(end) + MonthDays(end.year, end.month) - MonthDays(at.year, at.month)
  {
    hide AddMonths, Chain, DateOf, DayOf;
    var at, end := Shifted(date, i), Shifted(date, n);
    var late := date.day - MonthDays(at.year, at.month);
    ChainKeepsPace(date, i);
    Normalised(at);
    var next := Shifted(at, 1).(day := late);
    ChainKeepsPace(next, n - i);
    ChainAdds(DayOf(date), i, n - i);
    EndOfDelay(date, i, n);
  }

  lemma {:induction false} EndOfDelay(date: Date, i: nat, n: nat)
    requires 1 <= date.month <= 12 && i <= n
    ensures var (at, end) := (Shifted(date, i), Shifted(date, n));
      var late := date.day - MonthDays(at.year, at.month);
      var next := Shifted(at, 1).(day := late);
      DayOf(Shifted(next, n - i)) == DayOf(end) + MonthDays(end.year, end.month) - MonthDays(at.year, at.month)
  {
    hide DayOf;
    var end, at := Shifted(date, n), Shifted(date, i);
    ShiftTwice(date, i, n - i);
    ShiftTwice(at, 1, n - i);
    ShiftTwice(at, n - i, 1);
    NextMonth(end);
    Earlier(Shifted(end, 1), MonthDays(at.year, at.month));
  }

  lemma {:induction false} Earlier(date: Date, days: int)
    requires 1 <= date.month <= 12
    ensures DayOf(date.(day := date.day - days)) == DayOf(date) - days
  {
  }

  /** The year of the first February after a date. */
  function NextFebruary(date: Date): int {
    if date.month == 1 then date.year else date.year + 1
  }

  predicate MonthlyIsYearly(date: Date) {
    date.day <= 28 || (date.day == 29 && (date.month == 2 || IsLeap(NextFebruary(date))))
  }

  lemma {:induction false} NoOverflowWithinYear(date: Date, i: int)
    requires Valid(date) && MonthlyIsYearly(date) && 1 <= i < 12
    ensures Valid(Shifted(date, i))
  {
  }

  lemma {:induction false} OverflowWithinYear(date: Date) returns (i: nat)
    requires Valid(date) && !MonthlyIsYearly(date)
    ensures 1 <= i < 12 && !Valid(Shifted(date, i))
  {
    i := if date.month == 1 then 1 else 14 - date.month;
    assert Shifted(date, i) == Date(NextFebruary(date), 2, date.day);
  }

  /** Twelve monthly periods end where one annual period ends exactly when the first day is at most the 28th, or is the
      29th and either in February or before a February that has a 29th. */
  lemma {:induction false} TwelveMonthsAreAYear(day: Day)
    ensures Chain(day, 12) == AddMonths(day, 12) <==> MonthlyIsYearly(DateOf(day))
  {
    hide AddMonths, Chain, DateOf, DayOf;
    DayHasDate(day);
    var date := DateOf(day);
    AddToDate(date, 12);
    if MonthlyIsYearly(date) {
      forall i | 1 <= i < 12 ensures Valid(Shifted(date, i)) {
        NoOverflowWithinYear(date, i);
      }
      ChainKeepsPace(date, 12);
    } else {
      var j := OverflowWithinYear(date);
      FirstOverflowIsFirst(date, 1, 12);
      var i := FirstOverflow(date, 1, 12);
      OverflowDelays(date, i, 12);
      assert Shifted(date, 12) == Date(date.year + 1, date.month, date.day);
    }
  }
}
