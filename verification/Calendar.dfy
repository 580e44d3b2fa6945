/** The proleptic Gregorian calendar that the timestamp codec counts days in. */
module Calendar {
  predicate Leap(year: int) {
    year % 4 == 0 && (year % 100 != 0 || year % 400 == 0)
  }

  function DaysInMonth(year: int, month: int): (days: int)
    requires 1 <= month <= 12
    ensures 28 <= days <= 31
  {
    if month == 2 then (if Leap(year) then 29 else 28)
    else if month in {4, 6, 9, 11} then 30
    else 31
  }

  function DaysInYear(year: int): int {
    if Leap(year) then 366 else 365
  }

  const MIN_YEAR := 1
  const MAX_YEAR := 9999

  datatype Date = Date(year: int, month: int, day: int) {
    predicate Valid() {
      && MIN_YEAR <= year <= MAX_YEAR
      && 1 <= month <= 12
      && 1 <= day <= DaysInMonth(year, month)
    }
  }

  /** Days before 1 January of `year`, counted from 1 January of year 1. */
  function DaysBeforeYear(year: int): int {
    var y := year - 1;
    365 * y + y / 4 - y / 100 + y / 400
  }

  function DaysBeforeMonth(year: int, month: int): (days: int)
    requires 1 <= month <= 13
    decreases month
  {
    if month == 1 then 0 else DaysBeforeMonth(year, month - 1) + DaysInMonth(year, month - 1)
  }

  /** Days from 1 January of year 1 to `date`. */
  function DayNumber(date: Date): int
    requires 1 <= date.month <= 12
  {
    DaysBeforeYear(date.year) + DaysBeforeMonth(date.year, date.month) + date.day - 1
  }

  const EPOCH_DAY := 719162
  const LAST_DAY := 3652058

  lemma {:induction false} MonthTable(year: int)
    ensures DaysBeforeMonth(year, 1) == 0
    ensures DaysBeforeMonth(year, 2) == 31
    ensures var f := if Leap(year) then 29 else 28;
            && DaysBeforeMonth(year, 3) == 31 + f
            && DaysBeforeMonth(year, 4) == 62 + f
            && DaysBeforeMonth(year, 5) == 92 + f
            && DaysBeforeMonth(year, 6) == 123 + f
            && DaysBeforeMonth(year, 7) == 153 + f
            && DaysBeforeMonth(year, 8) == 184 + f
            && DaysBeforeMonth(year, 9) == 215 + f
            && DaysBeforeMonth(year, 10) == 245 + f
            && DaysBeforeMonth(year, 11) == 276 + f
            && DaysBeforeMonth(year, 12) == 306 + f
            && DaysBeforeMonth(year, 13) == 337 + f
    ensures DaysBeforeMonth(year, 13) == DaysInYear(year)
  {
    assert DaysBeforeMonth(year, 2) == 31;
    assert DaysBeforeMonth(year, 3) == 31 + DaysInMonth(year, 2);
    assert DaysBeforeMonth(year, 4) == DaysBeforeMonth(year, 3) + 31;
    assert DaysBeforeMonth(year, 5) == DaysBeforeMonth(year, 4) + 30;
    assert DaysBeforeMonth(year, 6) == DaysBeforeMonth(year, 5) + 31;
    assert DaysBeforeMonth(year, 7) == DaysBeforeMonth(year, 6) + 30;
    assert DaysBeforeMonth(year, 8) == DaysBeforeMonth(year, 7) + 31;
    assert DaysBeforeMonth(year, 9) == DaysBeforeMonth(year, 8) + 31;
    assert DaysBeforeMonth(year, 10) == DaysBeforeMonth(year, 9) + 30;
    assert DaysBeforeMonth(year, 11) == DaysBeforeMonth(year, 10) + 31;
    assert DaysBeforeMonth(year, 12) == DaysBeforeMonth(year, 11) + 30;
    assert DaysBeforeMonth(year, 13) == DaysBeforeMonth(year, 12) + 31;
  }

  lemma {:induction false} EpochIsFirstOfJanuary1970()
    ensures DayNumber(Date(1970, 1, 1)) == EPOCH_DAY
    ensures DayNumber(Date(9999, 12, 31)) == LAST_DAY
    ensures DayNumber(Date(1, 1, 1)) == 0
  {
    MonthTable(1970);
    MonthTable(9999);
    MonthTable(1);
  }

  /** The arithmetic of `DaysBeforeYear` agrees with the leap-year rule of
      RFC 3339, Appendix C. */
  lemma {:induction false} YearLength(year: int)
    ensures DaysBeforeYear(year + 1) == DaysBeforeYear(year) + DaysInYear(year)
  {
    var y := year - 1;
    assert year / 4 == y / 4 + (if year % 4 == 0 then 1 else 0);
    assert year / 100 == y / 100 + (if year % 100 == 0 then 1 else 0);
    assert year / 400 == y / 400 + (if year % 400 == 0 then 1 else 0);
  }

  lemma {:induction false} MonthsMonotone(year: int, low: int, high: int)
    requires 1 <= low <= high <= 13
    ensures DaysBeforeMonth(year, low) + 28 * (high - low) <= DaysBeforeMonth(year, high)
    decreases high - low
  {
    if low < high {
      MonthsMonotone(year, low, high - 1);
    }
  }

  lemma {:induction false} YearsMonotone(low: int, high: int)
    requires low <= high
    ensures DaysBeforeYear(low) + 365 * (high - low) <= DaysBeforeYear(high)
    decreases high - low
  {
    if low < high {
      YearsMonotone(low, high - 1);
      YearLength(high - 1);
    }
  }

  /** Calendar order on dates. */
  predicate Earlier(a: Date, b: Date) {
    || a.year < b.year
    || (a.year == b.year && a.month < b.month)
    || (a.year == b.year && a.month == b.month && a.day < b.day)
  }

  lemma {:induction false} DayWithinYear(date: Date)
    requires date.Valid()
    ensures DaysBeforeYear(date.year) <= DayNumber(date) < DaysBeforeYear(date.year + 1)
  {
    YearLength(date.year);
    MonthTable(date.year);
    MonthsMonotone(date.year, 1, date.month);
    MonthsMonotone(date.year, date.month + 1, 13);
  }

  lemma {:induction false} LaterYear(a: Date, b: Date)
    requires a.Valid() && b.Valid() && a.year < b.year
    ensures DayNumber(a) < DayNumber(b)
  {
    DayWithinYear(a);
    DayWithinYear(b);
    YearsMonotone(a.year + 1, b.year);
  }

  lemma {:induction false} LaterInYear(year: int, m: int, d: int, m': int, d': int)
    requires 1 <= m <= 12 && 1 <= m' <= 12
    requires 1 <= d <= DaysInMonth(year, m) && 1 <= d'
    requires m < m' || (m == m' && d < d')
    ensures DaysBeforeMonth(year, m) + d < DaysBeforeMonth(year, m') + d'
  {
    if m < m' {
      MonthsMonotone(year, m + 1, m');
    }
  }

  lemma {:induction false} DayNumberStrict(a: Date, b: Date)
    requires a.Valid() && b.Valid() && Earlier(a, b)
    ensures DayNumber(a) < DayNumber(b)
  {
    if a.year < b.year {
      LaterYear(a, b);
    } else {
      LaterInYear(a.year, a.month, a.day, b.month, b.day);
    }
  }

  /** Counting days preserves calendar order in both directions, so no two valid
      dates share a day number. */
  lemma {:induction false} DayNumberOrder(a: Date, b: Date)
    requires a.Valid() && b.Valid()
    ensures Earlier(a, b) <==> DayNumber(a) < DayNumber(b)
    ensures DayNumber(a) == DayNumber(b) ==> a == b
    ensures 0 <= DayNumber(a) <= LAST_DAY
  {
    if Earlier(a, b) { DayNumberStrict(a, b); }
    if Earlier(b, a) { DayNumberStrict(b, a); }
    EpochIsFirstOfJanuary1970();
    if a != Date(1, 1, 1) { DayNumberStrict(Date(1, 1, 1), a); }
    if a != Date(9999, 12, 31) { DayNumberStrict(a, Date(9999, 12, 31)); }
  }

  /** The year that contains day `n`, by splitting off whole 400-, 100-, 4- and
      1-year cycles. */
  function YearOfDay(n: nat): int {
    var n400, r400 := n / 146097, n % 146097;
    var n100, r100 := r400 / 36524, r400 % 36524;
    var n4, r4 := r100 / 1461, r100 % 1461;
    var n1 := r4 / 365;
    var year := 400 * n400 + 100 * n100 + 4 * n4 + n1;
    if n1 == 4 || n100 == 4 then year else year + 1
  }

  lemma {:induction false} Quotient4(x: int, q: int, r: int)
    requires x == 4 * q + r && 0 <= r < 4
    ensures x / 4 == q && x % 4 == r
  {}

  lemma {:induction false} Quotient100(x: int, q: int, r: int)
    requires x == 100 * q + r && 0 <= r < 100
    ensures x / 100 == q && x % 100 == r
  {}

  lemma {:induction false} Quotient400(x: int, q: int, r: int)
    requires x == 400 * q + r && 0 <= r < 400
    ensures x / 400 == q && x % 400 == r
  {}

  /** A year inside the cycles starts after the days of the cycles before it. */
  lemma {:induction false} CycleDays(a: int, b: int, c: int, d: int)
    requires 0 <= b <= 3 && 0 <= c <= 24 && 0 <= d <= 3
    ensures DaysBeforeYear(400 * a + 100 * b + 4 * c + d + 1) == 146097 * a + 36524 * b + 1461 * c + 365 * d
  {
    var y := 400 * a + 100 * b + 4 * c + d;
    Quotient4(y, 100 * a + 25 * b + c, d);
    Quotient100(y, 4 * a + b, 4 * c + d);
    Quotient400(y, a, 100 * b + 4 * c + d);
  }

  /** The last year of a four-year cycle is a leap year, except at the end of a century
      that does not end a 400-year cycle. */
  lemma {:induction false} CycleLeap(a: int, b: int, c: int, d: int)
    requires 0 <= b <= 3 && 0 <= c <= 24 && 0 <= d <= 3
    ensures Leap(400 * a + 100 * b + 4 * c + d + 1) <==> d == 3 && (c != 24 || b == 3)
  {
    var x := 400 * a + 100 * b + 4 * c + d + 1;
    if d < 3 {
      Quotient4(x, 100 * a + 25 * b + c, d + 1);
    } else if c < 24 {
      Quotient4(x, 100 * a + 25 * b + c + 1, 0);
      Quotient100(x, 4 * a + b, 4 * c + 4);
    } else if b < 3 {
      Quotient4(x, 100 * a + 25 * b + 25, 0);
      Quotient100(x, 4 * a + b + 1, 0);
      Quotient400(x, a, 100 * b + 100);
    } else {
      Quotient4(x, 100 * a + 100, 0);
      Quotient400(x, a + 1, 0);
    }
  }

  /** The chosen year really contains the day. */
  lemma {:induction false} YearOfDayContains(n: nat)
    ensures DaysBeforeYear(YearOfDay(n)) <= n < DaysBeforeYear(YearOfDay(n) + 1)
  {
    var n400, r400 := n / 146097, n % 146097;
    var n100, r100 := r400 / 36524, r400 % 36524;
    var n4, r4 := r100 / 1461, r100 % 1461;
    var n1 := r4 / 365;
    assert n == 146097 * n400 + 36524 * n100 + 1461 * n4 + r4;
    assert n4 <= 24;
    if n100 == 4 {
      assert r400 == 146096 && n4 == 0 && n1 == 0;
      CycleDays(n400, 3, 24, 3);
      CycleLeap(n400, 3, 24, 3);
      YearLength(YearOfDay(n));
    } else if n1 == 4 {
      assert r4 == 1460;
      CycleDays(n400, n100, n4, 3);
      CycleLeap(n400, n100, n4, 3);
      assert n4 < 24;
      YearLength(YearOfDay(n));
    } else {
      CycleDays(n400, n100, n4, n1);
      CycleLeap(n400, n100, n4, n1);
      YearLength(YearOfDay(n));
    }
  }

  /** The month of a year in which the day with offset `rest` falls, searching from `month`. */
  function MonthOfDay(year: int, rest: int, month: int): (m: int)
    requires 1 <= month <= 12
    requires DaysBeforeMonth(year, month) <= rest < DaysBeforeMonth(year, 13)
    ensures month <= m <= 12
    ensures DaysBeforeMonth(year, m) <= rest < DaysBeforeMonth(year, m + 1)
    decreases 13 - month
  {
    if rest < DaysBeforeMonth(year, month + 1) then month else MonthOfDay(year, rest, month + 1)
  }

  function DateOfDay(n: nat): (date: Date)
    ensures 1 <= date.month <= 12 && 1 <= date.day <= DaysInMonth(date.year, date.month)
    ensures DayNumber(date) == n
  {
    YearOfDayContains(n);
    var year := YearOfDay(n);
    var rest := n - DaysBeforeYear(year);
    YearLength(year);
    MonthTable(year);
    var month := MonthOfDay(year, rest, 1);
    Date(year, month, rest - DaysBeforeMonth(year, month) + 1)
  }

  lemma {:induction false} DayInCalendar(n: nat)
    requires n <= LAST_DAY
    ensures DateOfDay(n).Valid()
  {
    var date := DateOfDay(n);
    YearOfDayContains(n);
    if date.year < 1 { YearsMonotone(date.year + 1, 1); }
    if date.year > 9999 { YearsMonotone(10000, date.year); }
  }

  /** Splitting a day number into a date and counting days are inverse. */
  lemma {:induction false} DateRoundTrip(date: Date, n: nat)
    requires date.Valid() && n <= LAST_DAY
    ensures DayNumber(date) >= 0 && DateOfDay(DayNumber(date)) == date
    ensures DateOfDay(n).Valid() && DayNumber(DateOfDay(n)) == n
  {
    DayInCalendar(n);
    DayNumberOrder(date, date);
    DayInCalendar(DayNumber(date));
    DayNumberOrder(date, DateOfDay(DayNumber(date)));
  }
}
