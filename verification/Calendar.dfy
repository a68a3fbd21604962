/** Days of the proleptic Gregorian calendar, counted two ways. */
module Calendar {

  // `Ordinal` is the closed form that date constructors use. `DateOf` counts forward from the first
  // day one calendar day at a time, as a clock that reads off dates does. The lemmas show that each
  // undoes the other and that day order, ordinal order and written order agree.

  datatype Date = Date(year: int, month: int, day: int)

  const MS_PER_DAY := 86_400_000
  const MAX_YEAR := 9999
  /** The ordinal of 1970-01-01. */
  const EPOCH_ORDINAL := 719_163

  predicate IsLeap(year: int) {
    year % 4 == 0 && (year % 100 != 0 || year % 400 == 0)
  }

  function YearLength(year: int): int {
    if IsLeap(year) then 366 else 365
  }

  function DaysInMonth(year: int, month: int): int {
    if month == 2 then (if IsLeap(year) then 29 else 28)
    else if month == 4 || month == 6 || month == 9 || month == 11 then 30
    else 31
  }

  predicate ValidDate(d: Date) {
    d.year >= 1 && 1 <= d.month <= 12 && 1 <= d.day <= DaysInMonth(d.year, d.month)
  }

  predicate DateLess(a: Date, b: Date) {
    || a.year < b.year
    || (a.year == b.year && (a.month < b.month || (a.month == b.month && a.day < b.day)))
  }

  function NextDay(d: Date): Date {
    if d.day < DaysInMonth(d.year, d.month) then Date(d.year, d.month, d.day + 1)
    else if d.month < 12 then Date(d.year, d.month + 1, 1)
    else Date(d.year + 1, 1, 1)
  }

  function DaysBeforeYear(year: int): int {
    var y := year - 1;
    y * 365 + y / 4 - y / 100 + y / 400
  }

  function DaysBeforeMonth(year: int, month: int): int
    requires 1 <= month <= 12
    decreases month
  {
    if month == 1 then 0 else DaysBeforeMonth(year, month - 1) + DaysInMonth(year, month - 1)
  }

  function Ordinal(d: Date): int
    requires ValidDate(d)
  {
    DaysBeforeYear(d.year) + DaysBeforeMonth(d.year, d.month) + d.day
  }

  /** The date that `n` days of counting reach, where 1 is 0001-01-01. */
  function DateOf(n: int): (d: Date)
    requires n >= 1
    ensures ValidDate(d)
  {
    if n == 1 then Date(1, 1, 1) else NextDay(DateOf(n - 1))
  }

  lemma {:induction false} MonthsFillYear(year: int, month: int)
    requires 1 <= month <= 12
    ensures DaysBeforeMonth(year, month) + DaysInMonth(year, month) <= YearLength(year)
    ensures month == 12 ==> DaysBeforeMonth(year, month) + DaysInMonth(year, month) == YearLength(year)
    ensures DaysBeforeMonth(year, month) >= 0
  {
    var jan := DaysBeforeMonth(year, 2);
    var q1 := DaysBeforeMonth(year, 4);
    var q2 := DaysBeforeMonth(year, 7);
    var q3 := DaysBeforeMonth(year, 10);
    assert DaysBeforeMonth(year, 3) == 31 + DaysInMonth(year, 2);
    assert q1 == 62 + DaysInMonth(year, 2);
    assert DaysBeforeMonth(year, 5) == q1 + 30;
    assert DaysBeforeMonth(year, 6) == q1 + 61;
    assert q2 == q1 + 91;
    assert DaysBeforeMonth(year, 8) == q2 + 31;
    assert DaysBeforeMonth(year, 9) == q2 + 62;
    assert q3 == q2 + 92;
    assert DaysBeforeMonth(year, 11) == q3 + 31;
    assert DaysBeforeMonth(year, 12) == q3 + 61;
  }

  lemma YearsAbut(year: int)
    ensures DaysBeforeYear(year + 1) == DaysBeforeYear(year) + YearLength(year)
  {
    assert year / 4 - (year - 1) / 4 == if year % 4 == 0 then 1 else 0;
    assert year / 100 - (year - 1) / 100 == if year % 100 == 0 then 1 else 0;
    assert year / 400 - (year - 1) / 400 == if year % 400 == 0 then 1 else 0;
  }

  lemma NextDayCounts(d: Date)
    requires ValidDate(d)
    ensures ValidDate(NextDay(d)) && Ordinal(NextDay(d)) == Ordinal(d) + 1
    ensures DateLess(d, NextDay(d))
  {
    MonthsFillYear(d.year, d.month);
    YearsAbut(d.year);
  }

  lemma {:induction false} YearsIncrease(a: int, b: int)
    requires a < b
    ensures DaysBeforeYear(a) + YearLength(a) <= DaysBeforeYear(b)
    decreases b - a
  {
    YearsAbut(a);
    if a + 1 < b {
      YearsIncrease(a + 1, b);
    }
  }

  lemma {:induction false} MonthsIncrease(year: int, a: int, b: int)
    requires 1 <= a < b <= 12
    ensures DaysBeforeMonth(year, a) + DaysInMonth(year, a) <= DaysBeforeMonth(year, b)
    decreases b - a
  {
    if a + 1 < b {
      MonthsIncrease(year, a + 1, b);
    }
  }

  lemma OrdinalKeepsOrder(a: Date, b: Date)
    requires ValidDate(a) && ValidDate(b) && DateLess(a, b)
    ensures Ordinal(a) < Ordinal(b)
  {
    MonthsFillYear(a.year, a.month);
    MonthsFillYear(b.year, b.month);
    if a.year < b.year {
      YearsIncrease(a.year, b.year);
    } else if a.month < b.month {
      MonthsIncrease(a.year, a.month, b.month);
    }
  }

  /** The closed form orders valid dates exactly as they are written. */
  lemma OrdinalOrder(a: Date, b: Date)
    requires ValidDate(a) && ValidDate(b)
    ensures Ordinal(a) < Ordinal(b) <==> DateLess(a, b)
    ensures Ordinal(a) == Ordinal(b) <==> a == b
  {
    if DateLess(a, b) {
      OrdinalKeepsOrder(a, b);
    } else if DateLess(b, a) {
      OrdinalKeepsOrder(b, a);
    }
  }

  /** Counting forward and the closed form undo each other. */
  lemma {:induction false} OrdinalOfDateOf(n: int)
    requires n >= 1
    ensures Ordinal(DateOf(n)) == n
  {
    if n > 1 {
      OrdinalOfDateOf(n - 1);
      NextDayCounts(DateOf(n - 1));
    }
  }

  lemma OrdinalPositive(d: Date)
    requires ValidDate(d)
    ensures Ordinal(d) >= 1
  {
    MonthsFillYear(d.year, d.month);
    if d.year > 1 {
      YearsIncrease(1, d.year);
    }
  }

  lemma DateOfOrdinal(d: Date)
    requires ValidDate(d)
    ensures Ordinal(d) >= 1 && DateOf(Ordinal(d)) == d
  {
    OrdinalPositive(d);
    OrdinalOfDateOf(Ordinal(d));
    OrdinalOrder(d, DateOf(Ordinal(d)));
  }

  lemma DateOfOrder(m: int, n: int)
    requires 1 <= m && 1 <= n
    ensures m < n <==> DateLess(DateOf(m), DateOf(n))
  {
    OrdinalOfDateOf(m);
    OrdinalOfDateOf(n);
    OrdinalOrder(DateOf(m), DateOf(n));
  }

  lemma LastOrdinal()
    ensures ValidDate(Date(MAX_YEAR, 12, 31)) && Ordinal(Date(MAX_YEAR, 12, 31)) == 3_652_059
    ensures Ordinal(Date(1970, 1, 1)) == EPOCH_ORDINAL
  {
    MonthsFillYear(MAX_YEAR, 12);
    YearsAbut(MAX_YEAR);
  }

  /** Milliseconds since the epoch at the start of a UTC date. */
  function UtcDateToMs(d: Date): int
    requires ValidDate(d)
  {
    (Ordinal(d) - EPOCH_ORDINAL) * MS_PER_DAY
  }
}
