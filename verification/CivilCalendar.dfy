/**
 * The proleptic Gregorian calendar as a walk from one day to the next, and the
 * ECMAScript day arithmetic behind `Date.UTC`, proved to agree with the walk.
 */
module CivilCalendar {
  datatype Date = Date(year: int, month: int, day: int)

  predicate Leap(y: int) { y % 4 == 0 && (y % 100 != 0 || y % 400 == 0) }

  function MonthLength(y: int, m: int): int {
    if m == 2 then (if Leap(y) then 29 else 28)
    else if m == 4 || m == 6 || m == 9 || m == 11 then 30
    else 31
  }

  predicate ValidMonth(y: int, m: int) { 1970 <= y && 1 <= m <= 12 }

  predicate ValidDate(d: Date) { ValidMonth(d.year, d.month) && 1 <= d.day <= MonthLength(d.year, d.month) }

  function NextDay(d: Date): Date {
    if d.day < MonthLength(d.year, d.month) then Date(d.year, d.month, d.day + 1)
    else if d.month < 12 then Date(d.year, d.month + 1, 1)
    else Date(d.year + 1, 1, 1)
  }

  /** The civil date `n` days after 1 January 1970. */
  function CivilOn(n: nat): Date {
    if n == 0 then Date(1970, 1, 1) else NextDay(CivilOn(n - 1))
  }

  /** Days from the epoch to 1 January of a year, by the ECMAScript formula. */
  function DayFromYear(y: int): int {
    365 * (y - 1970) + (y - 1969) / 4 - (y - 1901) / 100 + (y - 1601) / 400
  }

  /** Days of a year before its month `m`, counted from 0. */
  function DaysBefore(m: int, leap: bool): int
    requires 0 <= m < 12
  {
    [0, 31, 59, 90, 120, 151, 181, 212, 243, 273, 304, 334][m] + if leap && m >= 2 then 1 else 0
  }

  /** `MakeDay` for the first of a month counted from 0, which may run past December. */
  function MakeDay(y: int, month: int): int {
    var year := y + month / 12;
    DayFromYear(year) + DaysBefore(month % 12, Leap(year))
  }

  lemma {:induction false} Every4(y: int)
    ensures (y - 1968) / 4 - (y - 1969) / 4 == if y % 4 == 0 then 1 else 0
  {}

  lemma {:induction false} Every100(y: int)
    ensures (y - 1900) / 100 - (y - 1901) / 100 == if y % 100 == 0 then 1 else 0
  {}

  lemma {:induction false} Every400(y: int)
    ensures (y - 1600) / 400 - (y - 1601) / 400 == if y % 400 == 0 then 1 else 0
  {}

  lemma {:induction false} Multiples(y: int)
    ensures y % 400 == 0 ==> y % 100 == 0
    ensures y % 100 == 0 ==> y % 4 == 0
  {
    var a, b := y / 400, y / 100;
    Times4(25 * b);
    Times100(4 * a);
    assert y % 400 == 0 ==> y == 100 * (4 * a);
    assert y % 100 == 0 ==> y == 4 * (25 * b);
  }

  lemma {:induction false} Times4(k: int)
    ensures (4 * k) % 4 == 0
  {}

  lemma {:induction false} Times100(k: int)
    ensures (100 * k) % 100 == 0
  {}

  /** The closed formula advances by the length of each year. */
  lemma {:induction false} YearStep(y: int)
    ensures DayFromYear(y + 1) == DayFromYear(y) + if Leap(y) then 366 else 365
  {
    Every4(y);
    Every100(y);
    Every400(y);
    Multiples(y);
  }

  /** A year's thirteenth month is the next year's first. */
  lemma {:induction false} YearTurn(y: int)
    ensures MakeDay(y, 12) == MakeDay(y + 1, 0)
    ensures MakeDay(1970, 0) == 0
  {}

  /** Consecutive months lie exactly a Gregorian month length apart. */
  lemma {:induction false} MonthStep(y: int, m: int)
    requires 1 <= m <= 12
    ensures MakeDay(y, m) == MakeDay(y, m - 1) + MonthLength(y, m)
  {
    if m == 12 { YearStep(y); }
    hide DayFromYear, Leap;
  }

  /** The day arithmetic lands on the right date of the walk. */
  lemma {:induction false} DateAt(d: Date)
    requires ValidDate(d)
    ensures 0 <= MakeDay(d.year, d.month - 1) + d.day - 1
    ensures CivilOn(MakeDay(d.year, d.month - 1) + d.day - 1) == d
    decreases d.year, d.month, d.day
  {
    YearTurn(d.year - 1);
    hide MakeDay, Leap;
    if d.day > 1 {
      DateAt(Date(d.year, d.month, d.day - 1));
    } else if d.month > 1 {
      MonthStep(d.year, d.month - 1);
      DateAt(Date(d.year, d.month - 1, MonthLength(d.year, d.month - 1)));
    } else if d.year > 1970 {
      MonthStep(d.year - 1, 12);
      DateAt(Date(d.year - 1, 12, 31));
    }
  }

  /** Every day of the walk is a valid date at its own day number. */
  lemma {:induction false} DayOf(n: nat)
    ensures ValidDate(CivilOn(n))
    ensures MakeDay(CivilOn(n).year, CivilOn(n).month - 1) + CivilOn(n).day - 1 == n
  {
    hide MakeDay, Leap;
    if n == 0 {
      YearTurn(1970);
    } else {
      DayOf(n - 1);
      var d := CivilOn(n - 1);
      MonthStep(d.year, d.month);
      YearTurn(d.year);
    }
  }

  /** A day number falls in a month exactly when the month's window of day numbers holds it. */
  lemma {:induction false} InMonthIff(n: nat, y: int, m: int)
    requires ValidMonth(y, m)
    ensures MakeDay(y, m - 1) <= n < MakeDay(y, m) <==> CivilOn(n).year == y && CivilOn(n).month == m
    ensures MakeDay(y, m - 1) <= n < MakeDay(y, m) ==> CivilOn(n) == Date(y, m, n - MakeDay(y, m - 1) + 1)
  {
    hide MakeDay, Leap, CivilOn;
    MonthStep(y, m);
    if MakeDay(y, m - 1) <= n < MakeDay(y, m) {
      DateAt(Date(y, m, n - MakeDay(y, m - 1) + 1));
    }
    DayOf(n);
  }
}
