/**
 * Cloud calendar hints: the gateway's query validation, its month window and its
 * projection of rows to days, and the client's independent validator.
 */
module CloudCalendar {
  import opened Basics
  import opened CivilCalendar

  const DAY: int := 86400
  const MAX_SAFE: int := 9007199254740991

  datatype Query = Query(month: string, timezoneOffset: int)

  predicate Digit(c: char) { '0' <= c <= '9' }

  function Value(c: char): int { c as int - '0' as int }

  /** JavaScript's remainder takes the sign of the dividend. */
  function Remainder(a: int, n: int): int
    requires n > 0
  {
    if a >= 0 then a % n else -((-a) % n)
  }

  /** `\d{4}-(0[1-9]|1[0-2])`, anchored. */
  predicate MonthPattern(s: string) {
    && |s| == 7 && Digit(s[0]) && Digit(s[1]) && Digit(s[2]) && Digit(s[3]) && s[4] == '-'
    && ((s[5] == '0' && '1' <= s[6] <= '9') || (s[5] == '1' && '0' <= s[6] <= '2'))
  }

  function Year(s: string): int
    requires |s| == 7
  {
    1000 * Value(s[0]) + 100 * Value(s[1]) + 10 * Value(s[2]) + Value(s[3])
  }

  function Month(s: string): int
    requires |s| == 7
  {
    10 * Value(s[5]) + Value(s[6])
  }

  /** The gateway's admission of a query. */
  predicate ValidQuery(q: Query) {
    && MonthPattern(q.month) && 2000 <= Year(q.month) <= 2100
    && Remainder(q.timezoneOffset, 60) == 0 && -50400 <= q.timezoneOffset <= 50400
  }

  /** The client's admission of a month: any two digits, then the numeric range. */
  predicate ClientMonthValid(s: string) {
    && |s| == 7 && Digit(s[0]) && Digit(s[1]) && Digit(s[2]) && Digit(s[3]) && s[4] == '-' && Digit(s[5]) && Digit(s[6])
    && 2000 <= Year(s) <= 2100 && 1 <= Month(s) <= 12
  }

  predicate ClientOffsetValid(offset: int) {
    (if offset < 0 then -offset else offset) <= 50400 && offset % 60 == 0
  }

  lemma {:induction false} RemainderZero(a: int)
    ensures Remainder(a, 60) == 0 <==> a % 60 == 0
  {
    if a < 0 && a % 60 == 0 { assert -a == 60 * (-(a / 60)); }
    if a < 0 && (-a) % 60 == 0 { assert a == 60 * (-((-a) / 60)); }
  }

  lemma {:induction false} SameMonths(s: string)
    requires 2000 <= (if |s| == 7 then Year(s) else 0) <= 2100
    ensures MonthPattern(s) <==> ClientMonthValid(s)
  {
    hide Year;
  }

  /** Both sides admit the same queries. */
  lemma {:induction false} SameQueries(q: Query)
    ensures ValidQuery(q) <==> ClientMonthValid(q.month) && ClientOffsetValid(q.timezoneOffset)
    ensures ValidQuery(q) ==> ValidMonth(Year(q.month), Month(q.month))
  {
    RemainderZero(q.timezoneOffset);
    if |q.month| == 7 && 2000 <= Year(q.month) <= 2100 { SameMonths(q.month); }
    hide Year, Remainder;
  }

  /** The decimal digit of value `n`. */
  function DigitOf(n: int): char
    requires 0 <= n < 10
  {
    "0123456789"[n]
  }

  /** A year of four digits and a month of two, as the interface spells them. */
  function MonthText(y: int, m: int): (s: string)
    requires 0 <= y < 10000 && 0 <= m < 100
    ensures |s| == 7
  {
    [DigitOf(y / 1000), DigitOf(y / 100 % 10), DigitOf(y / 10 % 10), DigitOf(y % 10), '-', DigitOf(m / 10), DigitOf(m % 10)]
  }

  lemma {:induction false} DigitIff(c: char, n: int)
    requires 0 <= n < 10
    ensures c == DigitOf(n) <==> Digit(c) && Value(c) == n
  {}

  lemma {:induction false} FourDigits(a: int, b: int, c: int, d: int)
    requires 0 <= a < 10 && 0 <= b < 10 && 0 <= c < 10 && 0 <= d < 10
    ensures var y := 1000 * a + 100 * b + 10 * c + d;
      0 <= y < 10000 && y / 1000 == a && y / 100 % 10 == b && y / 10 % 10 == c && y % 10 == d
  {
    var y, high, middle := 1000 * a + 100 * b + 10 * c + d, 10 * a + b, 100 * a + 10 * b + c;
    Tens(y, middle, d);
    Tens(middle, high, c);
    Tens(high, a, b);
    Hundreds(y);
  }

  lemma {:induction false} Tens(n: int, high: int, low: int)
    requires n == 10 * high + low && 0 <= low < 10
    ensures n / 10 == high && n % 10 == low
  {}

  lemma {:induction false} Hundreds(n: int)
    ensures n / 100 == n / 10 / 10 && n / 1000 == n / 10 / 10 / 10
  {}

  lemma {:induction false} JoinDigits(y: int)
    requires 0 <= y < 10000
    ensures y == 1000 * (y / 1000) + 100 * (y / 100 % 10) + 10 * (y / 10 % 10) + y % 10
    ensures 0 <= y / 1000 < 10
  {
    Hundreds(y);
    assert y == 10 * (y / 10) + y % 10 && y / 10 == 10 * (y / 10 / 10) + y / 10 % 10;
    assert y / 10 / 10 == 10 * (y / 10 / 10 / 10) + y / 10 / 10 % 10;
  }

  /** The text of a month is read as that month. */
  lemma {:induction false} MonthTextReads(y: int, m: int)
    requires 2000 <= y <= 2100 && 1 <= m <= 12
    ensures MonthPattern(MonthText(y, m)) && Year(MonthText(y, m)) == y && Month(MonthText(y, m)) == m
  {
    JoinDigits(y);
    hide DigitOf;
    DigitIff(DigitOf(y / 1000), y / 1000);
    DigitIff(DigitOf(y / 100 % 10), y / 100 % 10);
    DigitIff(DigitOf(y / 10 % 10), y / 10 % 10);
    DigitIff(DigitOf(y % 10), y % 10);
    DigitIff(DigitOf(m / 10), m / 10);
    DigitIff(DigitOf(m % 10), m % 10);
  }

  lemma {:induction false} PatternIsText(s: string)
    requires MonthPattern(s) && 2000 <= Year(s) <= 2100
    ensures 1 <= Month(s) <= 12 && s == MonthText(Year(s), Month(s))
  {
    hide DigitOf;
    FourDigits(Value(s[0]), Value(s[1]), Value(s[2]), Value(s[3]));
    FourDigits(0, 0, Value(s[5]), Value(s[6]));
    DigitIff(s[0], Value(s[0]));
    DigitIff(s[1], Value(s[1]));
    DigitIff(s[2], Value(s[2]));
    DigitIff(s[3], Value(s[3]));
    DigitIff(s[5], Value(s[5]));
    DigitIff(s[6], Value(s[6]));
  }

  lemma {:induction false} PatternLength(s: string)
    ensures MonthPattern(s) ==> |s| == 7
  {}

  ghost predicate Asks(q: Query, y: int, m: int) {
    2000 <= y <= 2100 && 1 <= m <= 12 && q.month == MonthText(y, m)
  }

  /**
   * A query is valid exactly when it spells a month of the years 2000 to 2100 and its
   * offset is a whole number of minutes within fourteen hours; and it is read as that month.
   */
  lemma {:induction false} ValidQueryIff(q: Query)
    ensures ValidQuery(q) <==> (exists y, m :: Asks(q, y, m)) && q.timezoneOffset % 60 == 0 && -50400 <= q.timezoneOffset <= 50400
    ensures forall y, m | Asks(q, y, m) :: Year(q.month) == y && Month(q.month) == m
  {
    hide MonthPattern, Year, Month, MonthText;
    RemainderZero(q.timezoneOffset);
    PatternLength(q.month);
    forall y, m | Asks(q, y, m) ensures MonthPattern(q.month) && Year(q.month) == y && Month(q.month) == m {
      MonthTextReads(y, m);
    }
    if |q.month| == 7 && MonthPattern(q.month) && 2000 <= Year(q.month) <= 2100 {
      PatternIsText(q.month);
      assert Asks(q, Year(q.month), Month(q.month));
    }
  }

  datatype CalendarError = Syntax | Response

  datatype Window = Window(start: int, end: int)

  function StartOf(q: Query): int
    requires |q.month| == 7
  {
    MakeDay(Year(q.month), Month(q.month) - 1) * DAY - q.timezoneOffset
  }

  function EndOf(q: Query): int
    requires |q.month| == 7
  {
    MakeDay(Year(q.month), Month(q.month)) * DAY - q.timezoneOffset
  }

  predicate OutOfShape(start: int, end: int) {
    start > MAX_SAFE || end > MAX_SAFE || start < 0 || end - start < 28 * DAY || end - start > 31 * DAY
  }

  /** The exclusive month window in seconds, with the guard on its shape. The guard never fires. */
  function Bounds(q: Query): (r: Result<Window, CalendarError>)
    ensures r == if ValidQuery(q) then Ok(Window(StartOf(q), EndOf(q))) else Err(Syntax)
  {
    if !ValidQuery(q) then Err(Syntax)
    else
      var start, end := StartOf(q), EndOf(q);
      GuardIdle(q);
      if OutOfShape(start, end) then Err(Syntax) else Ok(Window(start, end))
  }

  lemma {:induction false} GuardIdle(q: Query)
    requires ValidQuery(q)
    ensures !OutOfShape(StartOf(q), EndOf(q))
  {
    SameQueries(q);
    var y, m := Year(q.month), Month(q.month);
    MonthStep(y, m);
    MonthsBounded(y, m);
    hide MakeDay, Year, Month;
  }

  /** For every valid query the window is exactly one Gregorian month at the query's offset. */
  lemma {:induction false} WindowIsMonth(q: Query)
    requires ValidQuery(q)
    ensures var w := Bounds(q).value;
      && w.end - w.start == MonthLength(Year(q.month), Month(q.month)) * DAY
      && w.start + q.timezoneOffset >= 0 && (w.start + q.timezoneOffset) % DAY == 0
      && CivilOn((w.start + q.timezoneOffset) / DAY) == Date(Year(q.month), Month(q.month), 1)
  {
    hide MakeDay, Year, Month, CivilOn, MonthPattern, MonthLength;
    SameQueries(q);
    MonthStart(q, Year(q.month), Month(q.month));
  }

  lemma {:induction false} MonthStart(q: Query, y: int, m: int)
    requires ValidMonth(y, m) && |q.month| == 7 && Year(q.month) == y && Month(q.month) == m
    ensures EndOf(q) - StartOf(q) == MonthLength(y, m) * DAY
    ensures var local := StartOf(q) + q.timezoneOffset;
      local >= 0 && local % DAY == 0 && CivilOn(local / DAY) == Date(y, m, 1)
  {
    hide MakeDay, Year, Month, CivilOn, MonthLength;
    MonthStep(y, m);
    FirstOfMonth(y, m);
    WholeDays(MakeDay(y, m - 1));
  }

  lemma {:induction false} FirstOfMonth(y: int, m: int)
    requires ValidMonth(y, m)
    ensures MakeDay(y, m - 1) >= 0 && CivilOn(MakeDay(y, m - 1)) == Date(y, m, 1)
  {
    DateAt(Date(y, m, 1));
  }

  lemma {:induction false} WholeDays(n: int)
    ensures n * DAY / DAY == n && n * DAY % DAY == 0
  {}

  lemma {:induction false} MonthsBounded(y: int, m: int)
    requires 2000 <= y <= 2100 && 1 <= m <= 12
    ensures 10000 <= MakeDay(y, m - 1) && MakeDay(y, m) <= 60000
  {}

  /** A row after the shape checks: `device` and `station` are None when absent or null. */
  datatype Row = Malformed | Row(date: int, device: Option<string>, station: Option<string>)

  datatype Payload = Absent | NotAList | Rows(rows: seq<Row>)

  datatype Projection = Projection(month: string, days: seq<int>, droppedRows: nat)

  predicate RowOk(r: Row, camera: string, station: string) {
    r.Row? && 0 <= r.date <= MAX_SAFE
    && (r.device == None || r.device == Some(camera)) && (r.station == None || r.station == Some(station))
  }

  predicate InWindow(w: Window, r: Row) {
    r.Row? && w.start <= r.date < w.end
  }

  /** The civil date of an instant shifted by the query's offset, before the epoch unspecified. */
  function LocalDate(r: Row, offset: int): Option<Date> {
    if r.Row? && r.date + offset >= 0 then Some(CivilOn((r.date + offset) / DAY)) else None
  }

  function CountIn(w: Window, rows: seq<Row>): nat {
    if rows == [] then 0 else CountIn(w, rows[..|rows| - 1]) + if InWindow(w, rows[|rows| - 1]) then 1 else 0
  }

  /** Whether a civil date, if there is one, lies in the queried month. */
  predicate InMonth(d: Option<Date>, q: Query)
    requires |q.month| == 7
  {
    d.Some? && d.value.year == Year(q.month) && d.value.month == Month(q.month)
  }

  lemma {:induction false} DivideWindow(t: nat, a: int, b: int)
    ensures a * DAY <= t < b * DAY <==> a <= t / DAY < b
  {}

  lemma {:induction false} MakeDayPositive(y: int, m: int)
    requires ValidMonth(y, m)
    ensures MakeDay(y, m - 1) >= 0
  {
    DateAt(Date(y, m, 1));
  }

  /** A row is in the window exactly when its local civil date lies in the queried month. */
  lemma {:induction false} InWindowIff(q: Query, r: Row)
    requires ValidQuery(q) && r.Row?
    ensures InWindow(Bounds(q).value, r) <==> InMonth(LocalDate(r, q.timezoneOffset), q)
    ensures InWindow(Bounds(q).value, r) ==>
      1 <= LocalDate(r, q.timezoneOffset).value.day <= MonthLength(Year(q.month), Month(q.month))
  {
    SameQueries(q);
    var y, m, t := Year(q.month), Month(q.month), r.date + q.timezoneOffset;
    MonthStep(y, m);
    hide CivilOn, MakeDay, Year, Month, ValidQuery;
    MakeDayPositive(y, m);
    if t >= 0 {
      InMonthIff(t / DAY, y, m);
      DivideWindow(t, MakeDay(y, m - 1), MakeDay(y, m));
    }
  }

  predicate Ascending(days: seq<int>) {
    forall i, j | 0 <= i < j < |days| :: days[i] < days[j]
  }

  /** The ascending list of a set of days. */
  method SortDays(s: set<int>) returns (days: seq<int>)
    requires forall d | d in s :: 1 <= d <= 31
    ensures Ascending(days) && forall d :: d in days <==> d in s
  {
    days := [];
    for d := 1 to 32
      invariant Ascending(days)
      invariant forall e :: e in days <==> e in s && e < d
    {
      if d in s {
        assert forall i | 0 <= i < |days| :: days[i] in days;
        days := days + [d];
      }
    }
  }

  predicate PayloadOk(value: Payload, camera: string, station: string) {
    match value
    case Absent => true
    case NotAList => false
    case Rows(rows) => |rows| <= 1000 && forall i | 0 <= i < |rows| :: RowOk(rows[i], camera, station)
  }

  /** A row that spoils the whole response: no row at all, an impossible date, or another device's. */
  predicate Foreign(r: Row, camera: string, station: string) {
    match r
    case Malformed => true
    case Row(date, device, home) =>
      || date < 0 || date > 9007199254740991
      || (device.Some? && device.value != camera) || (home.Some? && home.value != station)
  }

  ghost predicate Spoiled(value: Payload, camera: string, station: string) {
    match value
    case Absent => false
    case NotAList => true
    case Rows(rows) => |rows| > 1000 || exists i :: 0 <= i < |rows| && Foreign(rows[i], camera, station)
  }

  lemma {:induction false} SpoiledIff(value: Payload, camera: string, station: string)
    ensures Spoiled(value, camera, station) <==> !PayloadOk(value, camera, station)
  {
    forall r: Row ensures Foreign(r, camera, station) <==> !RowOk(r, camera, station) { ForeignIff(r, camera, station); }
    hide Foreign, RowOk;
  }

  lemma {:induction false} ForeignIff(r: Row, camera: string, station: string)
    ensures Foreign(r, camera, station) <==> !RowOk(r, camera, station)
  {}

  /** Some row's local civil date is day `d` of the queried month. */
  predicate Falls(rows: seq<Row>, q: Query, d: int)
    requires |q.month| == 7
  {
    exists i | 0 <= i < |rows| :: LocalDate(rows[i], q.timezoneOffset) == Some(Date(Year(q.month), Month(q.month), d))
  }

  /** What the days collected from the rows so far are. */
  ghost predicate Collected(rows: seq<Row>, q: Query, days: set<int>)
    requires |q.month| == 7
  {
    && (forall d :: d in days <==> Falls(rows, q, d))
    && (forall d | d in days :: 1 <= d <= MonthLength(Year(q.month), Month(q.month)))
  }

  lemma {:induction false} CollectRow(rows: seq<Row>, r: Row, q: Query, days: set<int>)
    requires |q.month| == 7 && Bounds(q).Ok? && Collected(rows, q, days) && r.Row?
    ensures InWindow(Bounds(q).value, r) ==>
      LocalDate(r, q.timezoneOffset).Some? && Collected(rows + [r], q, days + {LocalDate(r, q.timezoneOffset).value.day})
    ensures !InWindow(Bounds(q).value, r) ==> Collected(rows + [r], q, days)
  {
    InWindowIff(q, r);
    hide Bounds, StartOf, EndOf, CivilOn, Year, Month, InWindow, ValidQuery;
    forall d ensures Falls(rows + [r], q, d) <==>
      Falls(rows, q, d) || LocalDate(r, q.timezoneOffset) == Some(Date(Year(q.month), Month(q.month), d))
    {
      FallsPush(rows, r, q, d);
    }
  }

  lemma {:induction false} FallsPush(rows: seq<Row>, r: Row, q: Query, d: int)
    requires |q.month| == 7
    ensures Falls(rows + [r], q, d) <==>
      Falls(rows, q, d) || LocalDate(r, q.timezoneOffset) == Some(Date(Year(q.month), Month(q.month), d))
  {
    hide LocalDate, Year, Month;
    var all, date := rows + [r], Some(Date(Year(q.month), Month(q.month), d));
    assert all[|rows|] == r;
    assert forall i | 0 <= i < |rows| :: all[i] == rows[i];
    if Falls(rows, q, d) {
      var i :| 0 <= i < |rows| && LocalDate(rows[i], q.timezoneOffset) == date;
      assert LocalDate(all[i], q.timezoneOffset) == date;
    }
  }

  /**
   * The gateway's projection. It succeeds exactly when the query is valid and the
   * whole payload is well bound. Then a day is listed exactly when some row falls
   * on that civil date at the query's offset, and every row is listed or dropped.
   */
  method ProjectCloudCalendar(value: Payload, q: Query, camera: string, station: string)
    returns (r: Result<Projection, CalendarError>)
    ensures r == Err(Syntax) <==> !ValidQuery(q)
    ensures r == Err(Response) <==> ValidQuery(q) && Spoiled(value, camera, station)
    ensures r.Ok? ==> r.value.month == q.month && ClientAccepts(q.month, r.value.days)
    ensures r.Ok? ==> forall d: int :: d in r.value.days <==> value.Rows? && Falls(value.rows, q, d)
    ensures r.Ok? && value.Rows? ==> r.value.droppedRows + CountIn(Bounds(q).value, value.rows) == |value.rows|
  {
    SpoiledIff(value, camera, station);
    hide Spoiled;
    SameQueries(q);
    if ValidQuery(q) { assert PythonMonthDays(Year(q.month), Month(q.month)) == MonthLength(Year(q.month), Month(q.month)); }
    var bounds := Bounds(q);
    if bounds.Err? { return Err(Syntax); }
    hide Bounds, CivilOn, MakeDay, Year, Month, LocalDate, PythonMonthDays, ClientMonthValid, MonthLength;
    if value.Absent? { return Ok(Projection(q.month, [], 0)); }
    if !value.Rows? || |value.rows| > 1000 { return Err(Response); }
    var days, dropped, ok := CollectDays(value.rows, q, camera, station);
    if !ok { return Err(Response); }
    DaysInMonth(q, days);
    var sorted := SortDays(days);
    assert forall i | 0 <= i < |sorted| :: sorted[i] in sorted;
    return Ok(Projection(q.month, sorted, dropped));
  }

  lemma {:induction false} DaysInMonth(q: Query, days: set<int>)
    requires |q.month| == 7 && forall d | d in days :: 1 <= d <= MonthLength(Year(q.month), Month(q.month))
    ensures forall d | d in days :: 1 <= d <= 31
  {}

  lemma {:induction false} CountNext(w: Window, rows: seq<Row>, i: nat)
    requires i < |rows|
    ensures CountIn(w, rows[..i + 1]) == CountIn(w, rows[..i]) + if InWindow(w, rows[i]) then 1 else 0
    ensures CountIn(w, []) == 0
  {
    assert rows[..i + 1][..i] == rows[..i];
  }

  lemma {:induction false} CollectedNone(q: Query)
    requires |q.month| == 7
    ensures Collected([], q, {})
  {}

  /** One well-bound row: outside the window, or the day of the month it falls on. */
  method DayOfRow(r: Row, q: Query) returns (day: Option<int>)
    requires |q.month| == 7 && Bounds(q).Ok? && r.Row?
    ensures day.Some? <==> InWindow(Bounds(q).value, r)
    ensures day.Some? ==> LocalDate(r, q.timezoneOffset).Some? && day.value == LocalDate(r, q.timezoneOffset).value.day
  {
    var w := Bounds(q).value;
    InWindowIff(q, r);
    hide Bounds, StartOf, EndOf, CivilOn, Year, Month, ValidQuery;
    if r.date < w.start || r.date >= w.end { return None; }
    day := Some(LocalDate(r, q.timezoneOffset).value.day);
  }

  lemma {:induction false} BoundRow(r: Row, camera: string, station: string)
    ensures RowOk(r, camera, station) ==> r.Row?
  {}

  /** The row loop: stop at the first row that is malformed or bound elsewhere. */
  method CollectDays(rows: seq<Row>, q: Query, camera: string, station: string)
    returns (days: set<int>, dropped: nat, ok: bool)
    requires |q.month| == 7 && Bounds(q).Ok?
    ensures ok <==> forall i | 0 <= i < |rows| :: RowOk(rows[i], camera, station)
    ensures ok ==> Collected(rows, q, days) && dropped + CountIn(Bounds(q).value, rows) == |rows|
  {
    var w := Bounds(q).value;
    CollectedNone(q);
    assert CountIn(w, []) == 0;
    hide Bounds, StartOf, EndOf, Year, Month, LocalDate, ValidQuery, Collected, CountIn, InWindow, RowOk;
    days, dropped := {}, 0;
    assert rows[..0] == [];
    for i := 0 to |rows|
      invariant forall k | 0 <= k < i :: RowOk(rows[k], camera, station)
      invariant dropped + CountIn(w, rows[..i]) == i
      invariant Collected(rows[..i], q, days)
    {
      if !RowOk(rows[i], camera, station) { return days, dropped, false; }
      BoundRow(rows[i], camera, station);
      assert rows[..i + 1] == rows[..i] + [rows[i]];
      CountNext(w, rows, i);
      CollectRow(rows[..i], rows[i], q, days);
      var day := DayOfRow(rows[i], q);
      if day.None? { dropped := dropped + 1; } else { days := days + {day.value}; }
    }
    assert rows[..|rows|] == rows;
    ok := true;
  }

  /** `calendar.monthrange`'s length, from its own table. */
  function PythonMonthDays(y: int, m: int): int
    requires 1 <= m <= 12
  {
    [0, 31, 28, 31, 30, 31, 30, 31, 31, 30, 31, 30, 31][m] + if m == 2 && Leap(y) then 1 else 0
  }

  /** What the client requires of the day list it is given. */
  predicate ClientAccepts(month: string, days: seq<int>) {
    && ClientMonthValid(month)
    && Ascending(days)
    && forall i | 0 <= i < |days| :: 1 <= days[i] <= PythonMonthDays(Year(month), Month(month))
  }

  /** The client's loop over the received days, each checked against the previous one. */
  method CheckDays(month: string, offset: int, received: string, days: seq<int>) returns (ok: bool)
    ensures ok <==> ClientMonthValid(month) && ClientOffsetValid(offset) && received == month && ClientAccepts(month, days)
  {
    if !ClientMonthValid(month) || !ClientOffsetValid(offset) || received != month { return false; }
    var maximum := PythonMonthDays(Year(month), Month(month));
    var previous := 0;
    for i := 0 to |days|
      invariant previous == if i == 0 then 0 else days[i - 1]
      invariant previous >= 0
      invariant Ascending(days[..i])
      invariant forall k | 0 <= k < i :: 1 <= days[k] <= maximum && days[k] <= previous
    {
      if !(previous < days[i] <= maximum) {
        assert i > 0 && days[i] <= previous ==> !(days[i - 1] < days[i]);
        return false;
      }
      assert days[..i + 1] == days[..i] + [days[i]];
      previous := days[i];
    }
    assert days[..|days|] == days;
    return true;
  }
}
