/** Calendar arithmetic and the timestamp text form of section 5.6 of RFC 3339. */
module Time {

  // ---- the Gregorian calendar ----

  predicate Leap(year: int) {
    year % 4 == 0 && (year % 100 != 0 || year % 400 == 0)
  }

  function DaysIn(year: int, month: int): int {
    if month == 2 then (if Leap(year) then 29 else 28)
    else if month == 4 || month == 6 || month == 9 || month == 11 then 30
    else 31
  }

  datatype Civil = Civil(year: int, month: int, day: int)

  predicate ValidDate(c: Civil) {
    1 <= c.month <= 12 && 1 <= c.day <= DaysIn(c.year, c.month)
  }

  /** The next calendar day. */
  function NextDay(c: Civil): Civil {
    if c.day < DaysIn(c.year, c.month) then c.(day := c.day + 1)
    else if c.month < 12 then Civil(c.year, c.month + 1, 1)
    else Civil(c.year + 1, 1, 1)
  }

  predicate Earlier(a: Civil, b: Civil) {
    a.year < b.year || (a.year == b.year && (a.month < b.month || (a.month == b.month && a.day < b.day)))
  }

  // ---- the program's arithmetic ----

  /** Division as the program's integers do it: toward zero. */
  function Div(a: int, b: int): int
    requires b > 0
  {
    if a >= 0 then a / b else -(-a / b)
  }

  /** Years here start in March, so that a leap day is a year's last day. */
  function MarchYear(c: Civil): int {
    if c.month <= 2 then c.year - 1 else c.year
  }

  function DayOfYear(month: int, day: int): int {
    Div(153 * ((month + 9) % 12) + 2, 5) + day - 1
  }

  function DaysFromCivil(c: Civil): int {
    var y := MarchYear(c);
    var era := Div(if y >= 0 then y else y - 399, 400);
    var yoe := y - era * 400;
    var doe := yoe * 365 + Div(yoe, 4) - Div(yoe, 100) + DayOfYear(c.month, c.day);
    era * 146_097 + doe - 719_468
  }

  function YearOfEra(doe: int): int {
    Div(doe - Div(doe, 1460) + Div(doe, 36_524) - Div(doe, 146_096), 365)
  }

  function CivilFromDays(days: int): Civil {
    var z := days + 719_468;
    var era := Div(if z >= 0 then z else z - 146_096, 146_097);
    var doe := z - era * 146_097;
    var yoe := YearOfEra(doe);
    var y := yoe + era * 400;
    var doy := doe - (365 * yoe + Div(yoe, 4) - Div(yoe, 100));
    var mp := Div(5 * doy + 2, 153);
    var day := doy - Div(153 * mp + 2, 5) + 1;
    var month := if mp < 10 then mp + 3 else mp - 9;
    Civil(if month <= 2 then y + 1 else y, month, day)
  }

  // ---- quotients ----

  lemma {:induction false} Multiples(n: int, k: int)
    requires n > 0 && k >= 1
    ensures n * k >= n
    decreases k
  {
    if k > 1 {
      Multiples(n, k - 1);
      assert n * k == n * (k - 1) + n;
    }
  }

  lemma Distribute(n: int, p: int, q: int)
    ensures n * (p - q) == n * p - n * q
  {
  }

  /** A quotient and remainder are determined by their equation. */
  lemma SameQuotient(n: int, p: int, t: int, q: int, r: int)
    requires n > 0 && 0 <= t < n && 0 <= r < n && n * p + t == n * q + r
    ensures p == q && t == r
  {
    Distribute(n, p, q);
    Distribute(n, q, p);
    if p > q {
      Multiples(n, p - q);
    } else if p < q {
      Multiples(n, q - p);
    }
  }

  lemma Quotient(a: int, n: int, q: int, r: int)
    requires n > 0 && 0 <= r < n && a == n * q + r
    ensures a / n == q && a % n == r
  {
    SameQuotient(n, a / n, a % n, q, r);
  }

  // ---- years of an era ----

  /** The first day of a March year within its era. */
  function YearStart(yoe: int): int {
    365 * yoe + Div(yoe, 4) - Div(yoe, 100)
  }

  /** Days of a March year: the leap day, if any, is the following February's. */
  function YearLength(yoe: int): int {
    if Leap(yoe + 1) then 366 else 365
  }

  /** Adding whole eras does not change whether a year is a leap year. */
  lemma LeapShifts(era: int, yoe: int)
    ensures Leap(era * 400 + yoe) <==> Leap(yoe)
  {
    Quotient(era * 400 + yoe, 4, era * 100 + yoe / 4, yoe % 4);
    Quotient(era * 400 + yoe, 100, era * 4 + yoe / 100, yoe % 100);
    Quotient(era * 400 + yoe, 400, era + yoe / 400, yoe % 400);
  }

  /** A year by century, four-year cycle and year within it. */
  lemma YearSplit(h: int, m: int, j: int)
    requires 0 <= h <= 3 && 0 <= m <= 24 && 0 <= j <= 3
    ensures var y := 100 * h + 4 * m + j;
            && y / 4 == 25 * h + m && y / 100 == h
            && YearStart(y) == 36_524 * h + 1461 * m + 365 * j
            && (Leap(y + 1) <==> j == 3 && (m == 24 ==> h == 3))
  {
    var y := 100 * h + 4 * m + j;
    Quotient(y, 4, 25 * h + m, j);
    Quotient(y, 100, h, 4 * m + j);
    if j < 3 {
      Quotient(y + 1, 4, 25 * h + m, j + 1);
    } else if m < 24 {
      Quotient(y + 1, 4, 25 * h + m + 1, 0);
      Quotient(y + 1, 100, h, 4 * m + 4);
    } else {
      Quotient(y + 1, 4, 25 * h + m + 1, 0);
      Quotient(y + 1, 100, h + 1, 0);
    }
  }

  /** A day of an era, by century, four-year cycle, year and day within it; only a leap year has a day 365. */
  predicate DaySplit(h: int, m: int, j: int, d: int) {
    && 0 <= h <= 3 && 0 <= m <= 24 && 0 <= j <= 3 && 0 <= d <= 365
    && (d == 365 ==> j == 3 && (m == 24 ==> h == 3))
  }

  /** The first three quotients of the year formula. */
  lemma DayQuotients(h: int, m: int, j: int, d: int)
    requires DaySplit(h, m, j, d)
    ensures var doe := 36_524 * h + 1461 * m + 365 * j + d;
            && 0 <= doe <= 146_096
            && doe / 1460 == 25 * h + m + (if 24 * h + m + 365 * j + d >= 1460 then 1 else 0)
            && doe / 36_524 == h + (if doe == 146_096 then 1 else 0)
            && doe / 146_096 == if doe == 146_096 then 1 else 0
  {
    var doe := 36_524 * h + 1461 * m + 365 * j + d;
    var extra := 24 * h + m + 365 * j + d;
    var e, f := if extra >= 1460 then 1 else 0, if doe == 146_096 then 1 else 0;
    Quotient(doe, 1460, 25 * h + m + e, extra - 1460 * e);
    Quotient(doe, 36_524, h + f, doe - 36_524 * (h + f));
    Quotient(doe, 146_096, f, doe - 146_096 * f);
  }

  /** The year formula, for every day of every year of an era. */
  lemma YearParts(h: int, m: int, j: int, d: int)
    requires 0 <= h <= 3 && 0 <= m <= 24 && 0 <= j <= 3 && 0 <= d < YearLength(100 * h + 4 * m + j)
    ensures YearOfEra(YearStart(100 * h + 4 * m + j) + d) == 100 * h + 4 * m + j
    ensures 0 <= YearStart(100 * h + 4 * m + j) + d <= 146_096
  {
    YearSplit(h, m, j);
    assert DaySplit(h, m, j, d);
    hide Leap, YearStart, YearLength;
    DayQuotients(h, m, j, d);
    YearQuotient(h, m, j, d);
  }

  lemma YearQuotient(h: int, m: int, j: int, d: int)
    requires DaySplit(h, m, j, d)
    ensures var doe := 36_524 * h + 1461 * m + 365 * j + d;
            var e, f := if 24 * h + m + 365 * j + d >= 1460 then 1 else 0, if doe == 146_096 then 1 else 0;
            (doe - (25 * h + m + e) + (h + f) - f) / 365 == 100 * h + 4 * m + j
  {
    var doe := 36_524 * h + 1461 * m + 365 * j + d;
    var e := if 24 * h + m + 365 * j + d >= 1460 then 1 else 0;
    Quotient(doe - (25 * h + m + e) + h, 365, 100 * h + 4 * m + j, d - e);
  }

  /** The day of an era within its year, for every year of the era. */
  lemma YearFound(yoe: int, d: int)
    requires 0 <= yoe < 400 && 0 <= d < YearLength(yoe)
    ensures YearOfEra(YearStart(yoe) + d) == yoe
    ensures 0 <= YearStart(yoe) + d <= 146_096
  {
    hide Leap, YearStart, YearOfEra;
    var h, m, j := yoe / 100, yoe % 100 / 4, yoe % 100 % 4;
    assert yoe == 100 * h + 4 * m + j;
    YearParts(h, m, j, d);
  }

  /** Every day of an era lies in one of its years. */
  lemma YearExists(doe: int) returns (yoe: int, d: int)
    requires 0 <= doe <= 146_096
    ensures 0 <= yoe < 400 && 0 <= d < YearLength(yoe) && doe == YearStart(yoe) + d
  {
    hide Leap, YearStart;
    var h := if doe == 146_096 then 3 else doe / 36_524;
    var r := doe - 36_524 * h;
    var m := r / 1461;
    var s := r - 1461 * m;
    var j := if s == 1460 then 3 else s / 365;
    d := s - 365 * j;
    yoe := 100 * h + 4 * m + j;
    YearSplit(h, m, j);
  }

  /** A year's days end where the next year's begin. */
  lemma YearStartNext(yoe: int)
    requires 0 <= yoe < 399
    ensures YearStart(yoe + 1) == YearStart(yoe) + YearLength(yoe)
  {
  }

  lemma {:induction false} YearStartGrows(a: int, b: int)
    requires 0 <= a < b < 400
    ensures YearStart(a) + YearLength(a) <= YearStart(b)
    decreases b - a
  {
    hide YearStart, YearLength;
    YearStartNext(b - 1);
    if a < b - 1 {
      YearStartGrows(a, b - 1);
      YearIsLong(b - 1);
    }
  }

  lemma YearIsLong(yoe: int)
    ensures YearLength(yoe) >= 365
  {
  }

  // ---- months of a March year ----

  /** A month and day as the day of the March year, and back. */
  lemma MonthFound(year: int, month: int, day: int)
    requires 1 <= month <= 12 && 1 <= day <= DaysIn(year, month)
    ensures var doy := DayOfYear(month, day);
            var mp := Div(5 * doy + 2, 153);
            && 0 <= doy < (if Leap(year) then 366 else 365)
            && (month > 2 ==> doy < 306)
            && mp == (month + 9) % 12
            && doy - Div(153 * mp + 2, 5) + 1 == day
            && (if mp < 10 then mp + 3 else mp - 9) == month
  {
    hide Leap;
  }

  /** Every day of a March year falls in a month. */
  lemma MonthExists(doy: int, leap: bool) returns (month: int, day: int)
    requires 0 <= doy < if leap then 366 else 365
    ensures 1 <= month <= 12 && doy == DayOfYear(month, day) && 1 <= day
    ensures day <= if month == 2 then (if leap then 29 else 28) else DaysIn(0, month)
  {
    var mp := Div(5 * doy + 2, 153);
    month := if mp < 10 then mp + 3 else mp - 9;
    day := doy - Div(153 * mp + 2, 5) + 1;
  }

  // ---- the round trips ----

  /** The program shifts a negative dividend so that division toward zero rounds down. */
  lemma FloorDivision(a: int, n: int, q: int, r: int)
    requires n > 0 && 0 <= r < n && a == n * q + r
    ensures Div(if a >= 0 then a else a - (n - 1), n) == q
  {
    if a >= 0 {
      Quotient(a, n, q, r);
    } else {
      Distribute(n, 0, q);
      Quotient(n - 1 - a, n, -q, n - 1 - r);
    }
  }

  /** The day number of a date, by era, year of era and day of year. */
  lemma CivilDays(c: Civil, era: int, yoe: int)
    requires 0 <= yoe < 400 && MarchYear(c) == era * 400 + yoe
    ensures DaysFromCivil(c) == era * 146_097 + YearStart(yoe) + DayOfYear(c.month, c.day) - 719_468
  {
    FloorDivision(MarchYear(c), 400, era, yoe);
    hide DayOfYear, Div, MarchYear;
  }

  /** Era, year of era and day of year of a date. */
  lemma CivilParts(c: Civil) returns (era: int, yoe: int, doy: int)
    requires ValidDate(c)
    ensures 0 <= yoe < 400 && MarchYear(c) == era * 400 + yoe
    ensures doy == DayOfYear(c.month, c.day) && 0 <= doy < YearLength(yoe)
    ensures DaysFromCivil(c) == era * 146_097 + YearStart(yoe) + doy - 719_468
  {
    hide Leap, DaysFromCivil, YearStart, DaysIn, DayOfYear;
    var y := MarchYear(c);
    era, yoe, doy := y / 400, y % 400, DayOfYear(c.month, c.day);
    MonthFound(c.year, c.month, c.day);
    LeapShifts(era, yoe + 1);
    CivilDays(c, era, yoe);
  }

  /** Reading a day number back, once its era, year and day of year are known. */
  lemma DaysToCivil(era: int, yoe: int, doy: int)
    requires 0 <= yoe < 400 && 0 <= doy < YearLength(yoe)
    ensures CivilFromDays(era * 146_097 + YearStart(yoe) + doy - 719_468) == CivilAt(era, yoe, doy)
  {
    hide YearStart, YearLength, Div, YearOfEra, CivilFromDays;
    var doe := YearStart(yoe) + doy;
    YearFound(yoe, doy);
    FloorDivision(era * 146_097 + doe, 146_097, era, doe);
    ReadOff(era, doe, yoe, doy);
  }

  /** The date of a day of a March year. */
  function CivilAt(era: int, yoe: int, doy: int): Civil {
    var mp := Div(5 * doy + 2, 153);
    var month := if mp < 10 then mp + 3 else mp - 9;
    Civil(era * 400 + yoe + if month <= 2 then 1 else 0, month, doy - Div(153 * mp + 2, 5) + 1)
  }

  lemma ReadOff(era: int, doe: int, yoe: int, doy: int)
    requires YearOfEra(doe) == yoe && doe == YearStart(yoe) + doy
    requires var z := era * 146_097 + doe; Div(if z >= 0 then z else z - 146_096, 146_097) == era
    ensures CivilFromDays(era * 146_097 + doe - 719_468) == CivilAt(era, yoe, doy)
  {
    hide Div, YearOfEra;
    var z := era * 146_097 + doe;
    assert z - era * 146_097 == doe;
    assert doe - (365 * yoe + Div(yoe, 4) - Div(yoe, 100)) == doy;
  }

  /** From a date to its day number and back. */
  lemma CivilRoundTrip(c: Civil)
    requires ValidDate(c)
    ensures CivilFromDays(DaysFromCivil(c)) == c
  {
    hide CivilFromDays, DaysFromCivil, YearStart, Leap, YearLength, DayOfYear, DaysIn;
    var era, yoe, doy := CivilParts(c);
    DaysToCivil(era, yoe, doy);
    MonthFound(c.year, c.month, c.day);
  }

  /** From a day number, negative ones included, to a valid date and back. */
  lemma DaysRoundTrip(days: int)
    ensures ValidDate(CivilFromDays(days))
    ensures DaysFromCivil(CivilFromDays(days)) == days
  {
    hide CivilFromDays, DaysFromCivil, YearStart, Leap, DayOfYear, Div;
    var z := days + 719_468;
    var era, doe := z / 146_097, z % 146_097;
    var yoe, doy := YearExists(doe);
    LeapShifts(era, yoe + 1);
    var month, day := MonthExists(doy, Leap(yoe + 1));
    var y := era * 400 + yoe;
    var c := Civil(if month <= 2 then y + 1 else y, month, day);
    CivilDays(c, era, yoe);
    CivilRoundTrip(c);
  }

  lemma Epoch()
    ensures DaysFromCivil(Civil(1970, 1, 1)) == 0
  {
  }

  /** Days from the epoch on are dates from 1970 on, and the other way round. */
  lemma EpochOn(c: Civil)
    requires ValidDate(c)
    ensures DaysFromCivil(c) >= 0 <==> c.year >= 1970
  {
    hide DaysFromCivil, DaysIn;
    Epoch();
    var start := Civil(1970, 1, 1);
    assert ValidDate(start) by {
      FirstOfMonth(start);
    }
    if c.year < 1970 {
      DaysMonotone(c, start);
    } else if c != start {
      DaysMonotone(start, c);
    }
  }

  lemma FirstOfMonth(c: Civil)
    requires 1 <= c.month <= 12 && c.day == 1
    ensures ValidDate(c)
  {
  }

  /** Day numbers are strictly increasing in (year, month, day). */
  lemma DaysMonotone(a: Civil, b: Civil)
    requires ValidDate(a) && ValidDate(b) && Earlier(a, b)
    ensures DaysFromCivil(a) < DaysFromCivil(b)
  {
    hide Leap, DaysIn, YearStart, YearLength, DaysFromCivil, DayOfYear;
    LaterMarchYear(a, b);
    var era, yoe, doy := CivilParts(a);
    var era', yoe', doy' := CivilParts(b);
    if MarchYear(a) == MarchYear(b) {
      DayOfYearMonotone(a, b);
    } else if era == era' {
      YearStartGrows(yoe, yoe');
    } else {
      YearStartBound(yoe);
      YearStartBound(yoe');
    }
  }

  lemma LaterMarchYear(a: Civil, b: Civil)
    requires 1 <= a.month <= 12 && 1 <= b.month <= 12 && Earlier(a, b)
    ensures MarchYear(a) <= MarchYear(b)
  {
  }

  lemma YearStartBound(yoe: int)
    requires 0 <= yoe < 400
    ensures 0 <= YearStart(yoe) && YearStart(yoe) + YearLength(yoe) <= 146_097
  {
    YearFound(yoe, YearLength(yoe) - 1);
    YearFound(yoe, 0);
  }

  lemma DayOfYearMonotone(a: Civil, b: Civil)
    requires ValidDate(a) && ValidDate(b) && Earlier(a, b) && MarchYear(a) == MarchYear(b)
    ensures DayOfYear(a.month, a.day) < DayOfYear(b.month, b.day)
  {
    hide Leap;
    if a.month == b.month {
    } else {
      hide DayOfYear;
      MonthsAscend(a.month, b.month);
      MonthEnds(a.year, a.month, a.day);
      MonthBegins(b.month, b.day);
    }
  }

  /** The day of the year before a month's first. */
  function MonthStart(month: int): int {
    Div(153 * ((month + 9) % 12) + 2, 5)
  }

  lemma MonthBegins(month: int, day: int)
    requires day >= 1
    ensures DayOfYear(month, day) >= MonthStart(month)
  {
  }

  /** A day of a month comes before the months that follow it in the March year. */
  lemma MonthEnds(year: int, month: int, day: int)
    requires 1 <= month <= 12 && 1 <= day <= DaysIn(year, month)
    ensures month != 2 ==> DayOfYear(month, day) < MonthStart(month % 12 + 1)
  {
    hide Leap;
  }

  lemma MonthsAscend(a: int, b: int)
    requires 1 <= a <= 12 && 1 <= b <= 12 && a != 2 && (a + 9) % 12 < (b + 9) % 12
    ensures MonthStart(a % 12 + 1) <= MonthStart(b)
  {
  }

  /** No date lies between a date and the next. */
  lemma Between(c: Civil, x: Civil)
    requires ValidDate(c) && ValidDate(x)
    ensures ValidDate(NextDay(c)) && Earlier(c, NextDay(c)) && MarchYear(c) <= MarchYear(NextDay(c))
    ensures x == NextDay(c) || Earlier(NextDay(c), x) || x == c || Earlier(x, c)
  {
    hide Leap;
  }

  /** The calendar is walked one day at a time: the next date has the next number. */
  lemma NextDayFollows(c: Civil)
    requires ValidDate(c)
    ensures ValidDate(NextDay(c)) && DaysFromCivil(NextDay(c)) == DaysFromCivil(c) + 1
  {
    hide DaysFromCivil, CivilFromDays, NextDay, ValidDate, Earlier, MarchYear;
    var back := CivilFromDays(DaysFromCivil(c) + 1);
    DaysRoundTrip(DaysFromCivil(c) + 1);
    Between(c, back);
    DaysMonotone(c, NextDay(c));
    if Earlier(NextDay(c), back) {
      DaysMonotone(NextDay(c), back);
    } else if Earlier(back, c) {
      DaysMonotone(back, c);
    }
  }
}
