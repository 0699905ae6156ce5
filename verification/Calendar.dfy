// The proleptic Gregorian calendar for all years, as Go's time package reads it.
// Day 0 is 0001-01-01, a Monday; an instant is a number of seconds since its midnight, UTC.
module Calendar {
  const MINUTE := 60
  const HOUR := 3600
  const DAY := 86400

  const SUNDAY := 0
  const FRIDAY := 5

  const MARCH := 3
  const NOVEMBER := 11

  predicate Leap(y: int) {
    y % 4 == 0 && (y % 100 != 0 || y % 400 == 0)
  }

  // Day number of January 1.
  function YearStart(y: int): int {
    365 * (y - 1) + (y - 1) / 4 - (y - 1) / 100 + (y - 1) / 400
  }

  // Days of the year before the 1st of month m.
  function DaysBefore(m: int, leap: bool): int
    requires 1 <= m <= 12
  {
    [0, 31, 59, 90, 120, 151, 181, 212, 243, 273, 304, 334][m - 1] + (if leap && m > 2 then 1 else 0)
  }

  function DaysIn(m: int, leap: bool): int
    requires 1 <= m <= 12
  {
    if m == 2 then (if leap then 29 else 28)
    else if m == 4 || m == 6 || m == 9 || m == 11 then 30
    else 31
  }

  function DayNumber(y: int, m: int, d: int): int
    requires 1 <= m <= 12
  {
    YearStart(y) + DaysBefore(m, Leap(y)) + d - 1
  }

  function Weekday(day: int): int {
    (day + 1) % 7
  }

  // Splits the days into cycles of 400, 100, 4 and 1 years.
  function YearOf(day: int): int {
    var a := day / 146097;
    var r := day % 146097;
    var b := if r == 146096 then 3 else r / 36524;
    var q := r - 36524 * b;
    var c := q / 1461;
    var p := q - 1461 * c;
    var e := if p == 1460 then 3 else p / 365;
    400 * a + 100 * b + 4 * c + e + 1
  }

  lemma YearLength(y: int)
    ensures YearStart(y + 1) - YearStart(y) == if Leap(y) then 366 else 365
  {
    NextQuotient(y, 4);
    NextQuotient(y, 100);
    NextQuotient(y, 400);
    if y % 400 == 0 { Quotient(y, 100, 4 * (y / 400), 0); }
    if y % 100 == 0 { Quotient(y, 4, 25 * (y / 100), 0); }
  }

  lemma NextQuotient(y: int, k: int)
    requires k == 4 || k == 100 || k == 400
    ensures y / k - (y - 1) / k == if y % k == 0 then 1 else 0
  {
    var q, r := (y - 1) / k, (y - 1) % k;
    if r == k - 1 { Quotient(y, k, q + 1, 0); } else { Quotient(y, k, q, r + 1); }
  }

  lemma YearStartByCycles(a: int, b: int, c: int, e: int)
    requires 0 <= b < 4 && 0 <= c < 25 && 0 <= e < 4
    ensures YearStart(400 * a + 100 * b + 4 * c + e + 1) == 146097 * a + 36524 * b + 1461 * c + 365 * e
    ensures Leap(400 * a + 100 * b + 4 * c + e + 1) <==> e == 3 && (c != 24 || b == 3)
  {
    var n := 400 * a + 100 * b + 4 * c + e;
    Quotient(n, 4, 100 * a + 25 * b + c, e);
    Quotient(n, 100, 4 * a + b, 4 * c + e);
    Quotient(n, 400, a, 100 * b + 4 * c + e);
    LeapByCycles(a, b, c, e);
  }

  lemma Quotient(n: int, k: int, q: int, r: int)
    requires (k == 4 || k == 100 || k == 400) && 0 <= r < k && n == k * q + r
    ensures n / k == q && n % k == r
  {
  }

  lemma LeapByCycles(a: int, b: int, c: int, e: int)
    requires 0 <= b < 4 && 0 <= c < 25 && 0 <= e < 4
    ensures Leap(400 * a + 100 * b + 4 * c + e + 1) <==> e == 3 && (c != 24 || b == 3)
  {
    var y := 400 * a + 100 * b + 4 * c + e + 1;
    Quotient(y, 4, 100 * a + 25 * b + c + (if e == 3 then 1 else 0), if e == 3 then 0 else e + 1);
    var m := 4 * c + e + 1;
    Quotient(y, 100, 4 * a + b + (if m == 100 then 1 else 0), if m == 100 then 0 else m);
    var h := 100 * b + m;
    Quotient(y, 400, a + (if h == 400 then 1 else 0), if h == 400 then 0 else h);
  }

  lemma {:induction false} YearStartsAscend(y: int, z: int)
    requires y < z
    ensures YearStart(y) + 365 * (z - y) <= YearStart(z)
    decreases z - y
  {
    YearLength(z - 1);
    if y < z - 1 { YearStartsAscend(y, z - 1); }
  }

  // YearOf is the one year that contains the day.
  lemma YearOfExact(day: int, y: int)
    ensures YearOf(day) == y <==> YearStart(y) <= day < YearStart(y + 1)
  {
    YearOfContains(day);
    var x := YearOf(day);
    if x < y {
      YearStartsAscend(x, y);
      YearLength(x);
      if x + 1 < y { YearStartsAscend(x + 1, y); }
    } else if y < x {
      YearStartsAscend(y, x);
      YearLength(y);
      if y + 1 < x { YearStartsAscend(y + 1, x); }
    }
  }

  lemma YearOfContains(day: int)
    ensures YearStart(YearOf(day)) <= day < YearStart(YearOf(day) + 1)
  {
    var a := day / 146097;
    var r := day % 146097;
    var b := if r == 146096 then 3 else r / 36524;
    var q := r - 36524 * b;
    var c := q / 1461;
    var p := q - 1461 * c;
    var e := if p == 1460 then 3 else p / 365;
    YearStartByCycles(a, b, c, e);
    YearLength(YearOf(day));
  }

  datatype Date = Date(year: int, month: int, day: int)

  // The month of a day of the year (counted from 0).
  function MonthOf(n: int, leap: bool): (m: int)
    requires 0 <= n < if leap then 366 else 365
    ensures 1 <= m <= 12
    ensures DaysBefore(m, leap) <= n < DaysBefore(m, leap) + DaysIn(m, leap)
  {
    if n < DaysBefore(2, leap) then 1
    else if n < DaysBefore(3, leap) then 2
    else if n < DaysBefore(4, leap) then 3
    else if n < DaysBefore(5, leap) then 4
    else if n < DaysBefore(6, leap) then 5
    else if n < DaysBefore(7, leap) then 6
    else if n < DaysBefore(8, leap) then 7
    else if n < DaysBefore(9, leap) then 8
    else if n < DaysBefore(10, leap) then 9
    else if n < DaysBefore(11, leap) then 10
    else if n < DaysBefore(12, leap) then 11
    else 12
  }

  function DateOf(day: int): (r: Date)
    ensures r.year == YearOf(day)
    ensures 1 <= r.month <= 12 && 1 <= r.day <= DaysIn(r.month, Leap(r.year))
    ensures DayNumber(r.year, r.month, r.day) == day
  {
    YearOfContains(day);
    var y := YearOf(day);
    YearLength(y);
    var m := MonthOf(day - YearStart(y), Leap(y));
    Date(y, m, day - YearStart(y) - DaysBefore(m, Leap(y)) + 1)
  }

  predicate Earlier(a: Date, b: Date) {
    a.year < b.year || (a.year == b.year && (a.month < b.month || (a.month == b.month && a.day < b.day)))
  }

  lemma MonthsAscend(m: int, n: int, leap: bool)
    requires 1 <= m < n <= 12
    ensures DaysBefore(m, leap) + DaysIn(m, leap) <= DaysBefore(n, leap)
  {
  }

  // Dates are read in the order of the days they name.
  lemma DatesAscend(a: int, b: int)
    requires a < b
    ensures Earlier(DateOf(a), DateOf(b))
  {
    hide YearStart, YearOf, Leap, DaysBefore, DaysIn;
    var x, y := DateOf(a), DateOf(b);
    YearOfContains(a);
    YearOfContains(b);
    if y.year < x.year {
      YearLength(y.year);
      if y.year + 1 < x.year { YearStartsAscend(y.year + 1, x.year); }
    } else if x.year == y.year && y.month < x.month {
      MonthsAscend(y.month, x.month, Leap(x.year));
    }
  }

  // ----- The calendar itself -----

  // The day after, as a calendar has it: month lengths and the leap rule written out.
  function Tomorrow(d: Date): Date {
    var leap := (d.year % 4 == 0 && d.year % 100 != 0) || d.year % 400 == 0;
    var last := if d.month == 2 then (if leap then 29 else 28)
                else if d.month == 4 || d.month == 6 || d.month == 9 || d.month == 11 then 30
                else 31;
    if d.day < last then Date(d.year, d.month, d.day + 1)
    else if d.month < 12 then Date(d.year, d.month + 1, 1)
    else Date(d.year + 1, 1, 1)
  }

  lemma DateUnique(day: int, d: Date)
    requires 1 <= d.month <= 12 && 1 <= d.day <= DaysIn(d.month, Leap(d.year))
    requires DayNumber(d.year, d.month, d.day) == day
    ensures DateOf(day) == d
  {
    hide YearOf, YearStart, Leap, DaysBefore, DaysIn;
    var leap := Leap(d.year);
    YearLength(d.year);
    MonthEnds(d.month, leap);
    YearEnds(d.month, leap);
    YearOfExact(day, d.year);
    var e := DateOf(day);
    if e.month < d.month { MonthsAscend(e.month, d.month, leap); }
    if d.month < e.month { MonthsAscend(d.month, e.month, leap); }
  }

  // A month ends where the next begins, the last one with the year.
  lemma MonthEnds(m: int, leap: bool)
    requires 1 <= m <= 12
    ensures DaysBefore(1, leap) == 0
    ensures m < 12 ==> DaysBefore(m, leap) + DaysIn(m, leap) == DaysBefore(m + 1, leap)
    ensures m == 12 ==> DaysBefore(m, leap) + DaysIn(m, leap) == if leap then 366 else 365
  {
  }

  lemma YearEnds(m: int, leap: bool)
    requires 1 <= m <= 12
    ensures 0 <= DaysBefore(m, leap) && DaysBefore(m, leap) + DaysIn(m, leap) <= if leap then 366 else 365
  {
  }

  lemma TomorrowExists(d: Date)
    requires 1 <= d.month <= 12 && 1 <= d.day <= DaysIn(d.month, Leap(d.year))
    ensures var t := Tomorrow(d);
            && 1 <= t.month <= 12 && 1 <= t.day <= DaysIn(t.month, Leap(t.year))
            && DayNumber(t.year, t.month, t.day) == DayNumber(d.year, d.month, d.day) + 1
  {
    hide YearStart, DaysBefore;
    MonthEnds(d.month, Leap(d.year));
    MonthEnds(1, Leap(d.year + 1));
    YearLength(d.year);
  }

  // Every day is followed by the next one of the calendar, for all years.
  lemma NextDay(day: int)
    ensures DateOf(day + 1) == Tomorrow(DateOf(day))
    ensures Weekday(day + 1) == (Weekday(day) + 1) % 7
  {
    hide YearOf, YearStart, Leap, DaysBefore, DaysIn, DayNumber, Tomorrow;
    TomorrowExists(DateOf(day));
    DateUnique(day + 1, Tomorrow(DateOf(day)));
  }

  lemma EpochNumber()
    ensures DayNumber(1970, 1, 1) == 719162
  {
  }

  // And the count is anchored: January 1 of 1970 was a Thursday.
  lemma Epoch()
    ensures DateOf(719162) == Date(1970, 1, 1) && Weekday(719162) == 4
  {
    hide YearOf, YearStart, Leap, DaysBefore, DayNumber, DateOf;
    EpochNumber();
    DateUnique(719162, Date(1970, 1, 1));
  }
}
