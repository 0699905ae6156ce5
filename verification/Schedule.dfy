// The weekly gate: Friday 17:00 America/Chicago, computed without a time-zone database
// (internal/schedule/schedule.go).
module Schedule {
  import opened Calendar

  // nthSundayOfMonth: the day of the month of the n-th Sunday.
  function NthSunday(y: int, m: int, n: int): int
    requires 1 <= m <= 12
  {
    1 + (SUNDAY - Weekday(DayNumber(y, m, 1)) + 7) % 7 + (n - 1) * 7
  }

  function SpringForward(y: int): int {
    DayNumber(y, MARCH, NthSunday(y, MARCH, 2)) * DAY + 8 * HOUR
  }

  function FallBack(y: int): int {
    DayNumber(y, NOVEMBER, NthSunday(y, NOVEMBER, 1)) * DAY + 7 * HOUR
  }

  predicate CentralIsDaylight(u: int) {
    var year := YearOf(u / DAY);
    SpringForward(year) <= u < FallBack(year)
  }

  function CentralOffset(u: int): int {
    if CentralIsDaylight(u) then -5 * HOUR else -6 * HOUR
  }

  function CentralClock(u: int): int {
    u + CentralOffset(u)
  }

  predicate IsFriday1700Central(u: int) {
    var c := CentralClock(u);
    Weekday(c / DAY) == FRIDAY && c % DAY / HOUR == 17 && c % HOUR / MINUTE == 0
  }

  // ----- The rule as a calendar states it -----

  predicate SecondSundayOfMarch(day: int, y: int) {
    Weekday(day) == SUNDAY && DayNumber(y, MARCH, 8) <= day <= DayNumber(y, MARCH, 14)
  }

  predicate FirstSundayOfNovember(day: int, y: int) {
    Weekday(day) == SUNDAY && DayNumber(y, NOVEMBER, 1) <= day <= DayNumber(y, NOVEMBER, 7)
  }

  ghost predicate InDaylightOf(u: int, y: int) {
    exists s, f :: SecondSundayOfMarch(s, y) && FirstSundayOfNovember(f, y)
                   && s * DAY + 8 * HOUR <= u < f * DAY + 7 * HOUR
  }

  // The n-th Sunday computed is the only Sunday among the month's n-th seven days.
  lemma NthSundayExact(y: int, m: int, n: int, day: int)
    requires 1 <= m <= 12
    ensures day == DayNumber(y, m, NthSunday(y, m, n)) <==>
            Weekday(day) == SUNDAY && DayNumber(y, m, 7 * n - 6) <= day <= DayNumber(y, m, 7 * n)
  {
    hide YearStart, DaysBefore;
    var first := DayNumber(y, m, 1);
    var k := (SUNDAY - Weekday(first) + 7) % 7;
    assert (first + k + 1) % 7 == 0;
  }

  // Both boundaries of a year fall strictly inside that year.
  lemma BoundariesInYear(y: int)
    ensures YearStart(y) * DAY + 8 * HOUR < SpringForward(y)
    ensures SpringForward(y) + DAY < FallBack(y)
    ensures FallBack(y) + DAY < YearStart(y + 1) * DAY
  {
    hide YearStart, NthSunday, Weekday;
    NthSundayExact(y, MARCH, 2, DayNumber(y, MARCH, NthSunday(y, MARCH, 2)));
    NthSundayExact(y, NOVEMBER, 1, DayNumber(y, NOVEMBER, NthSunday(y, NOVEMBER, 1)));
    YearLength(y);
  }

  // The test by the instant's own year finds the interval of whichever year holds it.
  lemma DaylightByYear(u: int)
    ensures CentralIsDaylight(u) <==> exists y :: SpringForward(y) <= u < FallBack(y)
  {
    hide YearStart, YearOf, SpringForward, FallBack;
    forall y | SpringForward(y) <= u < FallBack(y)
      ensures YearOf(u / DAY) == y
    {
      BoundariesInYear(y);
      YearOfExact(u / DAY, y);
    }
  }

  // An instant is daylight exactly when it lies in some year's interval from the second Sunday
  // of March 08:00 UTC to the first Sunday of November 07:00 UTC.
  lemma DaylightExact(u: int)
    ensures CentralIsDaylight(u) <==> exists y :: InDaylightOf(u, y)
  {
    hide DayNumber, NthSunday, Weekday, CentralIsDaylight;
    DaylightByYear(u);
    forall y
      ensures InDaylightOf(u, y) <==> SpringForward(y) <= u < FallBack(y)
    {
      var s, f := DayNumber(y, MARCH, NthSunday(y, MARCH, 2)), DayNumber(y, NOVEMBER, NthSunday(y, NOVEMBER, 1));
      NthSundayExact(y, MARCH, 2, s);
      NthSundayExact(y, NOVEMBER, 1, f);
      forall s', f' | SecondSundayOfMarch(s', y) && FirstSundayOfNovember(f', y)
        ensures s' == s && f' == f
      {
        NthSundayExact(y, MARCH, 2, s');
        NthSundayExact(y, NOVEMBER, 1, f');
      }
      assert SecondSundayOfMarch(s, y) && FirstSundayOfNovember(f, y);
    }
  }

  // ----- The Central wall clock -----

  // Daylight starts within the hour after u exactly when that hour holds a spring boundary.
  lemma StartsWithinHour(u: int)
    ensures !CentralIsDaylight(u) && CentralIsDaylight(u + HOUR) <==> exists y :: u < SpringForward(y) <= u + HOUR
  {
    hide YearStart, YearOf, SpringForward, FallBack;
    DaylightByYear(u);
    DaylightByYear(u + HOUR);
    forall y | u < SpringForward(y) <= u + HOUR
      ensures !CentralIsDaylight(u) && SpringForward(y) <= u + HOUR < FallBack(y)
    {
      BoundariesInYear(y);
      YearOfExact(u / DAY, y);
    }
  }

  lemma EndsWithinHour(u: int)
    ensures CentralIsDaylight(u) && !CentralIsDaylight(u + HOUR) <==> exists y :: u < FallBack(y) <= u + HOUR
  {
    hide YearStart, YearOf, SpringForward, FallBack;
    DaylightByYear(u);
    DaylightByYear(u + HOUR);
    forall y | u < FallBack(y) <= u + HOUR
      ensures SpringForward(y) <= u < FallBack(y) && !CentralIsDaylight(u + HOUR)
    {
      BoundariesInYear(y);
      YearOfExact((u + HOUR) / DAY, y);
    }
  }

  // 02:00-02:59 on a spring Sunday, read on the wall clock.
  ghost predicate Skipped(w: int) {
    exists s, y :: SecondSundayOfMarch(s, y) && s * DAY + 2 * HOUR <= w < s * DAY + 3 * HOUR
  }

  // 01:00-01:59 on an autumn Sunday.
  ghost predicate Repeated(w: int) {
    exists f, y :: FirstSundayOfNovember(f, y) && f * DAY + HOUR <= w < f * DAY + 2 * HOUR
  }

  lemma SkippedExact(w: int)
    ensures Skipped(w) <==> exists y :: w + 5 * HOUR < SpringForward(y) <= w + 6 * HOUR
  {
    hide DayNumber, NthSunday, Weekday;
    forall s, y
      ensures SecondSundayOfMarch(s, y) <==> s == DayNumber(y, MARCH, NthSunday(y, MARCH, 2))
    {
      NthSundayExact(y, MARCH, 2, s);
    }
    if Skipped(w) {
      var s, y :| SecondSundayOfMarch(s, y) && s * DAY + 2 * HOUR <= w < s * DAY + 3 * HOUR;
      assert SpringForward(y) == s * DAY + 8 * HOUR;
    }
    if y :| w + 5 * HOUR < SpringForward(y) <= w + 6 * HOUR {
      assert SecondSundayOfMarch(DayNumber(y, MARCH, NthSunday(y, MARCH, 2)), y);
    }
  }

  lemma RepeatedExact(w: int)
    ensures Repeated(w) <==> exists y :: w + 5 * HOUR < FallBack(y) <= w + 6 * HOUR
  {
    hide DayNumber, NthSunday, Weekday;
    forall f, y
      ensures FirstSundayOfNovember(f, y) <==> f == DayNumber(y, NOVEMBER, NthSunday(y, NOVEMBER, 1))
    {
      NthSundayExact(y, NOVEMBER, 1, f);
    }
    if Repeated(w) {
      var f, y :| FirstSundayOfNovember(f, y) && f * DAY + HOUR <= w < f * DAY + 2 * HOUR;
      assert FallBack(y) == f * DAY + 7 * HOUR;
    }
    if y :| w + 5 * HOUR < FallBack(y) <= w + 6 * HOUR {
      assert FirstSundayOfNovember(DayNumber(y, NOVEMBER, NthSunday(y, NOVEMBER, 1)), y);
    }
  }

  // The wall clock never shows a skipped reading, shows a repeated reading at exactly two
  // instants an hour apart, and shows every other reading at exactly one instant.
  lemma WallClock(w: int)
    ensures (exists u :: CentralClock(u) == w) <==> !Skipped(w)
    ensures (exists u, v :: u != v && CentralClock(u) == w && CentralClock(v) == w) <==> Repeated(w)
    ensures forall u, v :: u < v && CentralClock(u) == w && CentralClock(v) == w ==> v == u + HOUR
  {
    hide SpringForward, FallBack, CentralIsDaylight, Skipped, Repeated;
    var early, late := w + 5 * HOUR, w + 6 * HOUR;
    assert late == early + HOUR;
    assert CentralClock(early) == w <==> CentralIsDaylight(early);
    assert CentralClock(late) == w <==> !CentralIsDaylight(late);
    assert forall u :: CentralClock(u) == w ==> u == early || u == late;
    StartsWithinHour(early);
    EndsWithinHour(early);
    SkippedExact(w);
    RepeatedExact(w);
    if Repeated(w) { assert early != late && CentralClock(early) == w && CentralClock(late) == w; }
  }

  // ----- The gate -----

  // The one fire of a Friday that is 17:00 Central: 22:00 UTC in daylight time, 23:00 otherwise.
  function Fire(friday: int): int {
    friday * DAY + (if CentralIsDaylight(friday * DAY + 22 * HOUR) then 22 * HOUR else 23 * HOUR)
  }

  lemma SundayBoundaries(y: int)
    ensures Weekday(SpringForward(y) / DAY) == SUNDAY && Weekday(FallBack(y) / DAY) == SUNDAY
  {
    hide DayNumber, NthSunday, Weekday;
    NthSundayExact(y, MARCH, 2, DayNumber(y, MARCH, NthSunday(y, MARCH, 2)));
    NthSundayExact(y, NOVEMBER, 1, DayNumber(y, NOVEMBER, NthSunday(y, NOVEMBER, 1)));
  }

  // No boundary falls on a Friday, so both candidate fires see the same offset.
  lemma FridayOffsetSteady(friday: int, s: int)
    requires Weekday(friday) == FRIDAY && 22 * HOUR <= s < 24 * HOUR
    ensures CentralIsDaylight(friday * DAY + s) == CentralIsDaylight(friday * DAY + 22 * HOUR)
  {
    hide YearOf, SpringForward, FallBack, Weekday;
    var u, v := friday * DAY + 22 * HOUR, friday * DAY + s;
    assert u / DAY == friday && v / DAY == friday;
    var y := YearOf(friday);
    SundayBoundaries(y);
  }

  // Hour 17, minute 0 is the minute that starts 17 hours into the day.
  lemma ReadsSeventeen(c: int)
    ensures c % DAY / HOUR == 17 && c % HOUR / MINUTE == 0 <==> 17 * HOUR <= c - c / DAY * DAY < 17 * HOUR + MINUTE
  {
    var s := c % DAY;
    var h, m := s / HOUR, s % HOUR;
    HourParts(24 * (c / DAY) + h, m);
    assert c == (24 * (c / DAY) + h) * HOUR + m;
  }

  lemma HourParts(q: int, m: int)
    requires 0 <= m < HOUR
    ensures (q * HOUR + m) / HOUR == q && (q * HOUR + m) % HOUR == m
    ensures m / MINUTE == 0 <==> m < MINUTE
  {
  }

  // The gate is open exactly in the minute that starts at the fire of a Friday.
  lemma GateExact(u: int)
    ensures IsFriday1700Central(u) <==>
            Weekday(u / DAY) == FRIDAY && Fire(u / DAY) <= u < Fire(u / DAY) + MINUTE
  {
    hide CentralIsDaylight, Weekday;
    var day := u / DAY;
    var c := CentralClock(u);
    ReadsSeventeen(c);
    var f := c / DAY;
    if IsFriday1700Central(u) {
      assert day == f;
      FridayOffsetSteady(f, u - f * DAY);
    }
    if Weekday(day) == FRIDAY && Fire(day) <= u < Fire(day) + MINUTE {
      FridayOffsetSteady(day, u - day * DAY);
      assert f == day;
    }
  }

  // Exactly one of the two Friday crons passes the gate.
  lemma ExactlyOneCronPasses(friday: int)
    requires Weekday(friday) == FRIDAY
    ensures IsFriday1700Central(friday * DAY + 22 * HOUR) != IsFriday1700Central(friday * DAY + 23 * HOUR)
  {
    hide CentralIsDaylight, Weekday, IsFriday1700Central;
    GateExact(friday * DAY + 22 * HOUR);
    GateExact(friday * DAY + 23 * HOUR);
    assert (friday * DAY + 22 * HOUR) / DAY == friday && (friday * DAY + 23 * HOUR) / DAY == friday;
  }

  // Consecutive open minutes are 167, 168 or 169 hours apart, according to whether daylight
  // time starts, stays or ends in between.
  lemma WeeklyGap(t: int, v: int)
    requires t < v && t % MINUTE == 0 && v % MINUTE == 0
    requires IsFriday1700Central(t) && IsFriday1700Central(v)
    requires forall u :: t < u < v && u % MINUTE == 0 ==> !IsFriday1700Central(u)
    ensures v - t == 168 * HOUR + CentralOffset(t) - CentralOffset(v)
    ensures v - t == 167 * HOUR || v - t == 168 * HOUR || v - t == 169 * HOUR
  {
    hide CentralIsDaylight, IsFriday1700Central, Weekday;
    var f, g := t / DAY, v / DAY;
    OpenMinute(t);
    OpenMinute(v);
    FireOnMinute(f + 7);
    OpenMinute(Fire(f + 7));
    FridaysApart(f, g);
    assert g == f + 7;
  }

  lemma FridaysApart(f: int, g: int)
    requires Weekday(f) == Weekday(g) == FRIDAY
    ensures f < g ==> f + 7 <= g
    ensures Weekday(f + 7) == FRIDAY
  {
  }

  lemma FireOnMinute(f: int)
    ensures Fire(f) / DAY == f && Fire(f) % MINUTE == 0
  {
    hide CentralIsDaylight;
  }

  // At the start of an open minute the instant is the Friday's fire, 17 hours into its day on
  // the wall clock.
  lemma OpenMinute(t: int)
    requires t % MINUTE == 0
    ensures IsFriday1700Central(t) <==> Weekday(t / DAY) == FRIDAY && t == Fire(t / DAY)
    ensures IsFriday1700Central(t) ==> t == t / DAY * DAY + 17 * HOUR - CentralOffset(t)
  {
    hide CentralIsDaylight, Weekday, IsFriday1700Central;
    GateExact(t);
    FireOnMinute(t / DAY);
    if IsFriday1700Central(t) { FridayOffsetSteady(t / DAY, t - t / DAY * DAY); }
  }
}
