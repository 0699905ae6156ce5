// Report ids: a UTC timestamp and 80 random bits (internal/storage/sink.go), and why listing
// them in string order is listing them oldest first.
module ReportId {
  import opened Wrappers
  import opened Order
  import opened Calendar

  const RANDOM_SIZE := 10

  function Digit(d: int): char
    requires 0 <= d < 16
  {
    if d < 10 then ('0' as int + d) as char else ('a' as int + d - 10) as char
  }

  // At least w decimal digits, zero-padded.
  function PadNat(n: nat, w: nat): string
    decreases n, w
  {
    if n < 10 && w <= 1 then [Digit(n)]
    else PadNat(n / 10, if w == 0 then 0 else w - 1) + [Digit(n % 10)]
  }

  function PadInt(n: int, w: nat): string {
    if n < 0 then "-" + PadNat(-n, w) else PadNat(n, w)
  }

  // The layout 20060102T150405 of an instant.
  function Timestamp(u: int): string {
    var date := DateOf(u / DAY);
    var s := u % DAY;
    PadInt(date.year, 4) + PadNat(date.month, 2) + PadNat(date.day, 2) + "T"
    + PadNat(s / HOUR, 2) + PadNat(s % HOUR / MINUTE, 2) + PadNat(s % MINUTE, 2)
  }

  function Hex(b: Bytes): string {
    if b == [] then "" else [Digit(b[0] as int / 16), Digit(b[0] as int % 16)] + Hex(b[1..])
  }

  function NewId(u: int, random: Bytes): string {
    Timestamp(u) + "-" + Hex(random)
  }

  // newReportID: fills a ten-byte buffer from the random source, then encodes it.
  method NewReportID(now: int, source: nat -> Byte) returns (id: string)
    ensures id == NewId(now, seq(RANDOM_SIZE, (i: nat) => source(i)))
  {
    hide Timestamp;
    var b := new Byte[RANDOM_SIZE](i => 0 as char);
    for i := 0 to RANDOM_SIZE
      invariant forall j :: 0 <= j < i ==> b[j] == source(j)
    {
      b[i] := source(i);
    }
    assert b[..] == seq(RANDOM_SIZE, (i: nat) => source(i));
    id := Timestamp(now) + "-" + Hex(b[..]);
  }

  function Pow10(w: nat): nat {
    if w == 0 then 1 else 10 * Pow10(w - 1)
  }

  lemma {:induction false} PadWidth(n: nat, w: nat)
    requires 1 <= w && n < Pow10(w)
    ensures |PadNat(n, w)| == w
  {
    if w > 1 { PadWidth(n / 10, w - 1); }
  }

  // Zero-padded numbers of one width read in numeric order.
  lemma {:induction false} PadOrder(n: nat, m: nat, w: nat)
    requires 1 <= w && n < Pow10(w) && m < Pow10(w)
    ensures Less(PadNat(n, w), PadNat(m, w)) <==> n < m
    ensures PadNat(n, w) == PadNat(m, w) <==> n == m
  {
    if w == 1 {
      assert PadNat(n, 1) == [Digit(n)] && PadNat(m, 1) == [Digit(m)];
    } else {
      PadOrder(n / 10, m / 10, w - 1);
      PadWidth(n / 10, w - 1);
      PadWidth(m / 10, w - 1);
      LastDigitDecides(PadNat(n / 10, w - 1), n % 10, PadNat(m / 10, w - 1), m % 10);
    }
  }

  lemma LastDigitDecides(p: string, d: int, q: string, e: int)
    requires |p| == |q| && 0 <= d < 10 && 0 <= e < 10
    ensures Less(p + [Digit(d)], q + [Digit(e)]) <==> Less(p, q) || (p == q && d < e)
    ensures p + [Digit(d)] == q + [Digit(e)] <==> p == q && d == e
  {
    LessByParts(p, [Digit(d)], q, [Digit(e)]);
    assert (p + [Digit(d)])[..|p|] == p && (q + [Digit(e)])[..|q|] == q;
    assert (p + [Digit(d)])[|p|] == Digit(d) && (q + [Digit(e)])[|q|] == Digit(e);
  }

  // One field of two layouts: earlier fields decide first.
  lemma FieldOrder(p: string, q: string, n: nat, m: nat, w: nat)
    requires |p| == |q| && 1 <= w && n < Pow10(w) && m < Pow10(w)
    ensures |p + PadNat(n, w)| == |q + PadNat(m, w)| == |p| + w
    ensures Less(p + PadNat(n, w), q + PadNat(m, w)) <==> Less(p, q) || (p == q && n < m)
    ensures p + PadNat(n, w) == q + PadNat(m, w) <==> p == q && n == m
  {
    PadWidth(n, w);
    PadWidth(m, w);
    PadOrder(n, m, w);
    LessByParts(p, PadNat(n, w), q, PadNat(m, w));
    assert (p + PadNat(n, w))[..|p|] == p && (q + PadNat(m, w))[..|q|] == q;
    assert (p + PadNat(n, w))[|p|..] == PadNat(n, w) && (q + PadNat(m, w))[|q|..] == PadNat(m, w);
  }

  lemma SameSuffixOrder(p: string, q: string, s: string)
    requires |p| == |q|
    ensures Less(p + s, q + s) <==> Less(p, q)
    ensures p + s == q + s <==> p == q
  {
    LessByParts(p, s, q, s);
    Irreflexive(s);
    assert (p + s)[..|p|] == p && (q + s)[..|q|] == q;
  }

  // Four-digit years.
  predicate InRange(u: int) {
    0 <= DateOf(u / DAY).year <= 9999
  }

  lemma DateLayoutOrder(a: Date, b: Date)
    requires 0 <= a.year <= 9999 && 1 <= a.month <= 12 && 1 <= a.day <= 31
    requires 0 <= b.year <= 9999 && 1 <= b.month <= 12 && 1 <= b.day <= 31
    ensures var p := PadInt(a.year, 4) + PadNat(a.month, 2) + PadNat(a.day, 2) + "T";
            var q := PadInt(b.year, 4) + PadNat(b.month, 2) + PadNat(b.day, 2) + "T";
            |p| == |q| == 9 && (Less(p, q) <==> Earlier(a, b)) && (p == q <==> a == b)
  {
    Pow10Values();
    assert "" + PadNat(a.year, 4) == PadInt(a.year, 4) && "" + PadNat(b.year, 4) == PadInt(b.year, 4);
    FieldOrder("", "", a.year, b.year, 4);
    FieldOrder(PadInt(a.year, 4), PadInt(b.year, 4), a.month, b.month, 2);
    FieldOrder(PadInt(a.year, 4) + PadNat(a.month, 2), PadInt(b.year, 4) + PadNat(b.month, 2), a.day, b.day, 2);
    SameSuffixOrder(PadInt(a.year, 4) + PadNat(a.month, 2) + PadNat(a.day, 2),
                    PadInt(b.year, 4) + PadNat(b.month, 2) + PadNat(b.day, 2), "T");
  }

  predicate ClockBefore(s: int, t: int) {
    || s / HOUR < t / HOUR
    || (s / HOUR == t / HOUR
        && (s % HOUR / MINUTE < t % HOUR / MINUTE
            || (s % HOUR / MINUTE == t % HOUR / MINUTE && s % MINUTE < t % MINUTE)))
  }

  lemma ClockOrder(s: int, t: int)
    requires 0 <= s < t < DAY
    ensures ClockBefore(s, t)
  {
    assert s % MINUTE == s % HOUR % MINUTE && t % MINUTE == t % HOUR % MINUTE;
  }

  lemma DayOfMonthBound(day: int)
    ensures DateOf(day).day <= 31
  {
  }

  lemma Pow10Values()
    ensures Pow10(1) == 10 && Pow10(2) == 100 && Pow10(4) == 10000
  {
    assert Pow10(2) == 10 * Pow10(1);
    assert Pow10(4) == 10 * Pow10(3);
  }

  // The timestamp of an earlier second is smaller, and all have the same length.
  lemma TimestampOrder(u: int, v: int)
    requires u < v && InRange(u) && InRange(v)
    ensures Less(Timestamp(u), Timestamp(v)) && |Timestamp(u)| == |Timestamp(v)| == 15
  {
    hide DateOf, Earlier, PadNat, PadInt, Less, DaysIn, Leap, YearOf, YearStart, DayNumber;
    var a, b := DateOf(u / DAY), DateOf(v / DAY);
    DayOfMonthBound(u / DAY);
    DayOfMonthBound(v / DAY);
    var s, t := u % DAY, v % DAY;
    if u / DAY < v / DAY { DatesAscend(u / DAY, v / DAY); } else { ClockOrder(s, t); }
    DateLayoutOrder(a, b);
    var p := PadInt(a.year, 4) + PadNat(a.month, 2) + PadNat(a.day, 2) + "T";
    var q := PadInt(b.year, 4) + PadNat(b.month, 2) + PadNat(b.day, 2) + "T";
    Pow10Values();
    FieldOrder(p, q, s / HOUR, t / HOUR, 2);
    FieldOrder(p + PadNat(s / HOUR, 2), q + PadNat(t / HOUR, 2), s % HOUR / MINUTE, t % HOUR / MINUTE, 2);
    FieldOrder(p + PadNat(s / HOUR, 2) + PadNat(s % HOUR / MINUTE, 2),
               q + PadNat(t / HOUR, 2) + PadNat(t % HOUR / MINUTE, 2), s % MINUTE, t % MINUTE, 2);
  }

  // ----- What an id says -----

  // The value of a digit in bases up to 16, -1 for any other character.
  function Place(c: char): int {
    if '0' <= c <= '9' then c as int - 48 else if 'a' <= c <= 'f' then c as int - 87 else -1
  }

  // Decimal digits by their places.
  function Decimal(s: string): int {
    if s == "" then 0 else 10 * Decimal(s[..|s| - 1]) + Place(s[|s| - 1])
  }

  lemma {:induction false} PadReads(n: nat, w: nat)
    ensures Decimal(PadNat(n, w)) == n
    decreases n, w
  {
    if !(n < 10 && w <= 1) {
      var u := if w == 0 then 0 else w - 1;
      PadReads(n / 10, u);
      var p := PadNat(n / 10, u);
      assert PadNat(n, w) == p + [Digit(n % 10)];
      assert PadNat(n, w)[..|p|] == p;
    } else {
      assert PadNat(n, w)[..0] == "";
    }
  }

  // The timestamp reads back: day and second of day, field by field.
  lemma TimestampReads(u: int)
    requires InRange(u)
    ensures var t := Timestamp(u);
            && |t| == 15 && t[8] == 'T'
            && var y, m, d := Decimal(t[..4]), Decimal(t[4..6]), Decimal(t[6..8]);
            && DateOf(u / DAY) == Date(y, m, d)
            && var hh, mm, ss := Decimal(t[9..11]), Decimal(t[11..13]), Decimal(t[13..15]);
            && 0 <= hh < 24 && 0 <= mm < 60 && 0 <= ss < 60
            && u % DAY == hh * HOUR + mm * MINUTE + ss
  {
    hide DateOf, PadNat, PadInt, Decimal, DaysIn, Leap, Timestamp;
    var date, s := DateOf(u / DAY), u % DAY;
    DayOfMonthBound(u / DAY);
    TimestampParts(u);
    ClockParts(s);
    Pow10Values();
    var y, m, d := PadNat(date.year, 4), PadNat(date.month, 2), PadNat(date.day, 2);
    var hh, mm, ss := PadNat(s / HOUR, 2), PadNat(s % HOUR / MINUTE, 2), PadNat(s % MINUTE, 2);
    PadWidth(date.year, 4);
    PadWidth(date.month, 2);
    PadWidth(date.day, 2);
    PadWidth(s / HOUR, 2);
    PadWidth(s % HOUR / MINUTE, 2);
    PadWidth(s % MINUTE, 2);
    PadReads(date.year, 4);
    PadReads(date.month, 2);
    PadReads(date.day, 2);
    PadReads(s / HOUR, 2);
    PadReads(s % HOUR / MINUTE, 2);
    PadReads(s % MINUTE, 2);
    SixFields(Timestamp(u), y, m, d, hh, mm, ss);
  }

  lemma TimestampParts(u: int)
    requires InRange(u)
    ensures var date, s := DateOf(u / DAY), u % DAY;
            Timestamp(u) == PadNat(date.year, 4) + PadNat(date.month, 2) + PadNat(date.day, 2) + "T"
                            + PadNat(s / HOUR, 2) + PadNat(s % HOUR / MINUTE, 2) + PadNat(s % MINUTE, 2)
  {
    hide DateOf, PadNat;
  }

  lemma ClockParts(s: int)
    requires 0 <= s < DAY
    ensures 0 <= s / HOUR < 24 && 0 <= s % HOUR / MINUTE < 60 && 0 <= s % MINUTE < 60
    ensures s == s / HOUR * HOUR + s % HOUR / MINUTE * MINUTE + s % MINUTE
  {
    assert s % HOUR % MINUTE == s % MINUTE;
  }

  lemma SixFields(t: string, y: string, m: string, d: string, hh: string, mm: string, ss: string)
    requires |y| == 4 && |m| == |d| == |hh| == |mm| == |ss| == 2
    requires t == y + m + d + "T" + hh + mm + ss
    ensures |t| == 15 && t[..4] == y && t[4..6] == m && t[6..8] == d && t[8] == 'T'
    ensures t[9..11] == hh && t[11..13] == mm && t[13..15] == ss
  {
  }

  lemma {:induction false} HexLength(b: Bytes)
    ensures |Hex(b)| == 2 * |b|
  {
    if b != [] { HexLength(b[1..]); }
  }

  lemma DigitReads(d: int)
    requires 0 <= d < 16
    ensures Place(Digit(d)) == d
  {
  }

  // The random part reads back: two digits a byte, the high half first.
  lemma {:induction false} HexReads(b: Bytes, i: nat)
    requires i < |b|
    ensures |Hex(b)| == 2 * |b|
    ensures var high, low := Place(Hex(b)[2 * i]), Place(Hex(b)[2 * i + 1]);
            0 <= high < 16 && 0 <= low < 16 && 16 * high + low == b[i] as int
  {
    hide Place, Digit;
    HexLength(b);
    HexLength(b[1..]);
    DigitReads(b[0] as int / 16);
    DigitReads(b[0] as int % 16);
    if i > 0 {
      HexReads(b[1..], i - 1);
      assert Hex(b)[2 * i] == Hex(b[1..])[2 * (i - 1)];
      assert Hex(b)[2 * i + 1] == Hex(b[1..])[2 * (i - 1) + 1];
    }
  }

  // The whole id by its places: the timestamp, a dash, and two digits for each random byte.
  lemma IdReads(u: int, random: Bytes, i: nat)
    requires InRange(u) && i < |random|
    ensures var id := NewId(u, random);
            && |id| == 16 + 2 * |random| && id[..15] == Timestamp(u) && id[15] == '-'
            && var high, low := Place(id[16 + 2 * i]), Place(id[17 + 2 * i]);
            && 0 <= high < 16 && 0 <= low < 16 && 16 * high + low == random[i] as int
  {
    hide Timestamp, Hex, DateOf, Place;
    TimestampReads(u);
    HexReads(random, i);
    IdAt(Timestamp(u), Hex(random), 2 * i);
    IdAt(Timestamp(u), Hex(random), 2 * i + 1);
  }

  lemma IdAt(t: string, x: string, k: nat)
    requires |t| == 15 && k < |x|
    ensures var id := t + "-" + x; |id| == 16 + |x| && id[..15] == t && id[15] == '-' && id[16 + k] == x[k]
  {
    var id := t + "-" + x;
    assert id == t + ("-" + x);
  }

  lemma HexInjective(a: Bytes, b: Bytes)
    requires Hex(a) == Hex(b)
    ensures a == b
  {
    hide Hex, Place;
    HexLength(a);
    HexLength(b);
    forall i | 0 <= i < |a|
      ensures a[i] == b[i]
    {
      HexReads(a, i);
      HexReads(b, i);
    }
  }

  // So ids differ whenever they are minted in different seconds or with different random bytes.
  lemma IdsDiffer(u: int, v: int, a: Bytes, b: Bytes)
    requires InRange(u) && InRange(v) && NewId(u, a) == NewId(v, b)
    ensures u == v && a == b
  {
    hide Timestamp, Hex, DateOf;
    TimestampReads(u);
    TimestampReads(v);
    var s, t := Timestamp(u), Timestamp(v);
    assert NewId(u, a) == s + ("-" + Hex(a)) && NewId(v, b) == t + ("-" + Hex(b));
    assert NewId(u, a)[..15] == s && NewId(v, b)[..15] == t;
    assert NewId(u, a)[16..] == Hex(a) && NewId(v, b)[16..] == Hex(b);
    HexInjective(a, b);
    SameDay(u / DAY, v / DAY);
  }

  lemma SameDay(a: int, b: int)
    requires DateOf(a) == DateOf(b)
    ensures a == b
  {
    hide YearOf, YearStart, DaysBefore, DaysIn, Leap;
  }

  // Id order is time order: an id minted in an earlier second is smaller, whatever the
  // random bits.
  lemma IdOrder(u: int, v: int, random: Bytes, random': Bytes)
    requires u < v && InRange(u) && InRange(v)
    ensures Less(NewId(u, random), NewId(v, random'))
  {
    hide Timestamp, InRange, Hex;
    TimestampOrder(u, v);
    LessByParts(Timestamp(u), "-" + Hex(random), Timestamp(v), "-" + Hex(random'));
    assert NewId(u, random) == Timestamp(u) + ("-" + Hex(random));
    assert NewId(v, random') == Timestamp(v) + ("-" + Hex(random'));
  }

  // So whatever a capped run attempts was minted no later, in whole seconds, than anything it
  // defers: ids are the sorted pending ids, of which the first cap are attempted.
  lemma AttemptedBeforeDeferred(ids: seq<string>, minted: seq<int>, random: seq<Bytes>, cap: nat, i: nat, j: nat)
    requires Ascending(ids) && |minted| == |random| == |ids|
    requires forall k :: 0 <= k < |ids| ==> ids[k] == NewId(minted[k], random[k]) && InRange(minted[k])
    requires i < cap <= j < |ids|
    ensures minted[i] <= minted[j]
  {
    hide NewId, InRange;
    assert ids[i] == NewId(minted[i], random[i]) && ids[j] == NewId(minted[j], random[j]);
    assert Less(ids[i], ids[j]);
    Asymmetric(ids[i], ids[j]);
    if minted[j] < minted[i] { IdOrder(minted[j], minted[i], random[j], random[i]); }
  }

  // The bound on the year is needed: the first instant of year 10000 sorts before the last
  // second of 9999.
  lemma FiveDigitYearBreaksOrder(random: Bytes)
    ensures var v := DayNumber(10000, 1, 1) * DAY;
            Less(NewId(v, random), NewId(v - 1, random))
  {
    hide DateOf, PadNat, YearStart, DaysIn, Leap, YearOf, DayNumber;
    var v := DayNumber(10000, 1, 1) * DAY;
    var a, b := DateOf(v / DAY), DateOf((v - 1) / DAY);
    LastYears();
    PaddedYears();
    assert NewId(v, random)[0] == '1' && NewId(v - 1, random)[0] == '9';
  }

  lemma LastYears()
    ensures var v := DayNumber(10000, 1, 1) * DAY;
            DateOf(v / DAY).year == 10000 && DateOf((v - 1) / DAY).year == 9999
  {
    hide DateOf, DayNumber, YearOf, YearStart, DaysIn, Leap;
    FirstDayOfYearTenThousand();
  }

  lemma FirstDayOfYearTenThousand()
    ensures DayNumber(10000, 1, 1) == 3652059 && YearOf(3652059) == 10000 && YearOf(3652058) == 9999
  {
  }

  lemma PaddedYears()
    ensures |PadNat(10000, 4)| > 0 && PadNat(10000, 4)[0] == '1'
    ensures |PadNat(9999, 4)| > 0 && PadNat(9999, 4)[0] == '9'
  {
    assert PadNat(10, 1) == PadNat(1, 0) + [Digit(0)] == ['1', '0'];
    assert PadNat(1000, 3) == PadNat(100, 2) + [Digit(0)] == PadNat(10, 1) + [Digit(0)] + [Digit(0)];
    assert PadNat(99, 2) == PadNat(9, 1) + [Digit(9)];
    assert PadNat(9999, 4) == PadNat(999, 3) + [Digit(9)] == PadNat(99, 2) + [Digit(9)] + [Digit(9)];
  }
}
