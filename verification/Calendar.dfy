/**
 * The build timestamp of `build.rs`: seconds since the Unix epoch printed as RFC 3339 UTC.
 *
 * The source converts a day number to a civil date with nested constant divisions. The partner
 * is a calendar that knows only the Gregorian leap rule and steps one day at a time from
 * 1970-01-01.
 */
module BuildTimestamp {
  datatype Date = Date(year: int, month: int, day: int)

  const U64_LIMIT := 0x1_0000_0000_0000_0000
  const TWO_49 := 0x2_0000_0000_0000
  const SECONDS_PER_DAY := 86_400
  // 10000-01-01T00:00:00Z, the first instant whose year needs five digits.
  const YEAR_10000 := 253_402_300_800
  const DAYS_TO_YEAR_10000 := 2_932_897

  type U64 = n: nat | n < U64_LIMIT

  // ---------------------------------------------------------------------------------------
  // The calendar: RFC 3339 section 5.7 and appendix C.
  // ---------------------------------------------------------------------------------------

  predicate IsLeap(year: int) {
    year % 4 == 0 && (year % 100 != 0 || year % 400 == 0)
  }

  function DaysInMonth(year: int, month: int): int {
    if month == 2 then if IsLeap(year) then 29 else 28
    else if month in {4, 6, 9, 11} then 30
    else 31
  }

  predicate ValidDate(d: Date) {
    1 <= d.month <= 12 && 1 <= d.day <= DaysInMonth(d.year, d.month)
  }

  function NextDay(d: Date): Date {
    if d.day < DaysInMonth(d.year, d.month) then d.(day := d.day + 1)
    else if d.month < 12 then Date(d.year, d.month + 1, 1)
    else Date(d.year + 1, 1, 1)
  }

  /** The date `n` days after 1970-01-01, reached one day at a time. */
  function CalendarDay(n: nat): (d: Date)
    ensures ValidDate(d) && d.year >= 1970
  {
    if n == 0 then Date(1970, 1, 1) else NextDay(CalendarDay(n - 1))
  }

  // ---------------------------------------------------------------------------------------
  // The conversion the source performs (in 64 bits; `NoOverflow` shows that they suffice).
  // ---------------------------------------------------------------------------------------

  function YearOfEra(doe: int): int {
    (doe - doe / 1_460 + doe / 36_524 - doe / 146_096) / 365
  }

  /** Days from the start of the 400-year era to the start of its March-based year `yoe`. */
  function YearStart(yoe: int): int {
    365 * yoe + yoe / 4 - yoe / 100
  }

  /** The date at day `doy` of the March-based year `y`. */
  function FromMarch(y: int, doy: int): Date {
    var mp := (5 * doy + 2) / 153;
    var d := doy - (153 * mp + 2) / 5 + 1;
    var m := if mp < 10 then mp + 3 else mp - 9;
    Date(if m <= 2 then y + 1 else y, m, d)
  }

  function CivilFromDays(days: int): Date {
    var z := days + 719_468;
    var era := z / 146_097;
    var doe := z % 146_097;
    var yoe := YearOfEra(doe);
    FromMarch(yoe + era * 400, doe - YearStart(yoe))
  }

  // ---------------------------------------------------------------------------------------
  // CivilFromDays is the calendar.
  // ---------------------------------------------------------------------------------------

  function YearLength(yoe: int): int {
    365 + if IsLeap(yoe + 1) then 1 else 0
  }

  predicate InYear(doe: int, yoe: int) {
    0 <= yoe < 400 && 0 <= doe - YearStart(yoe) < YearLength(yoe)
  }

  /**
   * Day `r` of century `c`, written against the source's divisor 1460: the quotient `k` counts
   * four-year blocks and `e` the years past the last one (-1 when the block's leap day is short).
   */
  ghost predicate Split(c: int, r: int, k: int, t: int, e: int) {
    && 0 <= c < 4 && 0 <= r < 36_524
    && 24 * c + r == 1_460 * k + t && 0 <= t < 1_460
    && 365 * e <= t - 24 * c - k < 365 * e + 365
  }

  lemma SplitRange(c: int, r: int, k: int, t: int, e: int)
    requires Split(c, r, k, t, e)
    ensures 0 <= k <= 25 && -1 <= e <= 3 && 0 <= 4 * k + e < 100
    ensures k == 25 ==> e == -1
    ensures k == 0 ==> e >= 0
  {
  }

  lemma SplitYear(c: int, r: int, k: int, t: int, e: int)
    requires Split(c, r, k, t, e)
    ensures YearOfEra(36_524 * c + r) == 100 * c + 4 * k + e
  {
    SplitRange(c, r, k, t, e);
    var doe := 36_524 * c + r;
    assert doe == 1_460 * (25 * c + k) + t;
    assert doe / 1_460 == 25 * c + k;
    assert doe / 36_524 == c;
    assert doe / 146_096 == 0;
    assert doe - doe / 1_460 + doe / 36_524 == 365 * (100 * c + 4 * k + e) + (t - 24 * c - k - 365 * e);
  }

  lemma SplitStart(c: int, k: int, e: int)
    requires 0 <= c < 4 && -1 <= e <= 3 && 0 <= 4 * k + e < 100
    ensures YearStart(100 * c + 4 * k + e) == 36_524 * c + 1_460 * k + 365 * e + if e < 0 then k - 1 else k
  {
    var y := 100 * c + 4 * k + e;
    assert y / 100 == c;
    assert y / 4 == 25 * c + if e < 0 then k - 1 else k;
  }

  lemma SplitLeap(c: int, k: int, e: int)
    requires 0 <= c < 4 && -1 <= e <= 3 && 0 <= 4 * k + e < 100
    ensures IsLeap(100 * c + 4 * k + e + 1) <==>
      (e == -1 && k < 25) || (e == 3 && k < 24) || (c == 3 && 4 * k + e == 99)
  {
    var n := 4 * k + e + 1;
    var y := n + 100 * c;
    Hundreds(n, c);
    Fours(e + 1, k + 25 * c);
    assert y == e + 1 + 4 * (k + 25 * c);
    YearsOfEra(y, n, e + 1);
  }

  lemma YearsOfEra(y: int, n: int, e: int)
    requires 1 <= y <= 400 && 1 <= n <= 100 && 0 <= e <= 4 && y % 100 == n % 100 && y % 4 == e % 4
    ensures IsLeap(y) <==> (e == 0 || e == 4) && (n != 100 || y == 400)
  {
  }

  lemma SplitDay(doe: int) returns (c: int, r: int, k: int, t: int, e: int)
    requires 0 <= doe < 146_096
    ensures Split(c, r, k, t, e) && doe == 36_524 * c + r
  {
    c, r := doe / 36_524, doe % 36_524;
    k, t := (24 * c + r) / 1_460, (24 * c + r) % 1_460;
    e := (t - 24 * c - k) / 365;
  }

  lemma YearOfEraIsTheYear(doe: int)
    requires 0 <= doe < 146_097
    ensures InYear(doe, YearOfEra(doe))
  {
    if doe == 146_096 {
      assert YearOfEra(doe) == 399;
    } else {
      hide YearOfEra, YearStart, IsLeap;
      var c, r, k, t, e := SplitDay(doe);
      SplitRange(c, r, k, t, e);
      SplitYear(c, r, k, t, e);
      SplitStart(c, k, e);
      SplitLeap(c, k, e);
    }
  }

  lemma YearIsUnique(doe: int, a: int, b: int)
    requires InYear(doe, a) && InYear(doe, b)
    ensures a == b
  {
    hide YearStart, YearLength;
    if a < b { YearsFollow(a, b); }
    if b < a { YearsFollow(b, a); }
  }

  lemma {:induction false} YearsFollow(a: int, b: int)
    requires 0 <= a < b < 400
    ensures YearStart(a) + YearLength(a) <= YearStart(b)
    decreases b
  {
    hide IsLeap;
    YearFollows(b - 1);
    if a < b - 1 { YearsFollow(a, b - 1); }
  }

  lemma YearFollows(y: int)
    requires 0 <= y < 399
    ensures YearStart(y + 1) == YearStart(y) + YearLength(y)
  {
    assert (y + 1) / 100 == y / 100 + if (y + 1) % 100 == 0 then 1 else 0;
    assert (y + 1) / 4 == y / 4 + if (y + 1) % 4 == 0 then 1 else 0;
  }

  /** The day of the March-based year on which its month `mp` starts. */
  function MonthStart(mp: int): int {
    (153 * mp + 2) / 5
  }

  lemma MonthLengths(mp: int)
    requires 0 <= mp < 12
    ensures MonthStart(mp + 1) - MonthStart(mp) == if mp in {1, 3, 6, 8, 11} then 30 else 31
    ensures MonthStart(0) == 0 && MonthStart(11) == 337 && MonthStart(12) == 367
  {
  }

  lemma MonthOfDay(doy: int)
    requires 0 <= doy <= 365
    ensures var mp := (5 * doy + 2) / 153; 0 <= mp < 12 && MonthStart(mp) <= doy < MonthStart(mp + 1)
  {
  }

  lemma OneMonthOfDay(doy: int, mp: int)
    requires 0 <= mp < 12 && MonthStart(mp) <= doy < MonthStart(mp + 1)
    ensures (5 * doy + 2) / 153 == mp
  {
  }

  lemma FromMarchSteps(y: int, doy: int)
    requires 0 <= doy < YearLength(y)
    ensures NextDay(FromMarch(y, doy)) == if doy + 1 < YearLength(y) then FromMarch(y, doy + 1) else FromMarch(y + 1, 0)
  {
    hide IsLeap;
    var mp := (5 * doy + 2) / 153;
    MonthOfDay(doy);
    MonthLengths(mp);
    OneMonthOfDay(0, 0);
    if doy + 1 < MonthStart(mp + 1) { OneMonthOfDay(doy + 1, mp); }
    else if mp < 11 {
      MonthLengths(mp + 1);
      OneMonthOfDay(doy + 1, mp + 1);
    }
    hide MonthStart;
  }

  /** Where the day after day `doe` of an era lies. */
  lemma NextDayOfEra(doe: int)
    requires 0 <= doe < 146_096
    ensures var yoe, yoe' := YearOfEra(doe), YearOfEra(doe + 1);
            var doy := doe - YearStart(yoe);
            if doy + 1 < YearLength(yoe) then yoe' == yoe else yoe' == yoe + 1 && doe + 1 == YearStart(yoe')
  {
    hide YearOfEra;
    var yoe := YearOfEra(doe);
    YearOfEraIsTheYear(doe);
    YearOfEraIsTheYear(doe + 1);
    if doe + 1 - YearStart(yoe) < YearLength(yoe) {
      YearIsUnique(doe + 1, YearOfEra(doe + 1), yoe);
    } else {
      NextYearStart(doe, yoe);
      YearIsUnique(doe + 1, YearOfEra(doe + 1), yoe + 1);
    }
  }

  lemma LastDayOfEra()
    ensures YearOfEra(146_096) == 399 && 146_096 - YearStart(399) + 1 == YearLength(399)
    ensures YearOfEra(0) == 0 && YearStart(0) == 0
  {
  }

  lemma LeapRepeats(yoe: int, era: int)
    ensures IsLeap(yoe + era * 400 + 1) == IsLeap(yoe + 1)
  {
    Fours(yoe + 1, 100 * era);
    Hundreds(yoe + 1, 4 * era);
    FourHundreds(yoe + 1, era);
  }

  lemma Fours(x: int, k: int)
    ensures (x + 4 * k) % 4 == x % 4
  {
    assert x + 4 * k == 4 * (x / 4 + k) + x % 4;
  }

  lemma Hundreds(x: int, k: int)
    ensures (x + 100 * k) % 100 == x % 100
  {
    assert x + 100 * k == 100 * (x / 100 + k) + x % 100;
  }

  lemma FourHundreds(x: int, k: int)
    ensures (x + 400 * k) % 400 == x % 400
  {
    assert x + 400 * k == 400 * (x / 400 + k) + x % 400;
  }

  lemma CivilSteps(n: nat)
    ensures CivilFromDays(n + 1) == NextDay(CivilFromDays(n))
  {
    hide YearOfEra, YearStart, FromMarch, IsLeap, NextDay;
    var z := n + 719_468;
    var era, doe := z / 146_097, z % 146_097;
    var yoe := YearOfEra(doe);
    assert 0 <= doe - YearStart(yoe) < YearLength(yoe) by { YearOfEraIsTheYear(doe); }
    LeapRepeats(yoe, era);
    FromMarchSteps(yoe + era * 400, doe - YearStart(yoe));
    if doe == 146_096 {
      assert (z + 1) / 146_097 == era + 1 && (z + 1) % 146_097 == 0;
      LastDayOfEra();
    } else {
      assert (z + 1) / 146_097 == era && (z + 1) % 146_097 == doe + 1;
      NextDayOfEra(doe);
    }
  }

  lemma NextYearStart(doe: int, yoe: int)
    requires InYear(doe, yoe) && doe < 146_096
    requires doe + 1 - YearStart(yoe) == YearLength(yoe)
    ensures InYear(doe + 1, yoe + 1) && doe + 1 == YearStart(yoe + 1)
  {
    assert YearStart(yoe + 1) == YearStart(yoe) + 365 + if (yoe + 1) % 4 == 0 && (yoe + 1) % 100 != 0 then 1 else 0 by {
      assert (yoe + 1) / 4 == yoe / 4 + if (yoe + 1) % 4 == 0 then 1 else 0;
      assert (yoe + 1) / 100 == yoe / 100 + if (yoe + 1) % 100 == 0 then 1 else 0;
    }
    assert YearStart(399) == 145_731;
  }

  lemma EpochIsCivil()
    ensures CivilFromDays(0) == Date(1970, 1, 1)
  {
    EpochDay();
    hide YearOfEra, YearStart, FromMarch;
  }

  lemma EpochDay()
    ensures 719_468 / 146_097 == 4 && 719_468 % 146_097 == 135_080
    ensures YearOfEra(135_080) == 369 && YearStart(369) == 134_774 && FromMarch(1969, 306) == Date(1970, 1, 1)
  {
    assert 135_080 / 1_460 == 92 && 135_080 / 36_524 == 3 && 135_080 / 146_096 == 0;
  }

  /** For every day number the nested divisions give the date the day-by-day calendar reaches. */
  lemma {:induction false} CivilIsCalendar(n: nat)
    ensures CivilFromDays(n) == CalendarDay(n)
  {
    hide CivilFromDays;
    if n == 0 {
      assert CivilFromDays(0) == Date(1970, 1, 1) by { EpochIsCivil(); }
    } else {
      CivilIsCalendar(n - 1);
      CivilSteps(n - 1);
    }
  }

  // ---------------------------------------------------------------------------------------
  // Order: later days are later dates, so the day count is recovered from the date.
  // ---------------------------------------------------------------------------------------

  predicate DateLess(a: Date, b: Date) {
    || a.year < b.year
    || (a.year == b.year && a.month < b.month)
    || (a.year == b.year && a.month == b.month && a.day < b.day)
  }

  lemma {:induction false} CalendarIncreases(i: nat, j: nat)
    requires i < j
    ensures DateLess(CalendarDay(i), CalendarDay(j))
  {
    if i + 1 < j { CalendarIncreases(i, j - 1); }
  }

  /** Days from 1970-01-01 to the first of `month` in `year`, counted month by month. */
  function DaysBefore(year: int, month: int): int
    requires year >= 1970 && 1 <= month <= 12
    decreases year, month
  {
    if month > 1 then DaysBefore(year, month - 1) + DaysInMonth(year, month - 1)
    else if year > 1970 then DaysBefore(year - 1, 12) + 31
    else 0
  }

  /** The day count is recovered exactly from the printed date. */
  lemma {:induction false} DayCountRecovered(n: nat)
    ensures var d := CivilFromDays(n);
            d.year >= 1970 && ValidDate(d) && DaysBefore(d.year, d.month) + d.day - 1 == n
  {
    hide CivilFromDays, NextDay, DaysBefore, ValidDate;
    CivilIsCalendar(n);
    if n == 0 {
      NoDaysBefore();
    } else {
      DayCountRecovered(n - 1);
      CivilIsCalendar(n - 1);
      NextDayCounts(CalendarDay(n - 1));
    }
  }

  lemma NoDaysBefore()
    ensures DaysBefore(1970, 1) == 0 && ValidDate(Date(1970, 1, 1))
  {
  }

  lemma NextDayCounts(d: Date)
    requires d.year >= 1970 && ValidDate(d)
    ensures var e := NextDay(d);
            && e.year >= 1970 && ValidDate(e)
            && DaysBefore(e.year, e.month) + e.day == DaysBefore(d.year, d.month) + d.day + 1
  {
    hide IsLeap;
  }

  // ---------------------------------------------------------------------------------------
  // Printing.
  // ---------------------------------------------------------------------------------------

  function Digit(n: int): char
    requires 0 <= n < 10
  {
    "0123456789"[n]
  }

  function Decimal(n: nat): string {
    if n < 10 then [Digit(n)] else Decimal(n / 10) + [Digit(n % 10)]
  }

  /** Rust's `{:0width}`: zero-padded on the left to at least `width` characters. */
  function Padded(n: nat, width: nat): string {
    ZeroFill(Decimal(n), width)
  }

  function ZeroFill(s: string, width: nat): string
    decreases width - |s|
  {
    if |s| < width then ZeroFill("0" + s, width) else s
  }

  lemma DayOfMonth(doy: int)
    requires 0 <= doy <= 365
    ensures var mp := (5 * doy + 2) / 153; 0 <= mp < 12 && 1 <= doy - (153 * mp + 2) / 5 + 1 <= 31
  {
    MonthOfDay(doy);
    MonthLengths((5 * doy + 2) / 153);
  }

  /** Every value computed on the way from the seconds to the date is below 2^49 and none is negative. */
  lemma NoOverflow(secs: U64)
    ensures var z := secs / SECONDS_PER_DAY + 719_468;
            var era, doe := z / 146_097, z % 146_097;
            var yoe := YearOfEra(doe);
            var y, doy := yoe + era * 400, doe - YearStart(yoe);
            var mp := (5 * doy + 2) / 153;
            && z < TWO_49 && 0 <= y && y + 1 < TWO_49
            && 0 <= doe - doe / 1_460 + doe / 36_524 - doe / 146_096 < TWO_49 && 0 <= 365 * yoe + yoe / 4 < TWO_49
            && 0 <= doy <= 365 && 5 * doy + 2 < TWO_49
            && 0 <= mp < 12 && 153 * mp + 2 < TWO_49
            && 1 <= doy - (153 * mp + 2) / 5 + 1 <= 31 && 1 <= (if mp < 10 then mp + 3 else mp - 9) <= 12
  {
    hide YearOfEra, MonthStart;
    var z := secs / SECONDS_PER_DAY + 719_468;
    var doe := z % 146_097;
    YearOfEraIsTheYear(doe);
    assert z / 146_097 * 146_097 <= z;
    DayOfMonth(doe - YearStart(YearOfEra(doe)));
  }

  function Rfc3339Utc(secs: U64): string {
    var date := CivilFromDays(secs / SECONDS_PER_DAY);
    var time := secs % SECONDS_PER_DAY;
    DayCountRecovered(secs / SECONDS_PER_DAY);
    Padded(date.year, 4) + "-" + Padded(date.month, 2) + "-" + Padded(date.day, 2) + "T"
    + Padded(time / 3_600, 2) + ":" + Padded(time / 60 % 60, 2) + ":" + Padded(time % 60, 2) + "Z"
  }

  // ---------------------------------------------------------------------------------------
  // Lexicographic order of the printed form.
  // ---------------------------------------------------------------------------------------

  predicate LexLess(a: string, b: string) {
    b != [] && (a == [] || a[0] < b[0] || (a[0] == b[0] && LexLess(a[1..], b[1..])))
  }

  /** What an ordered fixed-width field contributes to the order of the strings it starts. */
  lemma {:induction false} LexField(a: string, b: string, x: string, y: string)
    requires |a| == |b|
    ensures LexLess(a, b) ==> LexLess(a + x, b + y)
    ensures a == b ==> LexLess(a + x, b + y) == LexLess(x, y)
  {
    if a != [] {
      LexField(a[1..], b[1..], x, y);
      assert (a + x)[1..] == a[1..] + x;
      assert (b + y)[1..] == b[1..] + y;
    } else {
      assert a + x == x && b + y == y;
    }
  }

  lemma Padded2(n: nat)
    requires n < 100
    ensures Padded(n, 2) == [Digit(n / 10), Digit(n % 10)]
  {
    if n < 10 {
      assert ZeroFill([Digit(n)], 2) == ZeroFill("0" + [Digit(n)], 2) == ['0', Digit(n)];
    } else {
      assert Decimal(n / 10) == [Digit(n / 10)];
    }
  }

  /** Four digits are the two-digit forms of the hundreds and of the rest. */
  lemma Padded4(n: nat)
    requires n < 10_000
    ensures Padded(n, 4) == Padded(n / 100, 2) + Padded(n % 100, 2)
    ensures |Padded(n, 4)| == 4
  {
    assert Digit(0) == '0';
    hide Digit;
    Padded2(n / 100);
    Padded2(n % 100);
    if n < 100 {
      var s := Padded(n, 2);
      assert ZeroFill(s, 4) == ZeroFill("0" + s, 4) == ZeroFill("0" + ("0" + s), 4) == ['0', '0'] + s;
      FillInSteps(Decimal(n));
    } else {
      DecimalSplits(n);
      if n < 1_000 {
        var s := Decimal(n / 100) + Padded(n % 100, 2);
        assert ZeroFill(s, 4) == ZeroFill("0" + s, 4) == "0" + s;
      }
    }
  }

  lemma FillInSteps(s: string)
    requires 1 <= |s| <= 2
    ensures ZeroFill(s, 4) == ZeroFill(ZeroFill(s, 2), 4)
  {
    if |s| == 1 {
      assert ZeroFill(s, 2) == ZeroFill("0" + s, 2) == "0" + s;
      assert ZeroFill(s, 4) == ZeroFill("0" + s, 4);
    }
  }

  lemma DecimalSplits(n: nat)
    requires 100 <= n
    ensures Decimal(n) == Decimal(n / 100) + Padded(n % 100, 2)
  {
    assert n / 10 / 10 == n / 100;
    assert n / 10 % 10 == n % 100 / 10 && n % 10 == n % 100 % 10;
    Padded2(n % 100);
    assert Decimal(n) == Decimal(n / 100) + [Digit(n / 10 % 10)] + [Digit(n % 10)];
  }

  lemma Padded2Order(a: nat, b: nat)
    requires a < b < 100
    ensures LexLess(Padded(a, 2), Padded(b, 2))
  {
    hide Padded, LexLess, Digit;
    Padded2(a);
    Padded2(b);
    Tens(a, b);
    DigitOrder();
    TwoCharacters(Digit(a / 10), Digit(a % 10), Digit(b / 10), Digit(b % 10));
  }

  lemma Tens(a: nat, b: nat)
    requires a < b < 100
    ensures a / 10 < b / 10 || (a / 10 == b / 10 && a % 10 < b % 10)
  {
  }

  lemma DigitOrder()
    ensures forall m, n :: 0 <= m < n < 10 ==> Digit(m) < Digit(n)
  {
    assert "0123456789" == ['0', '1', '2', '3', '4', '5', '6', '7', '8', '9'];
  }

  lemma TwoCharacters(a: char, b: char, c: char, d: char)
    ensures a < c || (a == c && b < d) ==> LexLess([a, b], [c, d])
  {
    assert [a, b][1..] == [b] && [c, d][1..] == [d];
  }

  lemma Padded4Order(a: nat, b: nat)
    requires a < b < 10_000
    ensures LexLess(Padded(a, 4), Padded(b, 4))
  {
    hide Padded, LexLess;
    Padded4(a);
    Padded4(b);
    assert |Padded(a / 100, 2)| == |Padded(b / 100, 2)| == 2 by { Padded2(a / 100); Padded2(b / 100); }
    LexField(Padded(a / 100, 2), Padded(b / 100, 2), Padded(a % 100, 2), Padded(b % 100, 2));
    if a / 100 < b / 100 { Padded2Order(a / 100, b / 100); } else { Padded2Order(a % 100, b % 100); }
  }

  lemma NewYear10000()
    ensures FromMarch(9_999, 306) == Date(10_000, 1, 1) && FromMarch(9_999, 305) == Date(9_999, 12, 31)
    ensures InYear(146_037, 399) && InYear(146_036, 399) && YearStart(399) == 145_731
  {
  }

  lemma Year10000IsCivil()
    ensures CivilFromDays(DAYS_TO_YEAR_10000) == Date(10_000, 1, 1)
    ensures CivilFromDays(DAYS_TO_YEAR_10000 - 1) == Date(9_999, 12, 31)
  {
    hide YearOfEra, FromMarch, InYear;
    NewYear10000();
    YearOfEraIsTheYear(146_037);
    YearOfEraIsTheYear(146_036);
    YearIsUnique(146_037, YearOfEra(146_037), 399);
    YearIsUnique(146_036, YearOfEra(146_036), 399);
    assert DAYS_TO_YEAR_10000 + 719_468 == 24 * 146_097 + 146_037;
  }

  /** The year stays below 10000 exactly for the seconds before YEAR_10000. */
  lemma YearBound(secs: U64)
    ensures CivilFromDays(secs / SECONDS_PER_DAY).year < 10_000 <==> secs < YEAR_10000
  {
    hide CivilFromDays;
    var days := secs / SECONDS_PER_DAY;
    CivilIsCalendar(days);
    CivilIsCalendar(DAYS_TO_YEAR_10000);
    Year10000IsCivil();
    assert CalendarDay(days).month >= 1 && CalendarDay(days).day >= 1;
    if days < DAYS_TO_YEAR_10000 { CalendarIncreases(days, DAYS_TO_YEAR_10000); }
    if days > DAYS_TO_YEAR_10000 { CalendarIncreases(DAYS_TO_YEAR_10000, days); }
  }

  // ---------------------------------------------------------------------------------------
  // The printed form sorts like time, exactly below the year 10000.
  // ---------------------------------------------------------------------------------------

  function ClockString(time: nat): string {
    ClockFields(time / 3_600, time / 60 % 60, time % 60)
  }

  function DateString(d: Date): string
    requires ValidDate(d) && d.year >= 0
  {
    Padded(d.year, 4) + "-" + Padded(d.month, 2) + "-" + Padded(d.day, 2) + "T"
  }

  lemma DateStringOrder(a: Date, b: Date)
    requires ValidDate(a) && ValidDate(b) && 0 <= a.year < 10_000 && 0 <= b.year < 10_000
    ensures |DateString(a)| == |DateString(b)| == 11
    ensures DateLess(a, b) ==> LexLess(DateString(a), DateString(b))
  {
    hide Padded, LexLess;
    Padded4(a.year); Padded4(b.year);
    Padded2(a.month); Padded2(b.month); Padded2(a.day); Padded2(b.day);
    var restA, restB := Padded(a.day, 2) + "T", Padded(b.day, 2) + "T";
    var tailA, tailB := Padded(a.month, 2) + ("-" + restA), Padded(b.month, 2) + ("-" + restB);
    assert DateString(a) == Padded(a.year, 4) + ("-" + tailA);
    assert DateString(b) == Padded(b.year, 4) + ("-" + tailB);
    if DateLess(a, b) {
      LexField(Padded(a.year, 4), Padded(b.year, 4), "-" + tailA, "-" + tailB);
      LexField("-", "-", tailA, tailB);
      LexField(Padded(a.month, 2), Padded(b.month, 2), "-" + restA, "-" + restB);
      LexField("-", "-", restA, restB);
      LexField(Padded(a.day, 2), Padded(b.day, 2), "T", "T");
      if a.year < b.year { Padded4Order(a.year, b.year); }
      else if a.month < b.month { Padded2Order(a.month, b.month); }
      else { Padded2Order(a.day, b.day); }
    }
  }

  lemma ClockStringOrder(a: nat, b: nat)
    requires a < SECONDS_PER_DAY && b < SECONDS_PER_DAY
    ensures |ClockString(a)| == |ClockString(b)| == 9
    ensures a < b ==> LexLess(ClockString(a), ClockString(b))
  {
    if a < b { ClockOrder(a, b); }
    assert a / 3_600 <= 23 && b / 3_600 <= 23;
    ClockFieldsOrder(a / 3_600, a / 60 % 60, a % 60, b / 3_600, b / 60 % 60, b % 60);
  }

  function ClockFields(h: nat, m: nat, s: nat): string {
    Padded(h, 2) + ":" + Padded(m, 2) + ":" + Padded(s, 2) + "Z"
  }

  lemma ClockFieldsOrder(ha: nat, ma: nat, sa: nat, hb: nat, mb: nat, sb: nat)
    requires ha < 24 && hb < 24 && ma < 60 && mb < 60 && sa < 60 && sb < 60
    ensures |ClockFields(ha, ma, sa)| == |ClockFields(hb, mb, sb)| == 9
    ensures ha < hb || (ha == hb && (ma < mb || (ma == mb && sa < sb))) ==>
      LexLess(ClockFields(ha, ma, sa), ClockFields(hb, mb, sb))
  {
    hide Padded, LexLess;
    Padded2(ha); Padded2(hb); Padded2(ma); Padded2(mb); Padded2(sa); Padded2(sb);
    var restA, restB := Padded(sa, 2) + "Z", Padded(sb, 2) + "Z";
    var tailA, tailB := Padded(ma, 2) + (":" + restA), Padded(mb, 2) + (":" + restB);
    assert ClockFields(ha, ma, sa) == Padded(ha, 2) + (":" + tailA);
    assert ClockFields(hb, mb, sb) == Padded(hb, 2) + (":" + tailB);
    if ha < hb || (ha == hb && (ma < mb || (ma == mb && sa < sb))) {
      LexField(Padded(ha, 2), Padded(hb, 2), ":" + tailA, ":" + tailB);
      LexField(":", ":", tailA, tailB);
      LexField(Padded(ma, 2), Padded(mb, 2), ":" + restA, ":" + restB);
      LexField(":", ":", restA, restB);
      LexField(Padded(sa, 2), Padded(sb, 2), "Z", "Z");
      if ha < hb { Padded2Order(ha, hb); }
      else if ma < mb { Padded2Order(ma, mb); }
      else { Padded2Order(sa, sb); }
    }
  }

  lemma ClockOrder(a: nat, b: nat)
    requires a < b < SECONDS_PER_DAY
    ensures || a / 3_600 < b / 3_600
            || (a / 3_600 == b / 3_600 && a / 60 % 60 < b / 60 % 60)
            || (a / 3_600 == b / 3_600 && a / 60 % 60 == b / 60 % 60 && a % 60 < b % 60)
  {
    assert a / 60 / 60 == a / 3_600 && b / 60 / 60 == b / 3_600;
  }

  /** The stamp prints the date the calendar reaches and the time left over in that day. */
  lemma StampPrintsCalendarDay(secs: U64)
    ensures Rfc3339Utc(secs) == DateString(CalendarDay(secs / SECONDS_PER_DAY)) + ClockString(secs % SECONDS_PER_DAY)
  {
    hide CivilFromDays, Padded;
    CivilIsCalendar(secs / SECONDS_PER_DAY);
    var date := CivilFromDays(secs / SECONDS_PER_DAY);
    assert DateString(date) + ClockString(secs % SECONDS_PER_DAY) == Rfc3339Utc(secs);
  }

  /** Below the year 10000 the strings have 20 characters and increase with the seconds. */
  lemma StringsIncrease(t: U64, s: U64)
    requires t < s < YEAR_10000
    ensures |Rfc3339Utc(t)| == |Rfc3339Utc(s)| == 20
    ensures LexLess(Rfc3339Utc(t), Rfc3339Utc(s))
  {
    hide CivilFromDays, Padded, LexLess, Rfc3339Utc, DateString, ClockString;
    var dayT, dayS := t / SECONDS_PER_DAY, s / SECONDS_PER_DAY;
    StampPrintsCalendarDay(t);
    StampPrintsCalendarDay(s);
    YearBound(t);
    YearBound(s);
    CivilIsCalendar(dayT);
    CivilIsCalendar(dayS);
    var dateT, dateS := CalendarDay(dayT), CalendarDay(dayS);
    DateStringOrder(dateT, dateS);
    ClockStringOrder(t % SECONDS_PER_DAY, s % SECONDS_PER_DAY);
    LexField(DateString(dateT), DateString(dateS), ClockString(t % SECONDS_PER_DAY), ClockString(s % SECONDS_PER_DAY));
    if dayT < dayS { CalendarIncreases(dayT, dayS); }
  }

  /** The stamps up to `last` sort like time exactly when `last` lies before the year 10000. */
  lemma SortsLikeTimeIff(last: U64)
    ensures (forall t: U64, s: U64 :: t < s <= last ==> LexLess(Rfc3339Utc(t), Rfc3339Utc(s))) <==> last < YEAR_10000
  {
    hide CivilFromDays, LexLess, Rfc3339Utc;
    if last < YEAR_10000 {
      forall t: U64, s: U64 | t < s <= last ensures LexLess(Rfc3339Utc(t), Rfc3339Utc(s)) { StringsIncrease(t, s); }
    } else {
      FirstInversion();
    }
  }

  lemma FirstInversion()
    ensures !LexLess(Rfc3339Utc(YEAR_10000 - 1), Rfc3339Utc(YEAR_10000))
  {
    hide CivilFromDays, Padded, CalendarDay, Decimal, ZeroFill, IsLeap;
    Year10000IsCivil();
    CivilIsCalendar(DAYS_TO_YEAR_10000);
    CivilIsCalendar(DAYS_TO_YEAR_10000 - 1);
    StampPrintsCalendarDay(YEAR_10000 - 1);
    StampPrintsCalendarDay(YEAR_10000);
    Padded4(9_999);
    Padded2(99);
    Padded10000();
    assert Rfc3339Utc(YEAR_10000)[0] == '1';
    assert Rfc3339Utc(YEAR_10000 - 1)[0] == '9';
  }

  lemma Padded10000()
    ensures Padded(10_000, 4) == "10000"
  {
    assert Decimal(10) == "10";
    assert Decimal(100) == "100";
    assert Decimal(1_000) == "1000";
  }
}
