/** What a reader of a build stamp gets back: the fields of `build.rs`'s string, read as decimal numbers. */
module StampLaws {
  import opened BuildTimestamp

  predicate AllDigits(s: string) { forall i :: 0 <= i < |s| ==> '0' <= s[i] <= '9' }

  /** The number a string of decimal digits writes. */
  function Read(s: string): int {
    if s == "" then 0 else 10 * Read(s[..|s| - 1]) + (s[|s| - 1] as int - '0' as int)
  }

  lemma DigitReads(n: int)
    requires 0 <= n < 10
    ensures Digit(n) as int == '0' as int + n
  {
  }

  lemma {:induction false} DecimalReads(n: nat)
    ensures var s := Decimal(n); s != "" && AllDigits(s) && Read(s) == n && (n > 0 ==> s[0] != '0')
  {
    hide Digit;
    DigitReads(n % 10);
    if n < 10 {
      assert Decimal(n) == [Digit(n)] && [Digit(n)][..0] == "";
    } else {
      DecimalReads(n / 10);
      assert Decimal(n)[..|Decimal(n)| - 1] == Decimal(n / 10);
    }
  }

  lemma {:induction false} ZeroReads(s: string)
    requires AllDigits(s)
    ensures AllDigits("0" + s) && Read("0" + s) == Read(s)
  {
    if s != "" {
      var init := s[..|s| - 1];
      ZeroReads(init);
      assert ("0" + s)[..|s|] == "0" + init;
    } else {
      assert ("0" + s)[..0] == "";
    }
  }

  lemma {:induction false} FilledReads(s: string, width: nat)
    requires AllDigits(s)
    ensures var f := ZeroFill(s, width);
      && AllDigits(f) && Read(f) == Read(s) && |f| == (if |s| < width then width else |s|)
      && (|s| >= width ==> f == s)
    decreases width - |s|
  {
    if |s| < width {
      ZeroReads(s);
      FilledReads("0" + s, width);
    }
  }

  /** A padded field has the width asked for or more, is all digits and reads as its number; a wider one is unpadded. */
  lemma PaddedReads(n: nat, width: nat)
    ensures var s := Padded(n, width);
      && |s| >= width && AllDigits(s) && Read(s) == n && (n > 0 && |s| > width ==> s[0] != '0')
  {
    hide Decimal, ZeroFill;
    DecimalReads(n);
    FilledReads(Decimal(n), width);
  }

  predicate Field(s: string, width: nat, n: int) {
    |s| == width && AllDigits(s) && Read(s) == n
  }

  lemma TwoDigits(n: nat)
    requires n < 100
    ensures Field(Padded(n, 2), 2, n)
  {
    hide Padded, Digit;
    PaddedReads(n, 2);
    Padded2(n);
  }

  /** The fields of a stamp, as they are printed. */
  datatype Stamp = Stamp(year: string, month: string, day: string, hour: string, minute: string, second: string)

  function Printed(f: Stamp): string {
    f.year + "-" + f.month + "-" + f.day + "T" + f.hour + ":" + f.minute + ":" + f.second + "Z"
  }

  /** Seconds past midnight. */
  function TimeOf(f: Stamp): int { 3_600 * Read(f.hour) + 60 * Read(f.minute) + Read(f.second) }

  /** Two digits to every field but the year, the time of day in range. */
  predicate WellFormed(f: Stamp) {
    && AllDigits(f.year) && Field(f.month, 2, Read(f.month)) && Field(f.day, 2, Read(f.day))
    && Field(f.hour, 2, Read(f.hour)) && Field(f.minute, 2, Read(f.minute)) && Field(f.second, 2, Read(f.second))
    && 0 <= Read(f.hour) < 24 && 0 <= Read(f.minute) < 60 && 0 <= Read(f.second) < 60
  }

  /**
   * Every stamp reads back as its calendar date and its time of day: two digits each, four for a year below 10000
   * and as many as it takes for a later one.
   */
  lemma StampReadsBack(secs: U64) returns (f: Stamp)
    ensures Rfc3339Utc(secs) == Printed(f) && WellFormed(f)
    ensures CalendarDay(secs / 86_400) == Date(Read(f.year), Read(f.month), Read(f.day))
    ensures |f.year| >= 4 && (|f.year| == 4 <==> secs < 253_402_300_800)
    ensures TimeOf(f) == secs % 86_400
  {
    hide Padded, CivilFromDays, CalendarDay, Rfc3339Utc, Read, AllDigits;
    var date, time := CalendarDay(secs / SECONDS_PER_DAY), secs % SECONDS_PER_DAY;
    StampPrintsCalendarDay(secs);
    CivilIsCalendar(secs / SECONDS_PER_DAY);
    YearBound(secs);
    f := Stamp(Padded(date.year, 4), Padded(date.month, 2), Padded(date.day, 2),
               Padded(time / 3_600, 2), Padded(time / 60 % 60, 2), Padded(time % 60, 2));
    PaddedReads(date.year, 4);
    YearWidth(date.year);
    TwoDigits(date.month);
    TwoDigits(date.day);
    TwoDigits(time / 3_600);
    TwoDigits(time / 60 % 60);
    TwoDigits(time % 60);
    assert time / 60 / 60 == time / 3_600;
  }

  lemma YearWidth(year: nat)
    ensures |Padded(year, 4)| == 4 <==> year < 10_000
  {
    hide Padded, Read, AllDigits;
    PaddedReads(year, 4);
    if year < 10_000 { Padded4(year); }
    if |Padded(year, 4)| == 4 { FourDigits(Padded(year, 4)); }
  }

  lemma FourDigits(s: string)
    requires AllDigits(s) && |s| == 4
    ensures Read(s) < 10_000
  {
    LastDigit(s);
    LastDigit(s[..3]);
    LastDigit(s[..3][..2]);
    LastDigit(s[..3][..2][..1]);
    assert s[..3][..2][..1][..0] == "";
  }

  lemma LastDigit(s: string)
    requires AllDigits(s) && s != ""
    ensures AllDigits(s[..|s| - 1]) && 10 * Read(s[..|s| - 1]) <= Read(s) <= 10 * Read(s[..|s| - 1]) + 9
  {
    assert '0' <= s[|s| - 1] <= '9';
  }
}
