/** Time marks (EventManager.cpp:590-657): the strings that fix the beginning
    and end of a flag event, turned into `time_t` instants, and the North
    American daylight-saving rule. Sunrise and sunset are not computed here:
    they come from a `SunModel` handed in by the caller. */
module TimeMarks {
  import opened Wrappers

  /** A calendar date as scanned: no range check is made on the fields. */
  datatype Date = Date(year: int, month: int, day: int)

  /** The solar calculations, left uninterpreted. `sunriseUTC` and `sunsetUTC`
      are `getSunriseUTC`/`getSunsetUTC` for a date, latitude and longitude:
      they always yield an instant. `sunriseOnDay` is the member `getSunrise`
      for the UTC day with the given index (days since 1970-01-01): `None`
      when it reports an error. */
  datatype SunModel = SunModel(
    sunriseUTC: (Date, real, real) -> int,
    sunsetUTC: (Date, real, real) -> int,
    sunriseOnDay: int -> Option<int>)

  const SECONDS_PER_DAY: int := 86400
  const SECONDS_PER_HOUR: int := 3600

  // ---------------------------------------------------------------------------
  // Digit fields

  predicate IsDigit(c: char) { '0' <= c <= '9' }

  predicate AllDigits(s: string) {
    forall i :: 0 <= i < |s| ==> IsDigit(s[i])
  }

  function DigitValue(c: char): int { c as int - '0' as int }

  /** The decimal value of a string of digits, read left to right. */
  function DigitsValue(s: string): (n: nat)
    requires AllDigits(s)
    ensures n < Pow10(|s|)
  {
    if s == [] then 0 else DigitsValue(s[..|s| - 1]) * 10 + DigitValue(s[|s| - 1])
  }

  function Pow10(k: nat): (p: nat)
    ensures p >= 1
  {
    if k == 0 then 1 else 10 * Pow10(k - 1)
  }

  /** The digit character for a value 0..9. */
  function DigitChar(d: int): (c: char)
    requires 0 <= d < 10
    ensures IsDigit(c) && DigitValue(c) == d
  {
    ('0' as int + d) as char
  }

  /** `n` written with exactly `width` digits, leading zeros included. */
  function Padded(n: nat, width: nat): (s: string)
    requires n < Pow10(width)
    ensures |s| == width && AllDigits(s)
    ensures DigitsValue(s) == n
  {
    if width == 0 then []
    else
      var s := Padded(n / 10, width - 1) + [DigitChar(n % 10)];
      assert s[..|s| - 1] == Padded(n / 10, width - 1);
      s
  }

  // ---------------------------------------------------------------------------
  // Scanning (the two sscanf calls, read strictly)

  /** The date at the head of a mark: "YYYY-MM-DD". */
  function ScanDate(mark: string): (r: Option<Date>)
    ensures r.Some? <==> |mark| >= 10 && AllDigits(mark[..4]) && mark[4] == '-'
                         && AllDigits(mark[5..7]) && mark[7] == '-' && AllDigits(mark[8..10])
    ensures r.Some? ==> 0 <= r.value.year < 10000 && 0 <= r.value.month < 100 && 0 <= r.value.day < 100
  {
    if |mark| >= 10 && AllDigits(mark[..4]) && mark[4] == '-'
       && AllDigits(mark[5..7]) && mark[7] == '-' && AllDigits(mark[8..10])
    then Some(Date(DigitsValue(mark[..4]), DigitsValue(mark[5..7]), DigitsValue(mark[8..10])))
    else None
  }

  /** The clock that follows the date at offset 11: "HH:MM". The character
      at offset 10 is not looked at. */
  function ScanClock(mark: string): (r: Option<(int, int)>)
    ensures r.Some? <==> |mark| >= 16 && AllDigits(mark[11..13]) && mark[13] == ':' && AllDigits(mark[14..16])
    ensures r.Some? ==> 0 <= r.value.0 < 100 && 0 <= r.value.1 < 100
  {
    if |mark| >= 16 && AllDigits(mark[11..13]) && mark[13] == ':' && AllDigits(mark[14..16])
    then Some((DigitsValue(mark[11..13]), DigitsValue(mark[14..16])))
    else None
  }

  // ---------------------------------------------------------------------------
  // Calendar (timegm)

  /** Days from 1970-01-01 to the given date of the proleptic Gregorian
      calendar, for a month 1..12 and any day (the day counts on linearly). */
  function DaysFromCivil(y: int, m: int, d: int): int
    requires 1 <= m <= 12
  {
    var doy := (153 * (if m > 2 then m - 3 else m + 9) + 2) / 5 + d - 1;
    MarchBase(if m <= 2 then y - 1 else y) + doy - 719468
  }

  /** Days from 0000-03-01 to March 1 of year `y` (years counted from March,
      so that the leap day ends a year). */
  function MarchBase(y: int): int {
    var era := y / 400;
    var yoe := y % 400;
    era * 146097 + yoe * 365 + yoe / 4 - yoe / 100
  }

  predicate IsLeapYear(y: int) {
    y % 4 == 0 && (y % 100 != 0 || y % 400 == 0)
  }

  function DaysInMonth(y: int, m: int): (n: int)
    requires 1 <= m <= 12
    ensures 28 <= n <= 31
  {
    if m == 2 then (if IsLeapYear(y) then 29 else 28)
    else if m == 4 || m == 6 || m == 9 || m == 11 then 30
    else 31
  }

  /** `timegm`/`mktime` on the scanned fields: the month is normalised into
      the year as the C library does (month 0 is December of the year before,
      month 13 January of the next), the day, hour and minute count on
      linearly, seconds are 0. */
  function TimeGM(y: int, mo: int, d: int, h: int, mi: int): int {
    var yy := y + (mo - 1) / 12;
    var mm := (mo - 1) % 12 + 1;
    (DaysFromCivil(yy, mm, 1) + d - 1) * SECONDS_PER_DAY + h * SECONDS_PER_HOUR + mi * 60
  }

  /** The epoch is 1970-01-01 00:00 UTC. */
  lemma EpochIsZero()
    ensures TimeGM(1970, 1, 1, 0, 0) == 0
  {
    assert MarchBase(1969) == 719162;
    assert DaysFromCivil(1970, 1, 1) == 719162 + 306 - 719468;
  }

  /** Consecutive months of the calendar are as long as the month-length
      table says, leap years included. */
  lemma MonthLength(y: int, m: int)
    requires 1 <= m <= 12
    ensures m < 12 ==> DaysFromCivil(y, m + 1, 1) - DaysFromCivil(y, m, 1) == DaysInMonth(y, m)
    ensures m == 12 ==> DaysFromCivil(y + 1, 1, 1) - DaysFromCivil(y, 12, 1) == 31
  {
    if m == 2 {
      FebruaryLength(y);
    }
  }

  lemma FebruaryLength(y: int)
    ensures DaysFromCivil(y, 3, 1) - DaysFromCivil(y, 2, 1) == DaysInMonth(y, 2)
  {
    YearLength(y - 1);
  }

  /** A March-to-March year is 366 days long when it ends in a leap day. */
  lemma YearLength(y: int)
    ensures MarchBase(y + 1) - MarchBase(y) == if IsLeapYear(y + 1) then 366 else 365
  {
    var q, r := y / 400, y % 400;
    if r == 399 {
      DivMod(y + 1, 400, q + 1, 0);
      DivMod(y + 1, 4, (q + 1) * 100, 0);
    } else {
      DivMod(y + 1, 400, q, r + 1);
      CountStep(r);
      DivMod(y + 1, 4, q * 100 + (r + 1) / 4, (r + 1) % 4);
      DivMod(y + 1, 100, q * 4 + (r + 1) / 100, (r + 1) % 100);
    }
  }

  /** Euclidean division by the calendar's cycle lengths is determined by
      its quotient and remainder. */
  lemma DivMod(n: int, k: int, q: int, r: int)
    requires k == 4 || k == 100 || k == 400
    requires 0 <= r < k && n == q * k + r
    ensures n / k == q && n % k == r
  {
    if k == 4 {
      assert n == q * 4 + r;
    } else if k == 100 {
      assert n == q * 100 + r;
    } else {
      assert n == q * 400 + r;
    }
  }

  /** Stepping a year-of-era by one adds a quadrennial leap day exactly at
      multiples of 4 and drops one exactly at multiples of 100. */
  lemma CountStep(x: int)
    requires 0 <= x < 399
    ensures (x + 1) / 4 - x / 4 == (if (x + 1) % 4 == 0 then 1 else 0)
    ensures (x + 1) / 100 - x / 100 == (if (x + 1) % 100 == 0 then 1 else 0)
  {
  }

  /** A month past December rolls into January of the next year. */
  lemma MonthRollsIntoYear(y: int, d: int, h: int, mi: int)
    ensures TimeGM(y, 13, d, h, mi) == TimeGM(y + 1, 1, d, h, mi)
  {
  }

  /** Within a day, an instant is its day's start plus hours and minutes. */
  lemma ClockWithinDay(y: int, mo: int, d: int, h: int, mi: int)
    ensures TimeGM(y, mo, d, h, mi) == TimeGM(y, mo, d, 0, 0) + h * SECONDS_PER_HOUR + mi * 60
    ensures TimeGM(y, mo, d + 1, 0, 0) == TimeGM(y, mo, d, 0, 0) + SECONDS_PER_DAY
  {
  }

  // ---------------------------------------------------------------------------
  // The parser

  /** The free `parseTimeMark`: the instant a time mark stands for, or 0 when
      the mark is not understood. `hf` is 'H' for a beginning mark and 'F'
      for an end mark; `tz` is the standard offset from UTC in hours and
      `dst` says whether daylight time is in force. */
  function ParseTimeMark(mark: string, hf: char, lat: real, lng: real, tz: int, dst: bool, sun: SunModel): (r: int)
    // a mark without a date never yields an instant
    ensures ScanDate(mark).None? ==> r == 0
    // only the lengths of the six formats are understood
    ensures |mark| !in {10, 13, 16, 17} ==> r == 0
    // format 1: a date alone is sunrise for a beginning mark, sunset otherwise
    ensures |mark| == 10 && ScanDate(mark).Some? ==>
              r == (if hf == 'H' then sun.sunriseUTC(ScanDate(mark).value, lat, lng)
                    else sun.sunsetUTC(ScanDate(mark).value, lat, lng))
    // formats 2 and 3: "SR" or "SS" after the date, any other suffix fails
    ensures |mark| == 13 && ScanDate(mark).Some? ==>
              r == (if mark[11..] == "SR" then sun.sunriseUTC(ScanDate(mark).value, lat, lng)
                    else if mark[11..] == "SS" then sun.sunsetUTC(ScanDate(mark).value, lat, lng)
                    else 0)
    // a clock mark whose clock does not scan fails
    ensures |mark| in {16, 17} && ScanClock(mark).None? ==> r == 0
    // formats 4 and 5: the clock is UTC
    ensures (|mark| == 16 || (|mark| == 17 && mark[16] == 'Z')) && ScanDate(mark).Some? && ScanClock(mark).Some? ==>
              r == ClockInstant(ScanDate(mark).value, ScanClock(mark).value)
    // format 6: the clock is local time; the zone and daylight offsets are taken off
    ensures |mark| == 17 && mark[16] == 'L' && ScanDate(mark).Some? && ScanClock(mark).Some? ==>
              r == ClockInstant(ScanDate(mark).value, ScanClock(mark).value) - LocalOffset(tz, dst)
    // a 17-character mark with another zone letter fails
    ensures |mark| == 17 && mark[16] != 'Z' && mark[16] != 'L' ==> r == 0
  {
    match ScanDate(mark)
    case None => 0
    case Some(date) =>
      if |mark| == 10 then
        if hf == 'H' then sun.sunriseUTC(date, lat, lng) else sun.sunsetUTC(date, lat, lng)
      else if |mark| == 13 then
        var suffix := mark[11..13];
        if suffix == "SR" then sun.sunriseUTC(date, lat, lng)
        else if suffix == "SS" then sun.sunsetUTC(date, lat, lng)
        else 0
      else
        match ScanClock(mark)
        case None => 0
        case Some(clock) =>
          var t := ClockInstant(date, clock);
          if |mark| == 16 then t
          else if |mark| == 17 && mark[16] == 'Z' then t
          else if |mark| == 17 && mark[16] == 'L' then t - LocalOffset(tz, dst)
          else 0
  }

  function ClockInstant(date: Date, clock: (int, int)): int {
    TimeGM(date.year, date.month, date.day, clock.0, clock.1)
  }

  /** Seconds taken off a local clock mark to reach UTC:
      the zone offset, plus one hour under daylight time. */
  function LocalOffset(tz: int, dst: bool): (s: int)
    ensures s == (tz + (if dst then 1 else 0)) * SECONDS_PER_HOUR
  {
    tz * SECONDS_PER_HOUR + (if dst then SECONDS_PER_HOUR else 0)
  }

  // ---------------------------------------------------------------------------
  // The formats, written out, and what the parser makes of them

  /** A clock mark "YYYY-MM-DD HH:MM" followed by `zone` ("", "Z" or "L"). */
  function ClockMark(y: nat, mo: nat, d: nat, h: nat, mi: nat, zone: string): (s: string)
    requires y < 10000 && mo < 100 && d < 100 && h < 100 && mi < 100
    ensures |s| == 16 + |zone|
  {
    Padded(y, 4) + "-" + Padded(mo, 2) + "-" + Padded(d, 2) + " " + Padded(h, 2) + ":" + Padded(mi, 2) + zone
  }

  /** A date mark "YYYY-MM-DD" followed by `suffix` ("" or " SR"/" SS"). */
  function DateMark(y: nat, mo: nat, d: nat, suffix: string): (s: string)
    requires y < 10000 && mo < 100 && d < 100
    ensures |s| == 10 + |suffix|
  {
    Padded(y, 4) + "-" + Padded(mo, 2) + "-" + Padded(d, 2) + suffix
  }

  lemma ScanDateMark(y: nat, mo: nat, d: nat, rest: string)
    requires y < 10000 && mo < 100 && d < 100
    ensures ScanDate(DateMark(y, mo, d, rest)) == Some(Date(y, mo, d))
  {
    var s := DateMark(y, mo, d, rest);
    assert s[..4] == Padded(y, 4);
    assert s[5..7] == Padded(mo, 2);
    assert s[8..10] == Padded(d, 2);
  }

  /** Writing a clock mark and parsing it back gives the instant of its
      fields: as UTC without a zone letter or with 'Z', shifted by the zone
      and daylight offsets with 'L'. */
  lemma {:induction false} ClockMarkRoundTrip(y: nat, mo: nat, d: nat, h: nat, mi: nat, zone: string,
                                              hf: char, lat: real, lng: real, tz: int, dst: bool, sun: SunModel)
    requires y < 10000 && mo < 100 && d < 100 && h < 100 && mi < 100
    requires zone == "" || zone == "Z" || zone == "L"
    ensures ParseTimeMark(ClockMark(y, mo, d, h, mi, zone), hf, lat, lng, tz, dst, sun)
            == TimeGM(y, mo, d, h, mi) - (if zone == "L" then (tz + (if dst then 1 else 0)) * SECONDS_PER_HOUR else 0)
  {
    var s := ClockMark(y, mo, d, h, mi, zone);
    assert s == DateMark(y, mo, d, " " + Padded(h, 2) + ":" + Padded(mi, 2) + zone);
    ScanDateMark(y, mo, d, " " + Padded(h, 2) + ":" + Padded(mi, 2) + zone);
    assert s[11..13] == Padded(h, 2);
    assert s[14..16] == Padded(mi, 2);
    assert ScanClock(s) == Some((h, mi));
    if zone != "" {
      assert s[16] == zone[0];
    }
  }

  /** Writing a date mark with " SR" or " SS", or alone, and parsing it back
      gives the solar instant of that date. */
  lemma {:induction false} DateMarkRoundTrip(y: nat, mo: nat, d: nat, suffix: string,
                                             hf: char, lat: real, lng: real, tz: int, dst: bool, sun: SunModel)
    requires y < 10000 && mo < 100 && d < 100
    requires suffix == "" || suffix == " SR" || suffix == " SS"
    ensures var date := Date(y, mo, d);
            ParseTimeMark(DateMark(y, mo, d, suffix), hf, lat, lng, tz, dst, sun)
            == if suffix == " SR" || (suffix == "" && hf == 'H') then sun.sunriseUTC(date, lat, lng)
               else sun.sunsetUTC(date, lat, lng)
  {
    var s := DateMark(y, mo, d, suffix);
    ScanDateMark(y, mo, d, suffix);
    if suffix != "" {
      assert s[11..] == suffix[1..];
    }
  }

  /** A mark of placeholder text, such as "TBD", has no date and yields 0. */
  lemma PlaceholderFails(hf: char, lat: real, lng: real, tz: int, dst: bool, sun: SunModel)
    ensures ParseTimeMark("TBD", hf, lat, lng, tz, dst, sun) == 0
    ensures ParseTimeMark("", hf, lat, lng, tz, dst, sun) == 0
  {
  }

  /** 13:30 local on 2025-07-04 in a zone five hours behind UTC, under
      daylight time, is 17:30 UTC: the offset taken off is (-5 + 1) hours. */
  lemma LocalMarkExample(hf: char, lat: real, lng: real, sun: SunModel)
    ensures ParseTimeMark(ClockMark(2025, 7, 4, 13, 30, "L"), hf, lat, lng, -5, true, sun)
            == TimeGM(2025, 7, 4, 17, 30)
  {
    ClockMarkRoundTrip(2025, 7, 4, 13, 30, "L", hf, lat, lng, -5, true, sun);
    ClockWithinDay(2025, 7, 4, 13, 30);
    ClockWithinDay(2025, 7, 4, 17, 30);
  }

  // ---------------------------------------------------------------------------
  // Daylight saving (isDST)

  /** `isDST(dayOfMonth, month, dayOfWeek)` with Sunday as day 0: the North
      American rule, from the second Sunday of March to the first Sunday of
      November, decided on the date of the previous Sunday. */
  function IsDST(dayOfMonth: int, month: int, dayOfWeek: int): (r: bool)
    ensures month < 3 || month > 11 ==> !r
    ensures 3 < month < 11 ==> r
  {
    if month < 3 || month > 11 then false
    else if month > 3 && month < 11 then true
    else
      var previousSunday := dayOfMonth - dayOfWeek;
      if month == 3 then previousSunday >= 8 else previousSunday <= 0
  }

  /** In March, daylight time is in force exactly from the second Sunday on:
      the second Sunday is the one day in 8..14 that falls on a Sunday. */
  lemma MarchRule(d: int, w: int)
    requires 1 <= d <= 31 && 0 <= w < 7
    ensures var secondSunday := 8 + (d - w - 8) % 7;
            8 <= secondSunday <= 14 && (secondSunday - (d - w)) % 7 == 0
            && (IsDST(d, 3, w) <==> d >= secondSunday)
  {
  }

  /** In November, daylight time is in force exactly before the first Sunday:
      the first Sunday is the one day in 1..7 that falls on a Sunday. */
  lemma NovemberRule(d: int, w: int)
    requires 1 <= d <= 31 && 0 <= w < 7
    ensures var firstSunday := 1 + (d - w - 1) % 7;
            1 <= firstSunday <= 7 && (firstSunday - (d - w)) % 7 == 0
            && (IsDST(d, 11, w) <==> d < firstSunday)
  {
  }
}
