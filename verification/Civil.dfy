/** The build timestamp: from seconds since 1970 to a calendar date and time. */
module Civil {
  import opened Decimal

  datatype DateTime = DateTime(year: int, month: int, day: int, hour: int, minute: int, second: int)

  // ---- the calendar, by its rules

  predicate Leap(y: int) {
    y % 4 == 0 && (y % 100 != 0 || y % 400 == 0)
  }

  function DaysInYear(y: int): int {
    if Leap(y) then 366 else 365
  }

  function DaysInMonth(y: int, m: int): int {
    if m == 2 then (if Leap(y) then 29 else 28)
    else if m == 4 || m == 6 || m == 9 || m == 11 then 30
    else 31
  }

  predicate ValidDate(y: int, m: int, d: int) {
    y >= 1970 && 1 <= m <= 12 && 1 <= d <= DaysInMonth(y, m)
  }

  predicate Valid(t: DateTime) {
    ValidDate(t.year, t.month, t.day) && 0 <= t.hour < 24 && 0 <= t.minute < 60 && 0 <= t.second < 60
  }

  /** Days from 1970-01-01 to the first of January of a year. */
  function DaysBeforeYear(y: int): nat
    requires y >= 1970
    decreases y
  {
    if y == 1970 then 0 else DaysBeforeYear(y - 1) + DaysInYear(y - 1)
  }

  /** Days from the first of January to the first of a month. */
  function DaysBeforeMonth(y: int, m: int): nat
    requires 1 <= m <= 13
    decreases m
  {
    if m == 1 then 0 else DaysBeforeMonth(y, m - 1) + DaysInMonth(y, m - 1)
  }

  function DayNumber(y: int, m: int, d: int): nat
    requires ValidDate(y, m, d)
  {
    DaysBeforeYear(y) + DaysBeforeMonth(y, m) + d - 1
  }

  /** Seconds from 1970-01-01T00:00:00Z to a date and time. */
  function Instant(t: DateTime): nat
    requires Valid(t)
  {
    DayNumber(t.year, t.month, t.day) * 86_400 + t.hour * 3_600 + t.minute * 60 + t.second
  }

  // ---- the algorithm

  datatype Date = Date(year: int, month: int, day: int)

  /** Civil-from-days on 400-year eras that start in March; `days` is never negative here. */
  function DateOf(days: nat): Date {
    var z := days + 719_468;
    var era := z / 146_097;
    DateInEra(era, z - era * 146_097)
  }

  function DateInEra(era: int, doe: int): Date {
    var yoe := YearOfDay(doe);
    DateOfMarchYear(yoe + era * 400, doe - (365 * yoe + yoe / 4 - yoe / 100))
  }

  /** The year of the era, counted from March. */
  function YearOfDay(doe: int): int {
    (doe - doe / 1_460 + doe / 36_524 - doe / 146_096) / 365
  }

  /** The date of a day of a year that starts in March. */
  function DateOfMarchYear(y: int, doy: int): Date {
    var mp := (5 * doy + 2) / 153;
    var d := doy - (153 * mp + 2) / 5 + 1;
    var m := if mp < 10 then mp + 3 else mp - 9;
    Date(if m <= 2 then y + 1 else y, m, d)
  }

  /** `rfc3339` up to the formatting. */
  function FromSeconds(seconds: nat): DateTime {
    var date := DateOf(seconds / 86_400);
    var time := seconds % 86_400;
    DateTime(date.year, date.month, date.day, time / 3_600, time % 3_600 / 60, time % 60)
  }

  function Rfc3339(seconds: nat): string {
    Format(FromSeconds(seconds))
  }

  function Format(t: DateTime): string {
    Joined(Pad(Abs(t.year), 4), Pad(Abs(t.month), 2), Pad(Abs(t.day), 2),
           Pad(Abs(t.hour), 2), Pad(Abs(t.minute), 2), Pad(Abs(t.second), 2))
  }

  function Joined(year: string, month: string, day: string, hour: string, minute: string, second: string): string {
    year + "-" + month + "-" + day + "T" + hour + ":" + minute + ":" + second + "Z"
  }

  /** All fields that are ever formatted are natural numbers. */
  function Abs(n: int): nat {
    if n < 0 then -n else n
  }

  // ---- years

  /** Leap days of the years 1 to n. */
  function LeapDays(n: int): int {
    n / 4 - n / 100 + n / 400
  }

  lemma {:induction false} YearsInClosedForm(y: int)
    requires y >= 1970
    ensures DaysBeforeYear(y) == 365 * (y - 1970) + LeapDays(y - 1) - 477
    decreases y
  {
    if y > 1970 {
      YearsInClosedForm(y - 1);
      OneMoreYear(y - 1);
    }
  }

  lemma OneMoreYear(y: int)
    ensures LeapDays(y) == LeapDays(y - 1) + if Leap(y) then 1 else 0
  {
    StepOfQuotient(y, 4);
    StepOfQuotient(y, 100);
    StepOfQuotient(y, 400);
  }

  lemma StepOfQuotient(y: int, k: int)
    requires k == 4 || k == 100 || k == 400
    ensures y / k == (y - 1) / k + if y % k == 0 then 1 else 0
  {
  }

  /** The place of a day inside its era: century, four-year cycle, year, day of the March year. */
  datatype Place = Place(c: int, q: int, k: int, doy: int)

  predicate InEra(p: Place) {
    && 0 <= p.c <= 3 && 0 <= p.q <= 24 && 0 <= p.k <= 3
    && 0 <= p.doy <= (if p.k == 3 && (p.q < 24 || p.c == 3) then 365 else 364)
  }

  function DayOfEra(p: Place): int {
    36_524 * p.c + 1_461 * p.q + 365 * p.k + p.doy
  }

  lemma PlaceOf(doe: int) returns (p: Place)
    requires 0 <= doe < 146_097
    ensures InEra(p) && DayOfEra(p) == doe
  {
    var c := if doe == 146_096 then 3 else doe / 36_524;
    var r := doe - 36_524 * c;
    var q := r / 1_461;
    var s := r - 1_461 * q;
    var k := if s == 1_460 then 3 else s / 365;
    p := Place(c, q, k, s - 365 * k);
  }

  /** The quotient that finds the year of the era finds the right one. */
  lemma YearOfEra(p: Place)
    requires InEra(p)
    ensures YearOfDay(DayOfEra(p)) == 100 * p.c + 4 * p.q + p.k
  {
    var doe := DayOfEra(p);
    var s := 365 * p.k + p.doy;
    var e := if 24 * p.c + p.q + s >= 1_460 then 1 else 0;
    assert doe / 1_460 == 25 * p.c + p.q + e by {
      assert doe == 1_460 * (25 * p.c + p.q) + (24 * p.c + p.q + s);
    }
    assert doe / 36_524 - doe / 146_096 == p.c;
    assert doe - doe / 1_460 + doe / 36_524 - doe / 146_096 == 365 * (100 * p.c + 4 * p.q) + (s - e);
    assert (s - e) / 365 == p.k;
  }

  lemma DayOfYear(p: Place)
    requires InEra(p)
    ensures
      var yoe := 100 * p.c + 4 * p.q + p.k;
      DayOfEra(p) - (365 * yoe + yoe / 4 - yoe / 100) == p.doy
  {
    var yoe := 100 * p.c + 4 * p.q + p.k;
    assert yoe / 4 == 25 * p.c + p.q;
    assert yoe / 100 == p.c;
  }

  /** The March year of a place in an era, and whether the February that ends it has 29 days. */
  lemma LeapOfPlace(era: nat, p: Place)
    requires InEra(p)
    ensures
      var y := 400 * era + 100 * p.c + 4 * p.q + p.k;
      && LeapDays(y) == 97 * era + 24 * p.c + p.q
      && (Leap(y + 1) <==> p.k == 3 && (p.q < 24 || p.c == 3))
  {
    CycleOf4(100 * era + 25 * p.c + p.q, p.k);
    CycleOf100(4 * era + p.c, 4 * p.q + p.k);
    CycleOf400(era, 100 * p.c + 4 * p.q + p.k);
  }

  lemma CycleOf4(a: int, r: int)
    requires 0 <= r < 4
    ensures (4 * a + r) / 4 == a && ((4 * a + r + 1) % 4 == 0 <==> r == 3)
  {
  }

  lemma CycleOf100(a: int, r: int)
    requires 0 <= r < 100
    ensures (100 * a + r) / 100 == a && ((100 * a + r + 1) % 100 == 0 <==> r == 99)
  {
  }

  lemma CycleOf400(a: int, r: int)
    requires 0 <= r < 400
    ensures (400 * a + r) / 400 == a && ((400 * a + r + 1) % 400 == 0 <==> r == 399)
  {
  }

  // ---- months

  /** The date of a day of the March year y lies in y before January and in y + 1 after December. */
  lemma MonthOfDay(y: int, doy: int)
    requires 0 <= doy <= if Leap(y + 1) then 365 else 364
    ensures
      var t := DateOfMarchYear(y, doy);
      && t.year == (if doy >= 306 then y + 1 else y)
      && 1 <= t.month <= 12 && 1 <= t.day <= DaysInMonth(t.year, t.month)
      && DaysBeforeMonth(t.year, t.month) + t.day - 1
         == (if doy >= 306 then doy - 306 else doy + 59 + if Leap(y) then 1 else 0)
  {
    var mp := (5 * doy + 2) / 153;
    assert 0 <= mp <= 11;
    MonthsInClosedForm(y);
    MonthsInClosedForm(y + 1);
  }

  lemma MonthsInClosedForm(y: int)
    ensures
      var l := if Leap(y) then 1 else 0;
      && DaysBeforeMonth(y, 1) == 0 && DaysBeforeMonth(y, 2) == 31 && DaysBeforeMonth(y, 3) == 59 + l
      && DaysBeforeMonth(y, 4) == 90 + l && DaysBeforeMonth(y, 5) == 120 + l && DaysBeforeMonth(y, 6) == 151 + l
      && DaysBeforeMonth(y, 7) == 181 + l && DaysBeforeMonth(y, 8) == 212 + l && DaysBeforeMonth(y, 9) == 243 + l
      && DaysBeforeMonth(y, 10) == 273 + l && DaysBeforeMonth(y, 11) == 304 + l && DaysBeforeMonth(y, 12) == 334 + l
      && DaysBeforeMonth(y, 13) == DaysInYear(y)
  {
    assert DaysBeforeMonth(y, 4) == DaysBeforeMonth(y, 3) + 31;
    assert DaysBeforeMonth(y, 6) == DaysBeforeMonth(y, 5) + 31;
    assert DaysBeforeMonth(y, 8) == DaysBeforeMonth(y, 7) + 31;
    assert DaysBeforeMonth(y, 10) == DaysBeforeMonth(y, 9) + 30;
    assert DaysBeforeMonth(y, 12) == DaysBeforeMonth(y, 11) + 30;
  }

  // ---- the main results

  /** The algorithm finds the date by the place of the day in its era. */
  lemma DateOfPlace(era: nat, p: Place)
    requires InEra(p)
    ensures DateInEra(era, DayOfEra(p)) == DateOfMarchYear(400 * era + 100 * p.c + 4 * p.q + p.k, p.doy)
  {
    YearOfEra(p);
    DayOfYear(p);
  }

  /** That date is the one whose day number was asked for. */
  lemma DayOfPlace(days: nat, era: nat, p: Place)
    requires InEra(p) && days + 719_468 == era * 146_097 + DayOfEra(p)
    ensures
      var t := DateOfMarchYear(400 * era + 100 * p.c + 4 * p.q + p.k, p.doy);
      ValidDate(t.year, t.month, t.day) && DayNumber(t.year, t.month, t.day) == days
  {
    var y := 400 * era + 100 * p.c + 4 * p.q + p.k;
    LeapOfPlace(era, p);
    MonthOfDay(y, p.doy);
    YearsOfPlace(days, era, p);
  }

  /** The days of the calendar year before and after the turn of the year at a place. */
  lemma YearsOfPlace(days: nat, era: nat, p: Place)
    requires InEra(p) && days + 719_468 == era * 146_097 + DayOfEra(p)
    ensures
      var y := 400 * era + 100 * p.c + 4 * p.q + p.k;
      if p.doy >= 306
      then y >= 1969 && DaysBeforeYear(y + 1) == days - (p.doy - 306)
      else y >= 1970 && DaysBeforeYear(y) == days - (p.doy + 59 + if Leap(y) then 1 else 0)
  {
    var y := 400 * era + 100 * p.c + 4 * p.q + p.k;
    LeapOfPlace(era, p);
    if p.doy >= 306 {
      YearsInClosedForm(y + 1);
    } else {
      YearsInClosedForm(y);
      OneMoreYear(y);
    }
  }

  predicate IsDay(t: Date, days: nat) {
    ValidDate(t.year, t.month, t.day) && DayNumber(t.year, t.month, t.day) == days
  }

  lemma DayOfEraGivesDate(days: nat, era: nat, doe: nat)
    requires doe < 146_097 && days + 719_468 == era * 146_097 + doe
    ensures IsDay(DateInEra(era, doe), days)
  {
    var p := PlaceOf(doe);
    DateOfPlace(era, p);
    DayOfPlace(days, era, p);
  }

  lemma EraHolds(z: nat) returns (era: nat, doe: nat)
    ensures era == z / 146_097 && doe == z - era * 146_097 && doe < 146_097
  {
    era, doe := z / 146_097, z - z / 146_097 * 146_097;
  }

  lemma TheRightDate(days: nat)
    ensures IsDay(DateOf(days), days)
  {
    var era, doe := EraHolds(days + 719_468);
    assert DateOf(days) == DateInEra(era, doe);
    DayOfEraGivesDate(days, era, doe);
  }

  /** For every number of seconds the result is the calendar date and time of that instant. */
  lemma TheRightInstant(seconds: nat)
    ensures Valid(FromSeconds(seconds)) && Instant(FromSeconds(seconds)) == seconds
  {
    TheRightDate(seconds / 86_400);
    ClockReads(seconds % 86_400);
  }

  lemma ClockReads(time: nat)
    requires time < 86_400
    ensures time / 3_600 < 24 && time % 3_600 / 60 < 60
    ensures time / 3_600 * 3_600 + time % 3_600 / 60 * 60 + time % 60 == time
  {
    assert time % 60 == time % 3_600 % 60;
  }

  // ---- there is only one such date and time

  lemma {:induction false} YearsDoNotOverlap(y: int, later: int)
    requires 1970 <= y < later
    ensures DaysBeforeYear(y) + DaysInYear(y) <= DaysBeforeYear(later)
    decreases later
  {
    if later > y + 1 {
      YearsDoNotOverlap(y, later - 1);
    }
  }

  lemma {:induction false} MonthsDoNotOverlap(y: int, m: int, later: int)
    requires 1 <= m < later <= 13
    ensures DaysBeforeMonth(y, m) + DaysInMonth(y, m) <= DaysBeforeMonth(y, later)
    decreases later
  {
    if later > m + 1 {
      MonthsDoNotOverlap(y, m, later - 1);
    }
  }

  lemma DayIsInItsYear(y: int, m: int, d: int)
    requires ValidDate(y, m, d)
    ensures DaysBeforeYear(y) <= DayNumber(y, m, d) < DaysBeforeYear(y + 1)
  {
    MonthsDoNotOverlap(y, m, 13);
    MonthsInClosedForm(y);
    assert DaysBeforeYear(y + 1) == DaysBeforeYear(y) + DaysInYear(y);
  }

  lemma EarlierYearEarlierDay(t: Date, u: Date)
    requires ValidDate(t.year, t.month, t.day) && ValidDate(u.year, u.month, u.day)
    requires t.year < u.year
    ensures DayNumber(t.year, t.month, t.day) < DayNumber(u.year, u.month, u.day)
  {
    DayIsInItsYear(t.year, t.month, t.day);
    DayIsInItsYear(u.year, u.month, u.day);
    YearsDoNotOverlap(t.year, u.year);
  }

  lemma DayNumberIsUnique(t: Date, u: Date)
    requires ValidDate(t.year, t.month, t.day) && ValidDate(u.year, u.month, u.day)
    requires DayNumber(t.year, t.month, t.day) == DayNumber(u.year, u.month, u.day)
    ensures t == u
  {
    if t.year < u.year {
      EarlierYearEarlierDay(t, u);
    } else if u.year < t.year {
      EarlierYearEarlierDay(u, t);
    } else if t.month < u.month {
      MonthsDoNotOverlap(t.year, t.month, u.month);
    } else if u.month < t.month {
      MonthsDoNotOverlap(t.year, u.month, t.month);
    }
  }

  /** A valid date and time is found by the algorithm from its instant, and from no other number. */
  lemma InstantIsUnique(t: DateTime, seconds: nat)
    requires Valid(t)
    ensures Instant(t) == seconds <==> FromSeconds(seconds) == t
  {
    TheRightInstant(seconds);
    if Instant(t) == seconds {
      var u := FromSeconds(seconds);
      DayNumberIsUnique(Date(t.year, t.month, t.day), Date(u.year, u.month, u.day));
    }
  }

  // ---- the text

  /** The first second of the year 10000. */
  const FIVE_DIGIT_YEARS: nat := 253_402_300_800

  lemma YearByInstant(t: DateTime, y: int)
    requires Valid(t) && y >= 1970
    ensures t.year < y <==> Instant(t) < DaysBeforeYear(y) * 86_400
  {
    DayIsInItsYear(t.year, t.month, t.day);
    if t.year + 1 < y {
      YearsDoNotOverlap(t.year + 1, y);
    } else if y < t.year {
      YearsDoNotOverlap(y, t.year);
    }
  }

  lemma DaysToFiveDigits(y: int)
    requires y == 10_000
    ensures DaysBeforeYear(y) * 86_400 == FIVE_DIGIT_YEARS
  {
    YearsInClosedForm(y);
    assert LeapDays(y - 1) == 2_424;
  }

  lemma YearHasFourDigits(t: DateTime, y: int)
    requires Valid(t) && y == 10_000
    ensures t.year < y <==> Instant(t) < FIVE_DIGIT_YEARS
  {
    YearByInstant(t, y);
    DaysToFiveDigits(y);
  }

  predicate AllDigits(s: string) {
    forall i :: 0 <= i < |s| ==> IsDigit(s[i])
  }

  /** Numerals of the given places of a text. */
  predicate Numeral(text: string, lo: int, hi: int) {
    0 <= lo <= hi <= |text| && AllDigits(text[lo..hi])
  }

  function Read(text: string, lo: int, hi: int): nat
    requires Numeral(text, lo, hi)
  {
    Value(text[lo..hi])
  }

  /** The date-time of section 5.6 of RFC 3339 with a year of n digits and the offset "Z". */
  predicate IsTimestamp(text: string, n: nat) {
    && |text| == n + 16
    && Numeral(text, 0, n) && Numeral(text, n + 1, n + 3) && Numeral(text, n + 4, n + 6)
    && Numeral(text, n + 7, n + 9) && Numeral(text, n + 10, n + 12) && Numeral(text, n + 13, n + 15)
    && text[n] == '-' && text[n + 3] == '-' && text[n + 6] == 'T'
    && text[n + 9] == ':' && text[n + 12] == ':' && text[n + 15] == 'Z'
  }

  function ReadTimestamp(text: string, n: nat): DateTime
    requires IsTimestamp(text, n)
  {
    DateTime(Read(text, 0, n), Read(text, n + 1, n + 3), Read(text, n + 4, n + 6),
             Read(text, n + 7, n + 9), Read(text, n + 10, n + 12), Read(text, n + 13, n + 15))
  }

  lemma TwoDigitField(n: nat)
    requires n < 100
    ensures |Pad(n, 2)| == 2 && Value(Pad(n, 2)) == n
  {
    PadWidth(n, 2);
    PadCanBeRead(n, 2);
    assert Pow10(2) == 100;
  }

  lemma PiecesOfJoined(year: string, month: string, day: string, hour: string, minute: string, second: string)
    requires |month| == 2 && |day| == 2 && |hour| == 2 && |minute| == 2 && |second| == 2
    ensures
      var text, n := Joined(year, month, day, hour, minute, second), |year|;
      && |text| == n + 16
      && text[0..n] == year && text[n + 1..n + 3] == month && text[n + 4..n + 6] == day
      && text[n + 7..n + 9] == hour && text[n + 10..n + 12] == minute && text[n + 13..n + 15] == second
      && text[n] == '-' && text[n + 3] == '-' && text[n + 6] == 'T'
      && text[n + 9] == ':' && text[n + 12] == ':' && text[n + 15] == 'Z'
  {
    var text, n := Joined(year, month, day, hour, minute, second), |year|;
    assert text[n..] == "-" + month + "-" + day + "T" + hour + ":" + minute + ":" + second + "Z";
    assert text[n + 1..n + 3] == month;
  }

  lemma JoinedCanBeRead(year: string, month: string, day: string, hour: string, minute: string, second: string)
    requires |month| == 2 && |day| == 2 && |hour| == 2 && |minute| == 2 && |second| == 2
    requires AllDigits(year) && AllDigits(month) && AllDigits(day)
    requires AllDigits(hour) && AllDigits(minute) && AllDigits(second)
    ensures
      var text, n := Joined(year, month, day, hour, minute, second), |year|;
      && IsTimestamp(text, n)
      && ReadTimestamp(text, n)
         == DateTime(Value(year), Value(month), Value(day), Value(hour), Value(minute), Value(second))
  {
    PiecesOfJoined(year, month, day, hour, minute, second);
  }

  /** The text of valid fields is a timestamp from which the fields can be read back. */
  lemma FormatCanBeRead(t: DateTime)
    requires Valid(t)
    ensures
      var n := |Pad(t.year, 4)|;
      IsTimestamp(Format(t), n) && ReadTimestamp(Format(t), n) == t
  {
    PadCanBeRead(t.year, 4);
    TwoDigitField(t.month);
    TwoDigitField(t.day);
    TwoDigitField(t.hour);
    TwoDigitField(t.minute);
    TwoDigitField(t.second);
    JoinedCanBeRead(Pad(t.year, 4), Pad(t.month, 2), Pad(t.day, 2), Pad(t.hour, 2), Pad(t.minute, 2), Pad(t.second, 2));
  }

  /**
   * Below the year 10000, and only there, the text is a 20-character date-time of sections 5.6 and
   * 5.7 of RFC 3339; reading it gives the one valid date and time of the instant.
   */
  lemma TimestampIsRight(seconds: nat)
    ensures
      var text := Rfc3339(seconds);
      && (|text| == 20 <==> seconds < FIVE_DIGIT_YEARS)
      && (seconds < FIVE_DIGIT_YEARS ==>
            && IsTimestamp(text, 4)
            && Valid(ReadTimestamp(text, 4)) && Instant(ReadTimestamp(text, 4)) == seconds)
  {
    var t := FromSeconds(seconds);
    TheRightInstant(seconds);
    FormatCanBeRead(t);
    YearHasFourDigits(t, 10_000);
    PadWidth(t.year, 4);
    assert Pow10(4) == 10_000 by { assert Pow10(2) == 100; }
  }
}
