/** From a calendar date to seconds since the Epoch. */
module RtcTime {
  import opened Octets

  datatype Rtc = Rtc(second: nat, minute: nat, hour: nat, day: nat, month: nat, year: int)

  predicate IsLeapYear(year: int) { (year % 4 == 0 && year % 100 != 0) || year % 400 == 0 }

  const DAYS_IN_MONTH: seq<seq<nat>> := [
    [31, 28, 31, 30, 31, 30, 31, 31, 30, 31, 30, 31],
    [31, 29, 31, 30, 31, 30, 31, 31, 30, 31, 30, 31]
  ]

  /** The length of a month, counted from 0. */
  function MonthDays(leap: bool, m: nat): nat
    requires m < 12
  {
    if leap then DAYS_IN_MONTH[1][m] else DAYS_IN_MONTH[0][m]
  }

  function YearDays(year: int): nat { if IsLeapYear(year) then 366 else 365 }

  /** A date of the Gregorian calendar and a time of day, no leap second. */
  predicate Proper(t: Rtc) {
    && 1 <= t.month <= 12 && 1 <= t.day <= MonthDays(IsLeapYear(t.year), t.month - 1)
    && t.hour < 24 && t.minute < 60 && t.second < 60
  }

  // ---------------------------------------------------------------- the reference

  const BEFORE_MONTH: seq<nat> := [0, 31, 59, 90, 120, 151, 181, 212, 243, 273, 304, 334]

  /** Days since January 1. */
  function YearDay(t: Rtc): nat
    requires 1 <= t.month <= 12 && 1 <= t.day
  {
    BEFORE_MONTH[t.month - 1] + (if IsLeapYear(t.year) && t.month > 2 then 1 else 0) + t.day - 1
  }

  /** Section 4.16 of the POSIX.1-2017 Base Definitions, with tm_year counted from 1900. */
  function Posix(t: Rtc): int
    requires 1 <= t.month <= 12 && 1 <= t.day
  {
    var y := t.year - 1900;
    t.second + t.minute * 60 + t.hour * 3600 + YearDay(t) * 86400 + (y - 70) * 31536000
    + ((y - 69) / 4) * 86400 - ((y - 1) / 100) * 86400 + ((y + 299) / 400) * 86400
  }

  // ---------------------------------------------------------------- years and months

  /** Days from 1970 up to the start of a year. */
  function DaysBefore(year: int): nat
    decreases year - 1970
  {
    if year <= 1970 then 0 else DaysBefore(year - 1) + YearDays(year - 1)
  }

  lemma By4(n: int)
    ensures (n + 1) / 4 == n / 4 + (if (n + 1) % 4 == 0 then 1 else 0)
  {
  }

  lemma By100(n: int)
    ensures (n + 1) / 100 == n / 100 + (if (n + 1) % 100 == 0 then 1 else 0)
  {
  }

  lemma By400(n: int)
    ensures (n + 1) / 400 == n / 400 + (if (n + 1) % 400 == 0 then 1 else 0)
  {
  }

  lemma LeapBy(y: int)
    ensures IsLeapYear(y + 1900) <==> (((y - 68) % 4 == 0 && y % 100 != 0) || (y + 300) % 400 == 0)
    ensures (y + 300) % 400 == 0 ==> y % 100 == 0 && (y - 68) % 4 == 0
    ensures y % 100 == 0 ==> (y - 68) % 4 == 0
  {
  }

  lemma {:induction false} DaysBeforeIs(year: int)
    requires year >= 1970
    ensures var y := year - 1900; DaysBefore(year) == (y - 70) * 365 + (y - 69) / 4 - (y - 1) / 100 + (y + 299) / 400
    decreases year
  {
    if year > 1970 {
      DaysBeforeIs(year - 1);
      var y := year - 1901;
      By4(y - 69);
      By100(y - 1);
      By400(y + 299);
      LeapBy(y);
    }
  }

  function MonthsBefore(leap: bool, m: nat): nat
    requires m <= 12
  {
    if m == 0 then 0 else MonthsBefore(leap, m - 1) + MonthDays(leap, m - 1)
  }

  lemma MonthsBeforeIs(leap: bool, m: nat)
    requires m < 12
    ensures MonthsBefore(leap, m) == BEFORE_MONTH[m] + if leap && m >= 2 then 1 else 0
  {
    if m > 0 { MonthsBeforeIs(leap, m - 1); }
  }

  // ---------------------------------------------------------------- the code

  /**
   * rtc_to_unix: as POSIX counts for every date from 1970 on. A month past 13 runs off the month table. Day 0 becomes a
   * huge unsigned number: its product panics where overflow is checked, and otherwise wraps to the day before the first.
   */
  method RtcToUnix(t: Rtc, checked: bool) returns (r: Option<nat>)
    requires t.second < 256 && t.minute < 256 && t.hour < 256 && t.day < 256 && t.month < 256 && -0x8000_0000 <= t.year < 0x8000_0000
    ensures r == None <==> t.month > 13 || (checked && t.day == 0)
    ensures r.Some? ==> r.value < U64
    ensures Proper(t) && t.year >= 1970 ==> r == Some(Posix(t))
    ensures r.Some? && t.day == 0 && Proper(t.(day := 1)) && t.year >= 1970 ==> r.value == (Posix(t.(day := 1)) - 86400) % U64
  {
    hide IsLeapYear, DaysBefore, MonthsBefore, MonthDays, Posix, YearDay, AddDayAndTime, AsU64;
    var seconds := 0;
    var y := 1970;
    NoDays();
    while y < t.year
      invariant 1970 <= y && (y <= t.year || y == 1970) && seconds == DaysBefore(y) * 86400 && DaysBefore(y) <= 366 * (y - 1970)
    {
      NextYear(y);
      seconds := seconds + (365 + if IsLeapYear(y) then 1 else 0) * 86400;
      y := y + 1;
    }
    ghost var years := seconds;
    var leap := IsLeapYear(t.year);
    var m := 0;
    NoMonths(leap);
    while m < t.month - 1
      invariant 0 <= m <= 12 && (m <= t.month - 1 || m == 0) && seconds == years + MonthsBefore(leap, m) * 86400 && MonthsBefore(leap, m) <= 31 * m
    {
      if m == 12 { return None; }
      NextMonth(leap, m);
      seconds := seconds + MonthDays(leap, m) * 86400;
      m := m + 1;
    }
    var day := AsU64(t.day - 1);
    Adds(seconds, t);
    if checked && day * 86400 >= U64 { return None; }
    if t.year >= 1970 {
      if Proper(t) { Agrees(t); }
      if t.day == 0 && Proper(t.(day := 1)) { Agrees(t.(day := 1)); }
    }
    r := Some(AddDayAndTime(seconds, day, t));
  }

  /** A signed number as 64 unsigned bits. */
  function AsU64(n: int): nat { n % U64 }

  /** The last four additions, in 64 bits. */
  function AddDayAndTime(seconds: nat, day: nat, t: Rtc): nat {
    (((seconds + day * 86400) % U64 + t.hour * 3600) % U64 + t.minute * 60 + t.second) % U64
  }

  lemma Adds(seconds: nat, t: Rtc)
    requires t.day < 256
    ensures AsU64(t.day - 1) * 86400 >= U64 <==> t.day == 0
    ensures AddDayAndTime(seconds, AsU64(t.day - 1), t) == (seconds + (t.day - 1) * 86400 + TimeOfDay(t)) % U64
  {
    var days := seconds + AsU64(t.day - 1) * 86400;
    SumWraps(days, t.hour * 3600);
    SumWraps(days + t.hour * 3600, t.minute * 60 + t.second);
    if t.day == 0 {
      assert days == seconds - 86400 + 86400 * U64;
      Mod64(seconds - 86400 + TimeOfDay(t), 86400);
    }
  }

  lemma {:induction false} Mod64(n: int, k: nat)
    ensures (n + k * U64) % U64 == n % U64
  {
    if k > 0 { Mod64(n, k - 1); }
  }

  lemma SumWraps(a: int, b: nat)
    ensures (a % U64 + b) % U64 == (a + b) % U64
  {
  }

  lemma NoDays()
    ensures DaysBefore(1970) == 0
  {
  }

  lemma NextYear(y: int)
    requires y >= 1970
    ensures DaysBefore(y + 1) == DaysBefore(y) + 365 + if IsLeapYear(y) then 1 else 0
  {
    hide IsLeapYear;
  }

  lemma NoMonths(leap: bool)
    ensures MonthsBefore(leap, 0) == 0
  {
  }

  lemma NextMonth(leap: bool, m: nat)
    requires m < 12
    ensures MonthsBefore(leap, m + 1) == MonthsBefore(leap, m) + MonthDays(leap, m) && 28 <= MonthDays(leap, m) <= 31
  {
  }

  /** The sum the loops compute. */
  function Seconds(t: Rtc): int
    requires 1 <= t.month <= 12
  {
    DaysBefore(t.year) * 86400 + MonthsBefore(IsLeapYear(t.year), t.month - 1) * 86400 + (t.day - 1) * 86400 + t.hour * 3600 + t.minute * 60 + t.second
  }

  lemma Agrees(t: Rtc)
    requires Proper(t) && t.year >= 1970
    ensures Seconds(t) == Posix(t) >= 0
  {
    hide IsLeapYear, DaysBefore, MonthsBefore, MonthDays;
    DaysBeforeIs(t.year);
    MonthsBeforeIs(IsLeapYear(t.year), t.month - 1);
  }

  // ---------------------------------------------------------------- order

  predicate Earlier(t: Rtc, u: Rtc) {
    || t.year < u.year
    || (t.year == u.year && (t.month < u.month
    || (t.month == u.month && (t.day < u.day
    || (t.day == u.day && (t.hour < u.hour
    || (t.hour == u.hour && (t.minute < u.minute
    || (t.minute == u.minute && t.second < u.second)))))))))
  }

  function TimeOfDay(t: Rtc): nat { t.hour * 3600 + t.minute * 60 + t.second }

  lemma {:induction false} MonthsOrder(leap: bool, m: nat, n: nat)
    requires m < n <= 12
    ensures MonthsBefore(leap, m) + MonthDays(leap, m) <= MonthsBefore(leap, n)
  {
    hide MonthDays;
    if m + 1 < n { MonthsOrder(leap, m, n - 1); }
  }

  lemma WholeYear(leap: bool)
    ensures MonthsBefore(leap, 12) == if leap then 366 else 365
  {
    MonthsBeforeIs(leap, 11);
    NextMonth(leap, 11);
  }

  lemma {:induction false} YearsOrder(y: int, z: int)
    requires 1970 <= y < z
    ensures DaysBefore(y) + YearDays(y) <= DaysBefore(z)
    decreases z
  {
    hide YearDays;
    if y + 1 < z { YearsOrder(y, z - 1); }
  }

  function DayNumber(t: Rtc): nat
    requires 1 <= t.month <= 12 && 1 <= t.day
  {
    DaysBefore(t.year) + MonthsBefore(IsLeapYear(t.year), t.month - 1) + t.day - 1
  }

  lemma DayOrder(t: Rtc, u: Rtc)
    requires Proper(t) && Proper(u) && t.year >= 1970
    requires t.year < u.year || (t.year == u.year && (t.month < u.month || (t.month == u.month && t.day < u.day)))
    ensures DayNumber(t) < DayNumber(u)
  {
    hide IsLeapYear, DaysBefore, MonthsBefore, MonthDays;
    var leap := IsLeapYear(t.year);
    if t.year < u.year {
      YearsOrder(t.year, u.year);
      MonthsOrder(leap, t.month - 1, 12);
      WholeYear(leap);
    } else if t.month < u.month {
      MonthsOrder(leap, t.month - 1, u.month - 1);
    }
  }

  /** A later date and time is a larger number, over all dates from 1970 on; so no two of them share one. */
  lemma StrictlyIncreasing(t: Rtc, u: Rtc)
    requires Proper(t) && Proper(u) && t.year >= 1970 && u.year >= 1970
    ensures Earlier(t, u) <==> Posix(t) < Posix(u)
    ensures t == u <==> Posix(t) == Posix(u)
  {
    Agrees(t);
    Agrees(u);
    if Earlier(t, u) { InOrder(t, u); } else if t != u { InOrder(u, t); }
  }

  lemma InOrder(t: Rtc, u: Rtc)
    requires Proper(t) && Proper(u) && t.year >= 1970 && u.year >= 1970 && Earlier(t, u)
    ensures Seconds(t) < Seconds(u)
  {
    hide IsLeapYear, DaysBefore, MonthsBefore, MonthDays;
    assert Seconds(t) == DayNumber(t) * 86400 + TimeOfDay(t) && Seconds(u) == DayNumber(u) * 86400 + TimeOfDay(u);
    if t.year < u.year || t.month < u.month || t.day < u.day { DayOrder(t, u); }
  }
}
