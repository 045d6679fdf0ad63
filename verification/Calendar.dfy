/** Seconds since the Epoch and broken-down UTC time.

    `SecondsOf` is the formula of section 4.16 of POSIX.1-2017 Base Definitions, with
    the day of the year written out from month and day; it is the contract of `timegm`
    for the field ranges the parser lets through. `Broken` is the contract of `gmtime_r`:
    the one valid broken-down time whose seconds are the given ones. */
module Calendar {
  import opened Division

  const DAY := 86400

  /** The last second of the year 9999. */
  const LAST := 253402300799

  datatype Tm = Tm(year: int, month: int, day: int, hour: int, minute: int, second: int)

  predicate Leap(y: int) {
    y % 4 == 0 && (y % 100 != 0 || y % 400 == 0)
  }

  function DaysBeforeYear(y: int): int {
    365 * (y - 1970) + (y - 1969) / 4 - (y - 1901) / 100 + (y - 1601) / 400
  }

  function YearLength(y: int): int {
    if Leap(y) then 366 else 365
  }

  function MonthLength(y: int, m: int): (n: int)
    requires 1 <= m <= 12
    ensures 28 <= n <= 31
  {
    if m == 2 then (if Leap(y) then 29 else 28)
    else if m == 4 || m == 6 || m == 9 || m == 11 then 30
    else 31
  }

  function DaysBeforeMonth(y: int, m: int): (n: int)
    requires 1 <= m <= 13
    ensures n >= 0
  {
    if m == 1 then 0 else DaysBeforeMonth(y, m - 1) + MonthLength(y, m - 1)
  }

  function SecondsOf(tm: Tm): int
    requires 1 <= tm.month <= 12
  {
    DAY * (DaysBeforeYear(tm.year) + DaysBeforeMonth(tm.year, tm.month) + tm.day - 1)
    + 3600 * tm.hour + 60 * tm.minute + tm.second
  }

  predicate Valid(tm: Tm) {
    && 1 <= tm.month <= 12
    && 1 <= tm.day <= MonthLength(tm.year, tm.month)
    && 0 <= tm.hour < 24 && 0 <= tm.minute < 60 && 0 <= tm.second < 60
  }

  // ---- The calendar is gapless ---------------------------------------------

  lemma CountMultiples(y: int, d: int)
    requires d > 0
    ensures y / d - (y - 1) / d == if y % d == 0 then 1 else 0
  {
    var q, r := y / d, y % d;
    assert y == d * q + r;
    if r == 0 {
      Quotient(y - 1, d, q - 1, d - 1);
    } else {
      Quotient(y - 1, d, q, r - 1);
    }
  }

  lemma YearStep(y: int)
    ensures DaysBeforeYear(y + 1) == DaysBeforeYear(y) + YearLength(y)
  {
    CountMultiples(y - 1968, 4);
    CountMultiples(y - 1900, 100);
    CountMultiples(y - 1600, 400);
  }

  lemma TwelveMonths(y: int)
    ensures DaysBeforeMonth(y, 13) == YearLength(y)
  {
    assert DaysBeforeMonth(y, 2) == 31;
    assert DaysBeforeMonth(y, 3) == 59 + (if Leap(y) then 1 else 0);
    assert DaysBeforeMonth(y, 5) == DaysBeforeMonth(y, 3) + 61;
    assert DaysBeforeMonth(y, 7) == DaysBeforeMonth(y, 5) + 61;
    assert DaysBeforeMonth(y, 9) == DaysBeforeMonth(y, 7) + 62;
    assert DaysBeforeMonth(y, 11) == DaysBeforeMonth(y, 9) + 61;
  }

  // ---- gmtime --------------------------------------------------------------

  function YearUp(y: int, days: int): (r: int)
    requires DaysBeforeYear(y) <= days
    ensures DaysBeforeYear(r) <= days < DaysBeforeYear(r + 1)
    decreases days - DaysBeforeYear(y)
  {
    YearStep(y);
    if days < DaysBeforeYear(y + 1) then y else YearUp(y + 1, days)
  }

  function YearDown(y: int, days: int): (r: int)
    requires days < DaysBeforeYear(y + 1)
    ensures DaysBeforeYear(r) <= days < DaysBeforeYear(r + 1)
    decreases DaysBeforeYear(y + 1) - days
  {
    YearStep(y);
    if DaysBeforeYear(y) <= days then y else YearDown(y - 1, days)
  }

  function YearOf(days: int): (r: int)
    ensures DaysBeforeYear(r) <= days < DaysBeforeYear(r + 1)
  {
    if days >= 0 then YearUp(1970, days) else YearDown(1969, days)
  }

  function MonthUp(y: int, m: int, yday: int): (r: int)
    requires 1 <= m <= 12 && DaysBeforeMonth(y, m) <= yday < DaysBeforeMonth(y, 13)
    ensures 1 <= r <= 12 && DaysBeforeMonth(y, r) <= yday < DaysBeforeMonth(y, r) + MonthLength(y, r)
    decreases 13 - m
  {
    if yday < DaysBeforeMonth(y, m + 1) then m else MonthUp(y, m + 1, yday)
  }

  function DateOf(days: int): (tm: Tm)
    ensures 1 <= tm.month <= 12 && 1 <= tm.day <= MonthLength(tm.year, tm.month)
    ensures DaysBeforeYear(tm.year) + DaysBeforeMonth(tm.year, tm.month) + tm.day - 1 == days
  {
    var y := YearOf(days);
    YearStep(y);
    TwelveMonths(y);
    var m := MonthUp(y, 1, days - DaysBeforeYear(y));
    Tm(y, m, days - DaysBeforeYear(y) - DaysBeforeMonth(y, m) + 1, 0, 0, 0)
  }

  lemma Clock(rest: int)
    requires 0 <= rest < DAY
    ensures rest == 3600 * (rest / 3600) + 60 * (rest % 3600 / 60) + rest % 60
    ensures rest / 3600 < 24 && rest % 3600 / 60 < 60
  {
    Quotient(rest, 60, 60 * (rest / 3600) + rest % 3600 / 60, rest % 3600 % 60);
  }

  function Broken(t: int): (tm: Tm)
    ensures Valid(tm) && SecondsOf(tm) == t
  {
    var date, rest := DateOf(t / DAY), t % DAY;
    Clock(rest);
    date.(hour := rest / 3600, minute := rest % 3600 / 60, second := rest % 60)
  }

  // ---- Order ---------------------------------------------------------------

  lemma {:induction false} YearsIncrease(a: int, b: int)
    requires a <= b
    ensures DaysBeforeYear(a) <= DaysBeforeYear(b)
    decreases b - a
  {
    if a < b {
      YearStep(b - 1);
      YearsIncrease(a, b - 1);
    }
  }

  lemma {:induction false} MonthsIncrease(y: int, a: int, b: int)
    requires 1 <= a < b <= 13
    ensures DaysBeforeMonth(y, a) + MonthLength(y, a) <= DaysBeforeMonth(y, b)
    decreases b - a
  {
    if a + 1 < b { MonthsIncrease(y, a, b - 1); }
  }

  /** A valid broken-down time falls inside its own year. */
  lemma WithinYear(tm: Tm)
    requires Valid(tm)
    ensures DAY * DaysBeforeYear(tm.year) <= SecondsOf(tm) < DAY * DaysBeforeYear(tm.year + 1)
  {
    YearStep(tm.year);
    TwelveMonths(tm.year);
    MonthsIncrease(tm.year, tm.month, 13);
  }

  lemma YearFrom1970(t: int)
    ensures 0 <= t <==> 1970 <= Broken(t).year
  {
    var y := Broken(t).year;
    WithinYear(Broken(t));
    assert DaysBeforeYear(1970) == 0;
    if y <= 1969 { YearsIncrease(y + 1, 1970); } else { YearsIncrease(1970, y); }
  }

  lemma YearTo9999(t: int)
    ensures t <= LAST <==> Broken(t).year <= 9999
  {
    var y := Broken(t).year;
    WithinYear(Broken(t));
    assert DaysBeforeYear(10000) == 2932897;
    if y <= 9999 { YearsIncrease(y + 1, 10000); } else { YearsIncrease(10000, y); }
  }

  /** The years of the seconds from the Epoch to the end of 9999, and of no others. */
  lemma YearRange(t: int)
    ensures 0 <= t <= LAST <==> 1970 <= Broken(t).year <= 9999
  {
    YearFrom1970(t);
    YearTo9999(t);
  }
}
